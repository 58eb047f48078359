/** How often an entry can be removed in a run of the token protocol, counted by what set the removals off. */
module ProtocolDeletions {
  import opened PyValues
  import opened Tokens
  import opened TokenProtocol
  import opened ProtocolInvariant
  import opened ProtocolTheorems

  /** How many removals of the key's entry a thread may still make: one to invalidate it, and if `heals`, one at
      each look at the entry that it has still ahead. */
  function Weight(heals: bool, p: Phase, k: Key): nat {
    if p.Idle? || p.key != k then 0
    else if p.Deleting? then 1
    else if !heals then 0
    else
      match p
      case ReadClock(_) => 2
      case ReadStore(_, _) => 2
      case HealUnlocked(_) => 2
      case Locked(_, _, _, step) =>
        if step.GetClock? || step.GetStore? || step.GetHeal? || step.RecStore? || step.RecHeal? then 1 else 0
      case _ => 1
  }

  /** The removals that a label sets off or, if `heals`, makes possible. */
  function Credit(heals: bool, l: Label, k: Key): nat {
    match l
    case Evict(j) => if j == k then 1 else 0
    case StartInvalidate(_, j) => if j == k then 1 else 0
    case StartGet(_, j) => if heals && j == k then 2 else 0
    case StartRecover(_, j, _) => if heals && j == k then 1 else 0
    case _ => 0
  }

  function Credits(heals: bool, labels: seq<Label>, k: Key): nat
    decreases |labels|
  {
    if labels == [] then 0 else Credit(heals, labels[0], k) + Credits(heals, labels[1..], k)
  }

  /** The weights of the first `n` threads together. */
  function Pending(heals: bool, s: State, k: Key, n: nat): nat {
    if n == 0 then 0 else Pending(heals, s, k, n - 1) + Weight(heals, s.PhaseOf(n - 1), k)
  }

  lemma {:induction false} PendingChange(heals: bool, s: State, s': State, k: Key, n: nat, t: Tid)
    requires forall u: Tid :: u != t ==> s'.PhaseOf(u) == s.PhaseOf(u)
    ensures Pending(heals, s', k, n)
      == Pending(heals, s, k, n)
         + (if t < n then Weight(heals, s'.PhaseOf(t), k) - Weight(heals, s.PhaseOf(t), k) else 0)
  {
    hide Weight;
    if n > 0 {
      PendingChange(heals, s, s', k, n - 1, t);
    }
  }

  predicate AtHeal(p: Phase, k: Key) {
    (p.HealUnlocked? && p.key == k) || (p.Locked? && p.key == k && (p.step.GetHeal? || p.step.RecHeal?))
  }

  /** The entry is readable and nobody is about to heal it. */
  ghost predicate Healthy(s: State, k: Key) {
    s.SlotOf(k).entry != Corrupt && forall t: Tid :: !AtHeal(s.PhaseOf(t), k)
  }

  /** A step pays for the removal it makes with its credit, or with the weight its thread gives up. */
  ghost predicate Pays(heals: bool, s: State, s': State, l: Label, k: Key) {
    var before := if Mover(l).Some? then Weight(heals, s.PhaseOf(l.tid), k) else 0;
    var after := if Mover(l).Some? then Weight(heals, s'.PhaseOf(l.tid), k) else 0;
    s'.SlotOf(k).deletions + after <= s.SlotOf(k).deletions + before + Credit(heals, l, k)
  }

  lemma RemovedOnce(slot: Slot)
    ensures slot.Removed().deletions <= slot.deletions + 1 && slot.Removed().entry != Corrupt
  {
  }

  lemma OtherPays(leeway: real, s: State, l: Label, k: Key, heals: bool)
    requires Enabled(s, l) && !l.Advance? && !l.StoreRaises?
    ensures Pays(heals, s, Apply(leeway, s, l), l, k)
  {
    OtherStepFrame(leeway, s, l);
    RemovedOnce(s.SlotOf(k));
    hide Apply, State.PhaseOf, State.SlotOf, Slot.Removed;
  }

  lemma RaisePays(s: State, t: Tid, committed: bool, k: Key, heals: bool)
    requires AtStore(s.PhaseOf(t)) && (heals || Healthy(s, k))
    ensures Pays(heals, s, Raise(s, t, committed), StoreRaises(t, committed), k)
  {
    RaiseFrame(s, t, committed);
    RemovedOnce(s.SlotOf(k));
    assert heals || !AtHeal(s.PhaseOf(t), k);
    hide Raise, State.PhaseOf, State.SlotOf, Slot.Removed, Healthy;
  }

  lemma InsidePays(leeway: real, s: State, t: Tid, k: Key, heals: bool)
    requires s.PhaseOf(t).Locked? && !AwaitsReply(s.PhaseOf(t)) && (heals || Healthy(s, k))
    ensures Pays(heals, s, LockedStep(leeway, s, t, s.PhaseOf(t)), Advance(t), k)
  {
    var p := s.PhaseOf(t);
    LockedStepFrame(leeway, s, t);
    RemovedOnce(s.SlotOf(k));
    assert heals || !AtHeal(p, k);
    hide LockedStep, State.PhaseOf, State.SlotOf, Slot.Removed, Healthy, Decide, Effect;
    if !p.step.Leaving? {
      InsideWeights(leeway, s.SlotOf(p.key), s.clock, p, heals, k);
    }
    hide InsideStep, Weight;
  }

  lemma InsideWeights(leeway: real, slot: Slot, clock: real, p: Phase, heals: bool, k: Key)
    requires p.Locked? && !AwaitsReply(p) && !p.step.Leaving?
    ensures
      var (slot', step') := InsideStep(leeway, slot, clock, p.call, p.step);
      && Weight(heals, p.(step := step'), k) <= Weight(heals, p, k)
      && (AtHeal(p, k) ==> slot' == slot.Removed() && Weight(heals, p.(step := step'), k) == 0
                           && Weight(heals, p, k) == if heals then 1 else 0)
      && (!AtHeal(p, p.key) ==> slot'.deletions == slot.deletions)
    ensures Weight(heals, p.(step := Leaving(RaisedError)), k) == 0
  {
    hide Slot.Removed;
  }

  lemma OutsidePays(leeway: real, s: State, t: Tid, k: Key, heals: bool)
    requires CanAdvance(s, s.PhaseOf(t)) && !s.PhaseOf(t).Locked? && (heals || Healthy(s, k))
    ensures Pays(heals, s, AdvanceThread(leeway, s, t), Advance(t), k)
  {
    var p := s.PhaseOf(t);
    OutsideStepFrame(leeway, s, t);
    OutsideWeights(leeway, s, t, heals, k);
    RemovedOnce(s.SlotOf(k));
    assert heals || !AtHeal(p, k);
    hide AdvanceThread, State.PhaseOf, State.SlotOf, Slot.Removed, Healthy;
  }

  lemma OutsideWeights(leeway: real, s: State, t: Tid, heals: bool, k: Key)
    requires CanAdvance(s, s.PhaseOf(t)) && !s.PhaseOf(t).Locked?
    ensures
      var p, p' := s.PhaseOf(t), AdvanceThread(leeway, s, t).PhaseOf(t);
      var before, after := Weight(heals, p, k), Weight(heals, p', k);
      after <= if (p.Deleting? || p.HealUnlocked?) && before > 0 then before - 1 else before
  {
    hide Slot.Removed, LockedStep;
  }

  lemma StepPays(leeway: real, s: State, l: Label, k: Key, heals: bool)
    requires Enabled(s, l) && (heals || Healthy(s, k))
    ensures Pays(heals, s, Apply(leeway, s, l), l, k)
  {
    hide AdvanceThread, LockedStep, Raise, Pays, Healthy;
    if l.StoreRaises? {
      RaisePays(s, l.tid, l.committed, k, heals);
    } else if !l.Advance? {
      OtherPays(leeway, s, l, k, heals);
    } else if s.PhaseOf(l.tid).Locked? {
      AdvanceIsLockedStep(leeway, s, l.tid);
      InsidePays(leeway, s, l.tid, k, heals);
    } else {
      OutsidePays(leeway, s, l.tid, k, heals);
    }
  }

  // ----- Without corruption nothing is healed -----

  lemma OtherStaysHealthy(leeway: real, s: State, l: Label, k: Key)
    requires Healthy(s, k) && Enabled(s, l) && l != CorruptEntry(k) && !l.Advance? && !l.StoreRaises?
    ensures Healthy(Apply(leeway, s, l), k)
  {
    var s' := Apply(leeway, s, l);
    OtherStepFrame(leeway, s, l);
    RemovedOnce(s.SlotOf(k));
    hide Apply, State.PhaseOf, State.SlotOf, Slot.Removed;
    forall t: Tid ensures !AtHeal(s'.PhaseOf(t), k) {
      assert !AtHeal(s.PhaseOf(t), k);
    }
  }

  lemma RaiseStaysHealthy(s: State, t: Tid, committed: bool, k: Key)
    requires Healthy(s, k) && AtStore(s.PhaseOf(t))
    ensures Healthy(Raise(s, t, committed), k)
  {
    var s' := Raise(s, t, committed);
    RaiseFrame(s, t, committed);
    RemovedOnce(s.SlotOf(k));
    hide Raise, State.PhaseOf, State.SlotOf, Slot.Removed;
    forall u: Tid ensures !AtHeal(s'.PhaseOf(u), k) {
      assert !AtHeal(s.PhaseOf(u), k);
    }
  }

  /** An own step reaches the healing only from a look at an unreadable entry. */
  lemma AdvanceStaysHealthy(leeway: real, s: State, t: Tid, k: Key)
    requires Healthy(s, k) && CanAdvance(s, s.PhaseOf(t))
    ensures Healthy(AdvanceThread(leeway, s, t), k)
  {
    var s' := AdvanceThread(leeway, s, t);
    var p := s.PhaseOf(t);
    RemovedOnce(s.SlotOf(k));
    assert !AtHeal(p, k);
    if p.Locked? {
      AdvanceIsLockedStep(leeway, s, t);
      LockedStepFrame(leeway, s, t);
      if !p.step.Leaving? {
        InsideHeals(leeway, s.SlotOf(p.key), s.clock, p);
      }
    } else {
      OutsideStepFrame(leeway, s, t);
      OutsideHeals(leeway, s, t);
    }
    hide AdvanceThread, LockedStep, InsideStep, State.PhaseOf, State.SlotOf, Slot.Removed;
    forall u: Tid ensures !AtHeal(s'.PhaseOf(u), k) {
      assert !AtHeal(s.PhaseOf(u), k);
    }
  }

  lemma InsideHeals(leeway: real, slot: Slot, clock: real, p: Phase)
    requires p.Locked? && !AwaitsReply(p) && !p.step.Leaving?
    ensures
      var (slot', step') := InsideStep(leeway, slot, clock, p.call, p.step);
      && (step'.GetHeal? || step'.RecHeal? ==> slot.entry == Corrupt)
      && (slot'.entry == Corrupt ==> slot.entry == Corrupt)
  {
  }

  lemma OutsideHeals(leeway: real, s: State, t: Tid)
    requires CanAdvance(s, s.PhaseOf(t)) && !s.PhaseOf(t).Locked?
    ensures
      var p, p' := s.PhaseOf(t), AdvanceThread(leeway, s, t).PhaseOf(t);
      && (p'.HealUnlocked? ==> !p.Idle? && p'.key == p.key && s.SlotOf(p.key).entry == Corrupt)
      && (p'.Locked? ==> p'.step.GetClock? || p'.step.RecStore?)
  {
    hide Slot.Removed, LockedStep;
  }

  lemma StaysHealthy(leeway: real, s: State, l: Label, k: Key)
    requires Healthy(s, k) && Enabled(s, l) && l != CorruptEntry(k)
    ensures Healthy(Apply(leeway, s, l), k)
  {
    hide AdvanceThread, Raise, Healthy;
    if l.Advance? {
      AdvanceStaysHealthy(leeway, s, l.tid, k);
    } else if l.StoreRaises? {
      RaiseStaysHealthy(s, l.tid, l.committed, k);
    } else {
      OtherStaysHealthy(leeway, s, l, k);
    }
  }

  // ----- Over a run -----

  /** All threads that move have numbers below `n`. */
  predicate Below(labels: seq<Label>, n: nat) {
    forall i :: 0 <= i < |labels| && Mover(labels[i]).Some? ==> labels[i].tid < n
  }

  lemma {:induction false} SomeBound(labels: seq<Label>) returns (n: nat)
    ensures Below(labels, n)
  {
    n := 0;
    if labels != [] {
      var last := |labels| - 1;
      var m := SomeBound(labels[..last]);
      n := if Mover(labels[last]).Some? && labels[last].tid >= m then labels[last].tid + 1 else m;
      assert forall i :: 0 <= i < last ==> labels[i] == labels[..last][i];
    }
  }

  lemma {:induction false} RunPays(leeway: real, s: State, labels: seq<Label>, k: Key, heals: bool, n: nat)
    requires ValidRun(leeway, s, labels) && Below(labels, n)
    requires heals || (Healthy(s, k) && CorruptEntry(k) !in labels)
    ensures
      var s' := Run(leeway, s, labels);
      s'.SlotOf(k).deletions + Pending(heals, s', k, n)
        <= s.SlotOf(k).deletions + Pending(heals, s, k, n) + Credits(heals, labels, k)
    decreases |labels|
  {
    hide Apply, Enabled, Healthy, Weight, Credit, State.SlotOf, State.PhaseOf;
    if labels != [] {
      var l := labels[0];
      var s1 := Apply(leeway, s, l);
      StepPays(leeway, s, l, k, heals);
      if !heals {
        StaysHealthy(leeway, s, l, k);
      }
      var t: Tid := if Mover(l).Some? then l.tid else n;
      forall u: Tid | u != t || Mover(l).None? ensures s1.PhaseOf(u) == s.PhaseOf(u) {
        OthersStay(leeway, s, l, u);
      }
      PendingChange(heals, s, s1, k, n, t);
      RunPays(leeway, s1, labels[1..], k, heals, n);
    }
  }

  lemma {:induction false} NothingPending(heals: bool, k: Key, n: nat)
    ensures Pending(heals, INITIAL, k, n) == 0
  {
    if n > 0 {
      NothingPending(heals, k, n - 1);
    }
  }

  /** In a run from the start the entry of a key is removed at most once for each invalidation and eviction of the
      key, and, if its entry was ever corrupted, twice for each `get_token` and once for each recovery. */
  lemma DeletionsBounded(leeway: real, labels: seq<Label>, k: Key)
    requires ValidRun(leeway, INITIAL, labels)
    ensures Run(leeway, INITIAL, labels).SlotOf(k).deletions <= Credits(CorruptEntry(k) in labels, labels, k)
  {
    var heals := CorruptEntry(k) in labels;
    var n := SomeBound(labels);
    NothingPending(heals, k, n);
    assert Healthy(INITIAL, k);
    hide ValidRun, Run, Healthy;
    RunPays(leeway, INITIAL, labels, k, heals, n);
  }

  /** The issuance bound in terms of what happened: the tokens stored under a key number at most one, plus what its
      invalidations, evictions and heals can remove, plus its distinct tokens that were rejected or had come within
      the leeway. */
  lemma IssuanceBoundOfLabels(leeway: real, labels: seq<Label>, k: Key)
    requires ValidRun(leeway, INITIAL, labels)
    ensures
      var s := Run(leeway, INITIAL, labels);
      var log := s.SlotOf(k).log;
      |log| <= 1 + Credits(CorruptEntry(k) in labels, labels, k)
          + |SpentTokens(leeway, log, |log|, s.rejected, s.clock)|
  {
    hide ValidRun, Run, Credits, SpentTokens;
    DeletionsBounded(leeway, labels, k);
    assert Reachable(leeway, Run(leeway, INITIAL, labels)) by { RunIsReachable(leeway, labels); }
    IssuanceBound(leeway, Run(leeway, INITIAL, labels), k);
  }

  lemma RunIsReachable(leeway: real, labels: seq<Label>)
    requires ValidRun(leeway, INITIAL, labels)
    ensures Reachable(leeway, Run(leeway, INITIAL, labels))
  {
    hide ValidRun, Run;
  }

  // ----- Corruptions are not enough to pay for heals -----

  /** How many times the key was invalidated, evicted or corrupted. */
  function Disturbances(labels: seq<Label>, k: Key): nat {
    if labels == [] then 0
    else
      var l := labels[|labels| - 1];
      Disturbances(labels[..|labels| - 1], k)
          + (if l in {Evict(k), CorruptEntry(k)} || (l.StartInvalidate? && l.key == k) then 1 else 0)
  }

  /** A run from the start with so many disturbances of the key ends here. */
  ghost predicate RunsTo(leeway: real, labels: seq<Label>, s: State, k: Key, disturbances: nat) {
    ValidRun(leeway, INITIAL, labels) && Run(leeway, INITIAL, labels) == s && Disturbances(labels, k) == disturbances
  }

  lemma Next(leeway: real, labels: seq<Label>, s: State, k: Key, n: nat, l: Label)
      returns (labels': seq<Label>, s': State)
    requires RunsTo(leeway, labels, s, k, n) && Enabled(s, l) && !l.Evict? && !l.CorruptEntry? && !l.StartInvalidate?
    ensures RunsTo(leeway, labels', s', k, n) && s' == Apply(leeway, s, l)
  {
    hide Enabled, Apply;
    labels', s' := labels + [l], Apply(leeway, s, l);
    RunMore(leeway, INITIAL, labels, l);
    assert labels'[..|labels'| - 1] == labels;
  }

  lemma Forward(leeway: real, labels: seq<Label>, s: State, k: Key, n: nat, t: Tid)
      returns (labels': seq<Label>, s': State)
    requires RunsTo(leeway, labels, s, k, n) && CanAdvance(s, s.PhaseOf(t))
    ensures RunsTo(leeway, labels', s', k, n) && s' == AdvanceThread(leeway, s, t)
  {
    hide RunsTo, CanAdvance, AdvanceThread;
    labels', s' := Next(leeway, labels, s, k, n, Advance(t));
  }

  const CORRUPT_SLOT := Slot(Corrupt, [], 0)

  /** Thread `t` reads the unreadable entry. */
  lemma ReadsCorrupt(leeway: real, labels: seq<Label>, s: State, k: Key, n: nat, t: Tid)
      returns (labels': seq<Label>, s': State)
    requires RunsTo(leeway, labels, s, k, n) && s.PhaseOf(t) == Idle && s.SlotOf(k) == CORRUPT_SLOT
    ensures RunsTo(leeway, labels', s', k, n) && s'.PhaseOf(t) == HealUnlocked(k) && s'.SlotOf(k) == CORRUPT_SLOT
    ensures forall u: Tid :: u != t ==> s'.PhaseOf(u) == s.PhaseOf(u)
    ensures s'.guard == s.guard && s'.owner == s.owner && s'.used == s.used && s'.rejected == s.rejected
  {
    hide RunsTo;
    labels', s' := Next(leeway, labels, s, k, n, StartGet(t, k));
    labels', s' := Forward(leeway, labels', s', k, n, t);
    labels', s' := Forward(leeway, labels', s', k, n, t);
  }

  /** A thread that heals first goes on to take the key's lock. */
  lemma HealsAndLocks(leeway: real, labels: seq<Label>, s: State, k: Key, n: nat, t: Tid)
      returns (labels': seq<Label>, s': State, lock: LockId)
    requires RunsTo(leeway, labels, s, k, n) && s.PhaseOf(t) == HealUnlocked(k) && s.SlotOf(k) == CORRUPT_SLOT
    requires s.guard.None? && s.owner == map[]
    ensures RunsTo(leeway, labels', s', k, n)
    ensures s'.PhaseOf(t) == LeaveGuard(k, Get, lock) && s'.SlotOf(k) == Slot(Absent, [], 1)
    ensures forall u: Tid :: u != t ==> s'.PhaseOf(u) == s.PhaseOf(u)
    ensures s'.owner == map[] && s'.used == s.used && s'.rejected == s.rejected
  {
    hide RunsTo;
    labels', s' := Forward(leeway, labels, s, k, n, t);
    labels', s' := Forward(leeway, labels', s', k, n, t);
    labels', s' := Forward(leeway, labels', s', k, n, t);
    lock := s'.PhaseOf(t).lock;
  }

  /** It finds nothing and asks for a token. */
  lemma FindsNothing(leeway: real, labels: seq<Label>, s: State, k: Key, n: nat, t: Tid, lock: LockId)
      returns (labels': seq<Label>, s': State)
    requires RunsTo(leeway, labels, s, k, n) && s.PhaseOf(t) == LeaveGuard(k, Get, lock)
        && s.SlotOf(k) == Slot(Absent, [], 1)
    requires s.owner == map[]
    ensures RunsTo(leeway, labels', s', k, n) && s'.SlotOf(k) == s.SlotOf(k)
    ensures s'.PhaseOf(t).Locked? && s'.PhaseOf(t).key == k && s'.PhaseOf(t).step.Generating?
    ensures forall u: Tid :: u != t ==> s'.PhaseOf(u) == s.PhaseOf(u)
    ensures s'.used == s.used && s'.rejected == s.rejected
  {
    hide RunsTo;
    labels', s' := Forward(leeway, labels, s, k, n, t);
    labels', s' := Forward(leeway, labels', s', k, n, t);
    labels', s' := Forward(leeway, labels', s', k, n, t);
    labels', s' := Forward(leeway, labels', s', k, n, t);
  }

  /** The token is stored, and the other thread, which read the unreadable entry long before, deletes it. */
  lemma FreshTokenIsDeleted(leeway: real, labels: seq<Label>, s: State, k: Key, n: nat, t: Tid, u: Tid,
      token: TokenState)
      returns (labels': seq<Label>, s': State)
    requires RunsTo(leeway, labels, s, k, n) && t != u && s.SlotOf(k) == Slot(Absent, [], 1)
    requires s.PhaseOf(t).Locked? && s.PhaseOf(t).key == k && s.PhaseOf(t).step.Generating?
    requires s.PhaseOf(u) == HealUnlocked(k) && token.access !in s.used && token.access !in s.rejected
    ensures RunsTo(leeway, labels', s', k, n) && s'.SlotOf(k).deletions == 2
  {
    hide RunsTo;
    labels', s' := Next(leeway, labels, s, k, n, ReplyToken(t, token));
    labels', s' := Forward(leeway, labels', s', k, n, t);
    labels', s' := Forward(leeway, labels', s', k, n, u);
  }

  /** One corruption that two threads read can cost two entries, the second of them a token stored in between:
      removals are not bounded by invalidations, evictions and corruptions alone. */
  lemma OneCorruptionTwoDeletions(leeway: real, k: Key)
    ensures exists labels ::
      ValidRun(leeway, INITIAL, labels) && Run(leeway, INITIAL, labels).SlotOf(k).deletions > Disturbances(labels, k)
  {
    hide ValidRun, Run, RunsTo, Disturbances, Apply, INITIAL;
    var labels, s := CorruptedAtStart(leeway, k);
    labels, s := ReadsCorrupt(leeway, labels, s, k, 1, 0);
    labels, s := ReadsCorrupt(leeway, labels, s, k, 1, 1);
    var lock: LockId;
    labels, s, lock := HealsAndLocks(leeway, labels, s, k, 1, 0);
    labels, s := FindsNothing(leeway, labels, s, k, 1, 0, lock);
    labels, s := FreshTokenIsDeleted(leeway, labels, s, k, 1, 0, 1,
        TokenState("access", None, None, None, "Bearer", []));
    EndOfRun(leeway, labels, s, k, 1);
  }

  lemma CorruptedAtStart(leeway: real, k: Key) returns (labels: seq<Label>, s: State)
    ensures RunsTo(leeway, labels, s, k, 1) && s.SlotOf(k) == CORRUPT_SLOT
    ensures forall t: Tid :: s.PhaseOf(t) == Idle
    ensures s.guard.None? && s.owner == map[] && s.used == {} && s.rejected == {}
  {
    labels, s := [CorruptEntry(k)], Apply(leeway, INITIAL, CorruptEntry(k));
    RunMore(leeway, INITIAL, [], CorruptEntry(k));
    assert [] + labels == labels;
    assert labels[..0] == [];
    assert Disturbances(labels, k) == Disturbances([], k) + 1;
  }

  lemma EndOfRun(leeway: real, labels: seq<Label>, s: State, k: Key, n: nat)
    requires RunsTo(leeway, labels, s, k, n)
    ensures ValidRun(leeway, INITIAL, labels) && Run(leeway, INITIAL, labels) == s && Disturbances(labels, k) == n
  {
  }
}
