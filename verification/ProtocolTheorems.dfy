/** Properties of every run of the token protocol, with any number of threads, keys and interleavings. */
module ProtocolTheorems {
  import opened PyValues
  import opened Tokens
  import opened TokenProtocol
  import opened ProtocolInvariant

  ghost predicate Reachable(leeway: real, s: State) {
    exists labels :: ValidRun(leeway, INITIAL, labels) && s == Run(leeway, INITIAL, labels)
  }

  lemma ReachableInv(leeway: real, s: State)
    requires Reachable(leeway, s)
    ensures Inv(leeway, s)
  {
    var labels :| ValidRun(leeway, INITIAL, labels) && s == Run(leeway, INITIAL, labels);
    InvAtStart(leeway);
    InvAlways(leeway, INITIAL, labels);
  }

  // ----- How many tokens are issued -----

  /** Rejected, or with an expiry no more than the leeway after now. */
  predicate IsSpent(leeway: real, t: TokenState, rejected: set<string>, clock: real) {
    t.access in rejected || (t.expiresAt.Some? && t.expiresAt.value <= clock + leeway)
  }

  /** The distinct access tokens among the first `n` stored ones that are spent. */
  function SpentTokens(leeway: real, log: seq<Issue>, n: nat, rejected: set<string>, clock: real): set<string>
    requires n <= |log|
  {
    set i | 0 <= i < n && IsSpent(leeway, log[i].token, rejected, clock) :: log[i].token.access
  }

  lemma SpentStep(leeway: real, log: seq<Issue>, n: nat, rejected: set<string>, clock: real)
    requires n < |log| && forall i, j :: 0 <= i < j < |log| ==> log[i].token.access != log[j].token.access
    ensures |SpentTokens(leeway, log, n + 1, rejected, clock)| ==
      |SpentTokens(leeway, log, n, rejected, clock)| + (if IsSpent(leeway, log[n].token, rejected, clock) then 1 else 0)
  {
    hide IsSpent;
    var before, after := SpentTokens(leeway, log, n, rejected, clock), SpentTokens(leeway, log, n + 1, rejected, clock);
    if IsSpent(leeway, log[n].token, rejected, clock) {
      assert log[n].token.access !in before;
      assert after == before + {log[n].token.access};
    } else {
      assert after == before;
    }
  }

  /** The first `n` stored tokens are paid for by deletions and spent tokens before the last of them. */
  lemma {:induction false} IssuesArePaidFor(leeway: real, slot: Slot, used: set<string>, rejected: set<string>,
      clock: real, n: nat)
    requires SlotInv(leeway, slot, used, rejected, clock) && 0 < n <= |slot.log|
    ensures n <= 1 + slot.log[n - 1].deletions + |SpentTokens(leeway, slot.log, n - 1, rejected, clock)|
  {
    if n > 1 {
      IssuesArePaidFor(leeway, slot, used, rejected, clock, n - 1);
      SpentStep(leeway, slot.log, n - 2, rejected, clock);
      assert Cause(leeway, slot.log[n - 2], slot.log[n - 1].deletions, rejected, slot.log[n - 1].at);
    }
  }

  /** The bound holds wherever the invariant does. */
  lemma IssuesArePaidForAll(leeway: real, s: State, k: Key)
    requires Inv(leeway, s)
    ensures var slot := s.SlotOf(k);
      |slot.log| <= 1 + slot.deletions + |SpentTokens(leeway, slot.log, |slot.log|, s.rejected, s.clock)|
  {
    var slot := s.SlotOf(k);
    assert SlotInv(leeway, slot, s.used, s.rejected, s.clock);
    if slot.log != [] {
      IssuesArePaidFor(leeway, slot, s.used, s.rejected, s.clock, |slot.log|);
      SpentStep(leeway, slot.log, |slot.log| - 1, s.rejected, s.clock);
    }
  }

  /** In every interleaving, the tokens ever stored under a key number at most one, plus the deletions of that key,
      plus its distinct access tokens that were rejected or had come within the expiry leeway. */
  lemma IssuanceBound(leeway: real, s: State, k: Key)
    requires Reachable(leeway, s)
    ensures var slot := s.SlotOf(k);
      |slot.log| <= 1 + slot.deletions + |SpentTokens(leeway, slot.log, |slot.log|, s.rejected, s.clock)|
  {
    ReachableInv(leeway, s);
    IssuesArePaidForAll(leeway, s, k);
  }

  /** However many threads ask: without deletions, and as long as the stored tokens are neither rejected nor about to
      expire, one token is issued; if one of them was rejected, by however many threads, at most one more is. */
  lemma NoStampede(leeway: real, s: State, k: Key, bad: string)
    requires Reachable(leeway, s) && s.SlotOf(k).deletions == 0
    ensures
      var slot := s.SlotOf(k);
      var spent := SpentTokens(leeway, slot.log, |slot.log|, s.rejected, s.clock);
      && (spent == {} ==> |slot.log| <= 1)
      && (spent <= {bad} ==> |slot.log| <= 2)
  {
    IssuanceBound(leeway, s, k);
    var slot := s.SlotOf(k);
    var spent := SpentTokens(leeway, slot.log, |slot.log|, s.rejected, s.clock);
    if spent <= {bad} {
      assert spent == {} || spent == {bad};
    }
  }

  // ----- How fast tokens are issued -----

  /** Every stored token was good for at least `lifetime` from the moment its response was parsed. */
  predicate LastsFor(log: seq<Issue>, lifetime: real) {
    forall i :: 0 <= i < |log| ==> log[i].token.expiresAt.Some? && log[i].token.expiresAt.value >= log[i].at + lifetime
  }

  predicate NoneRejected(log: seq<Issue>, rejected: set<string>) {
    forall i :: 0 <= i < |log| ==> log[i].token.access !in rejected
  }

  /** Without deletions and rejections, `j - i` issuances in a row take at least as many usable lifetimes. */
  lemma {:induction false} IssuanceRate(leeway: real, s: State, k: Key, lifetime: real, i: nat, j: nat)
    requires Inv(leeway, s) && i <= j < |s.SlotOf(k).log|
    requires s.SlotOf(k).deletions == 0 && NoneRejected(s.SlotOf(k).log, s.rejected)
        && LastsFor(s.SlotOf(k).log, lifetime)
    ensures (j - i) as real * (lifetime - leeway) <= s.SlotOf(k).log[j].at - s.SlotOf(k).log[i].at
    decreases j
  {
    var log := s.SlotOf(k).log;
    assert SlotInv(leeway, s.SlotOf(k), s.used, s.rejected, s.clock);
    if i < j {
      IssuanceRate(leeway, s, k, lifetime, i, j - 1);
      assert Cause(leeway, log[j - 1], log[j].deletions, s.rejected, log[j].at);
      assert log[j].at - log[j - 1].at >= lifetime - leeway;
      OneMore(j - i, lifetime - leeway);
    }
  }

  lemma OneMore(n: int, x: real)
    ensures n as real * x == (n - 1) as real * x + x
  {
    assert n as real == (n - 1) as real + 1.0;
  }

  /** Over a whole run: `n` issuances of one key need `n - 1` times the lifetime less the leeway. */
  lemma IssuanceRateOfRun(leeway: real, s: State, k: Key, lifetime: real)
    requires Reachable(leeway, s) && s.SlotOf(k).log != []
    requires s.SlotOf(k).deletions == 0 && NoneRejected(s.SlotOf(k).log, s.rejected)
        && LastsFor(s.SlotOf(k).log, lifetime)
    ensures var log := s.SlotOf(k).log;
      (|log| - 1) as real * (lifetime - leeway) <= s.clock - log[0].at
  {
    ReachableInv(leeway, s);
    var log := s.SlotOf(k).log;
    assert SlotInv(leeway, s.SlotOf(k), s.used, s.rejected, s.clock);
    IssuanceRate(leeway, s, k, lifetime, 0, |log| - 1);
  }

  // ----- What callers are handed -----

  /** Every token handed to a caller was stored under the caller's key, and a recovery is never handed the token it
      reported as rejected. */
  lemma HandedTokensAreSound(leeway: real, s: State, i: nat)
    requires Reachable(leeway, s) && i < |s.handed|
    ensures InLog(s.SlotOf(s.handed[i].key), s.handed[i].token)
    ensures s.handed[i].call.Recover? ==> s.handed[i].token.access != s.handed[i].call.rejected
  {
    ReachableInv(leeway, s);
    assert MayHandOut(s.SlotOf(s.handed[i].key), s.handed[i].call, s.handed[i].token);
  }

  // ----- Lock safety -----

  /** Once a key is bound to a lock it stays bound to that lock, from any state on. */
  lemma {:induction false} BindingsNeverChange(leeway: real, s: State, labels: seq<Label>, k: Key)
    requires ValidRun(leeway, s, labels) && k in s.locks
    ensures var s' := Run(leeway, s, labels); k in s'.locks && s'.locks[k] == s.locks[k]
    decreases |labels|
  {
    hide Decide, InsideStep;
    if labels != [] {
      BindingsNeverChange(leeway, Apply(leeway, s, labels[0]), labels[1..], k);
    }
  }

  /** At most one thread is inside the lock of a key; whoever holds the guard holds and awaits no key lock; a thread
      owns a lock only while inside it, so at most one, and an error does not leave it behind. */
  lemma LockSafety(leeway: real, s: State, t: Tid, u: Tid)
    requires Reachable(leeway, s)
    ensures s.PhaseOf(t).Locked? && s.PhaseOf(u).Locked? && s.PhaseOf(t).key == s.PhaseOf(u).key ==> t == u
    ensures s.guard == Some(t) <==> s.PhaseOf(t).InGuard? || s.PhaseOf(t).LeaveGuard?
    ensures forall l :: l in s.owner && s.owner[l] == t <==> s.PhaseOf(t).Locked? && s.PhaseOf(t).lock == l
  {
    ReachableInv(leeway, s);
    assert ThreadInv(leeway, s, t) && ThreadInv(leeway, s, u);
    hide StepInv, SlotInv;
  }

  // ----- Progress -----

  /** Some step of thread `u` itself, or of the provider for it, can happen. */
  ghost predicate CanStep(s: State, u: Tid) {
    Enabled(s, Advance(u)) || Enabled(s, ReplyError(u))
  }

  /** Thread `t` waits for something thread `u` holds. */
  predicate WaitsFor(s: State, t: Tid, u: Tid) {
    match s.PhaseOf(t)
    case WantGuard(_, _) => s.guard == Some(u)
    case WantLock(_, _, lock) => lock in s.owner && s.owner[lock] == u
    case _ => false
  }

  /** No deadlock: a thread in a call can step, or waits for a thread that can. */
  lemma Progress(leeway: real, s: State, t: Tid) returns (u: Tid)
    requires Reachable(leeway, s) && s.PhaseOf(t) != Idle
    ensures CanStep(s, u) && (u == t || WaitsFor(s, t, u))
  {
    ReachableInv(leeway, s);
    hide StepInv, SlotInv;
    u := t;
    match s.PhaseOf(t) {
      case WantGuard(_, _) =>
        if s.guard.Some? {
          u := s.guard.value;
        }
      case WantLock(_, _, lock) =>
        if lock in s.owner {
          u := s.owner[lock];
        }
      case _ =>
    }
  }

  /** Own steps still ahead of a thread, at most. */
  function StepsLeft(p: Phase): nat {
    match p
    case Idle => 0
    case ReadClock(_) => 14
    case ReadStore(_, _) => 13
    case HealUnlocked(_) => 12
    case Deleting(_) => 1
    case WantGuard(_, _) => 11
    case InGuard(_, _) => 10
    case LeaveGuard(_, _, _) => 9
    case WantLock(_, _, _) => 8
    case Locked(_, _, _, step) =>
      match step
      case GetClock => 7
      case GetStore(_) => 6
      case GetHeal(_) => 5
      case RecStore => 7
      case RecHeal => 6
      case RecClock(_) => 5
      case Refreshing(_) => 4
      case Generating(_) => 3
      case Writing(_, _) => 2
      case Leaving(_) => 1
  }

  predicate IsStart(l: Label) { l.StartGet? || l.StartRecover? || l.StartInvalidate? }

  /** How often thread `t` moved, counting the provider's replies to it; and how many calls it started. */
  function Moves(labels: seq<Label>, t: Tid): nat
    decreases |labels|
  {
    if labels == [] then 0
    else (if Mover(labels[0]) == Some(t) && !IsStart(labels[0]) then 1 else 0) + Moves(labels[1..], t)
  }

  function Starts(labels: seq<Label>, t: Tid): nat
    decreases |labels|
  {
    if labels == [] then 0
    else (if Mover(labels[0]) == Some(t) && IsStart(labels[0]) then 1 else 0) + Starts(labels[1..], t)
  }

  /** A call takes at most fourteen steps of its thread, however the threads interleave: with no deadlock, every
      call ends once its thread and the threads it waits for are scheduled. */
  lemma {:induction false} CallsAreBounded(leeway: real, s: State, labels: seq<Label>, t: Tid)
    requires ValidRun(leeway, s, labels)
    ensures Moves(labels, t) + StepsLeft(Run(leeway, s, labels).PhaseOf(t)) <= StepsLeft(s.PhaseOf(t))
        + 14 * Starts(labels, t)
    decreases |labels|
  {
    if labels != [] {
      StepCounts(leeway, s, labels[0], t);
      hide Apply, StepsLeft;
      CallsAreBounded(leeway, Apply(leeway, s, labels[0]), labels[1..], t);
    }
  }

  lemma StepCounts(leeway: real, s: State, l: Label, t: Tid)
    requires Enabled(s, l)
    ensures
      var before, after := StepsLeft(s.PhaseOf(t)), StepsLeft(Apply(leeway, s, l).PhaseOf(t));
      if Mover(l) != Some(t) then after == before
      else if IsStart(l) then after <= before + 14
      else after < before
  {
    hide Decide, Slot.Removed;
    if Mover(l) != Some(t) {
      OthersStay(leeway, s, l, t);
      hide Apply, StepsLeft;
    } else if l.Advance? && s.PhaseOf(t).Locked? && !s.PhaseOf(t).step.Leaving? {
      InsideStepCounts(leeway, s.SlotOf(s.PhaseOf(t).key), s.clock, s.PhaseOf(t));
      hide InsideStep, StepsLeft;
    }
  }

  lemma InsideStepCounts(leeway: real, slot: Slot, clock: real, p: Phase)
    requires p.Locked? && !AwaitsReply(p) && !p.step.Leaving?
    ensures StepsLeft(p.(step := InsideStep(leeway, slot, clock, p.call, p.step).1)) < StepsLeft(p)
  {
  }
}
