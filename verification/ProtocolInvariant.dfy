/** What every step of the token protocol keeps. */
module ProtocolInvariant {
  import opened PyValues
  import opened Tokens
  import opened TokenProtocol

  // ----- The invariant -----

  /** The key's last stored token has been removed, rejected, or was inside the expiry leeway at time `at`. */
  ghost predicate Spent(leeway: real, slot: Slot, rejected: set<string>, at: real) {
    slot.log == [] || Cause(leeway, slot.Last(), slot.deletions, rejected, at)
  }

  /** Why a token may be replaced at time `at`, `deletions` entries having been removed by then. */
  ghost predicate Cause(leeway: real, previous: Issue, deletions: nat, rejected: set<string>, at: real) {
    || deletions > previous.deletions
    || previous.token.access in rejected
    || !previous.token.IsAccessValid(at, leeway)
  }

  ghost predicate InLog(slot: Slot, token: TokenState) {
    exists i :: 0 <= i < |slot.log| && slot.log[i].token == token
  }

  ghost predicate SlotInv(leeway: real, slot: Slot, used: set<string>, rejected: set<string>, clock: real) {
    && (forall i :: 0 <= i < |slot.log| ==>
          slot.log[i].token.access in used && slot.log[i].deletions <= slot.deletions && slot.log[i].at <= clock)
    && (forall i, j :: 0 <= i < j < |slot.log| ==> slot.log[i].token.access != slot.log[j].token.access)
    && (forall i, j :: 0 <= i < j < |slot.log| ==> slot.log[i].deletions <= slot.log[j].deletions)
    && (forall i :: 0 < i < |slot.log| ==>
        Cause(leeway, slot.log[i - 1], slot.log[i].deletions, rejected, slot.log[i].at))
    && (slot.entry.Stored? ==> slot.log != [] && slot.entry.token == slot.Last().token)
    && (slot.entry == Absent ==> slot.log == [] || slot.deletions > slot.Last().deletions)
  }

  /** The token a call may hand out: one that was stored, and not the one it was told is rejected. */
  ghost predicate MayHandOut(slot: Slot, call: Call, token: TokenState) {
    InLog(slot, token) && (call.Recover? ==> token.access != call.rejected)
  }

  /** What a thread inside the lock relies on, step by step. */
  ghost predicate StepInv(leeway: real, slot: Slot, used: set<string>, rejected: set<string>, clock: real, call: Call,
      step: Step) {
    && (call.Recover? ==> call.rejected in rejected)
    && match step
       case GetClock => call == Get
       case GetStore(now) => call == Get && now <= clock
       case GetHeal(now) => call == Get && now <= clock
       case RecStore => call.Recover?
       case RecHeal => call.Recover?
       case RecClock(cached) =>
         && call.Recover?
         && (if cached.Some? then slot.log != [] && cached.value == slot.Last().token
             else slot.log == [] || slot.deletions > slot.Last().deletions)
       case Refreshing(now) => now <= clock && Spent(leeway, slot, rejected, now)
       case Generating(now) => now <= clock && Spent(leeway, slot, rejected, now)
       case Writing(token, at) =>
         && at <= clock && Spent(leeway, slot, rejected, at)
         && token.access in used
         && (forall i :: 0 <= i < |slot.log| ==> slot.log[i].token.access != token.access)
         && (call.Recover? ==> token.access != call.rejected)
       case Leaving(result) => result.Returned? ==> MayHandOut(slot, call, result.token)
  }

  /** A thread that holds the guard, knows a lock or owns one agrees with the shared tables. */
  ghost predicate TablesAgree(s: State, t: Tid, p: Phase) {
    match p
    case InGuard(_, _) => s.guard == Some(t)
    case LeaveGuard(k, _, lock) => s.guard == Some(t) && k in s.locks && s.locks[k] == lock
    case WantLock(k, _, lock) => k in s.locks && s.locks[k] == lock
    case Locked(k, _, lock, _) => k in s.locks && s.locks[k] == lock && lock in s.owner && s.owner[lock] == t
    case _ => true
  }

  /** What a recovery relies on before it has the lock. */
  ghost predicate CallKnown(p: Phase, rejected: set<string>) {
    match p
    case WantGuard(_, call) => call.Recover? ==> call.rejected in rejected
    case InGuard(_, call) => call.Recover? ==> call.rejected in rejected
    case LeaveGuard(_, call, _) => call.Recover? ==> call.rejected in rejected
    case WantLock(_, call, _) => call.Recover? ==> call.rejected in rejected
    case _ => true
  }

  ghost predicate ThreadInv(leeway: real, s: State, t: Tid) {
    var p := s.PhaseOf(t);
    && TablesAgree(s, t, p)
    && CallKnown(p, s.rejected)
    && (p.Locked? ==> StepInv(leeway, s.SlotOf(p.key), s.used, s.rejected, s.clock, p.call, p.step))
  }

  ghost predicate LockTablesInv(s: State) {
    && (s.guard.Some? ==> s.PhaseOf(s.guard.value).InGuard? || s.PhaseOf(s.guard.value).LeaveGuard?)
    && (forall l :: l in s.owner ==> s.PhaseOf(s.owner[l]).Locked? && s.PhaseOf(s.owner[l]).lock == l)
    && (forall k :: k in s.locks ==> s.locks[k] < s.nextLock)
    && (forall k, k' :: k in s.locks && k' in s.locks && k != k' ==> s.locks[k] != s.locks[k'])
  }

  ghost predicate Inv(leeway: real, s: State) {
    && LockTablesInv(s)
    && (forall k :: SlotInv(leeway, s.SlotOf(k), s.used, s.rejected, s.clock))
    && (forall t: Tid :: ThreadInv(leeway, s, t))
    && (forall i :: 0 <= i < |s.handed| ==> MayHandOut(s.SlotOf(s.handed[i].key), s.handed[i].call, s.handed[i].token))
  }

  // ----- What may change under a thread that holds a lock -----

  /** From the view of one key: time and the sets only grow, entries may be removed, but nothing new is stored. */
  ghost predicate Undisturbed(before: Slot, after: Slot) {
    after.log == before.log && after.deletions >= before.deletions
  }

  lemma StepInvStable(leeway: real, slot: Slot, slot': Slot, used: set<string>, used': set<string>,
      rejected: set<string>, rejected': set<string>, clock: real, clock': real, call: Call, step: Step)
    requires StepInv(leeway, slot, used, rejected, clock, call, step)
    requires Undisturbed(slot, slot') && used <= used' && rejected <= rejected' && clock <= clock'
    ensures StepInv(leeway, slot', used', rejected', clock', call, step)
  {
    if slot.log != [] {
      assert slot'.Last() == slot.Last();
    }
    forall token | InLog(slot, token) ensures InLog(slot', token) {
    }
  }

  /** Mutual exclusion: two threads inside the lock of one key are one thread. */
  lemma MutualExclusion(leeway: real, s: State, t: Tid, u: Tid)
    requires ThreadInv(leeway, s, t) && ThreadInv(leeway, s, u)
    requires s.PhaseOf(t).Locked? && s.PhaseOf(u).Locked? && s.PhaseOf(t).key == s.PhaseOf(u).key
    ensures t == u
  {
  }

  // ----- Slots -----

  lemma SlotInvGrows(leeway: real, slot: Slot, used: set<string>, used': set<string>, rejected: set<string>,
      rejected': set<string>, clock: real, clock': real)
    requires SlotInv(leeway, slot, used, rejected, clock) && used <= used' && rejected <= rejected' && clock <= clock'
    ensures SlotInv(leeway, slot, used', rejected', clock')
  {
  }

  lemma RemovalKeepsSlot(leeway: real, slot: Slot, used: set<string>, rejected: set<string>, clock: real)
    requires SlotInv(leeway, slot, used, rejected, clock)
    ensures SlotInv(leeway, slot.Removed(), used, rejected, clock) && Undisturbed(slot, slot.Removed())
    ensures slot.log == [] || slot.Removed().deletions > slot.Last().deletions
  {
  }

  lemma CorruptionKeepsSlot(leeway: real, slot: Slot, used: set<string>, rejected: set<string>, clock: real)
    requires SlotInv(leeway, slot, used, rejected, clock)
    ensures SlotInv(leeway, slot.(entry := Corrupt), used, rejected, clock)
        && Undisturbed(slot, slot.(entry := Corrupt))
  {
  }

  lemma LogKept(slot: Slot, token: TokenState, at: real)
    ensures InLog(Effect(slot, Writing(token, at)), token)
    ensures forall other :: InLog(slot, other) ==> InLog(Effect(slot, Writing(token, at)), other)
  {
    var slot' := Effect(slot, Writing(token, at));
    assert slot'.log[|slot.log|].token == token;
    forall other | InLog(slot, other) ensures InLog(slot', other) {
      var i :| 0 <= i < |slot.log| && slot.log[i].token == other;
      assert slot'.log[i].token == other;
    }
  }

  lemma WritingKeepsSlot(leeway: real, slot: Slot, used: set<string>, rejected: set<string>, clock: real, call: Call,
      token: TokenState, at: real)
    requires SlotInv(leeway, slot, used, rejected, clock)
    requires StepInv(leeway, slot, used, rejected, clock, call, Writing(token, at))
    ensures
      var slot' := Effect(slot, Writing(token, at));
      && SlotInv(leeway, slot', used, rejected, clock)
      && MayHandOut(slot', call, token)
      && forall other :: InLog(slot, other) ==> InLog(slot', other)
  {
    LogKept(slot, token, at);
    hide InLog;
  }

  /** The decision under the lock hands out only a good token and asks the provider only with a cause. */
  lemma DecisionIsSound(leeway: real, slot: Slot, used: set<string>, rejected: set<string>, clock: real, call: Call,
      cached: Option<TokenState>, now: real)
    requires now <= clock && (call.Recover? ==> call.rejected in rejected)
    requires if cached.Some? then slot.log != [] && cached.value == slot.Last().token
             else slot.log == [] || slot.deletions > slot.Last().deletions
    ensures StepInv(leeway, slot, used, rejected, clock, call, Decide(leeway, call, cached, now))
  {
    if cached.Some? {
      assert slot.log[|slot.log| - 1].token == cached.value;
      assert InLog(slot, cached.value);
    }
  }

  /** What one step inside the lock keeps and establishes. */
  ghost predicate StepSound(leeway: real, slot: Slot, slot': Slot, used: set<string>, rejected: set<string>,
      clock: real, call: Call, step: Step, step': Step) {
    && SlotInv(leeway, slot', used, rejected, clock)
    && StepInv(leeway, slot', used, rejected, clock, call, step')
    && (forall token :: InLog(slot, token) ==> InLog(slot', token))
    && (step.Writing? || Undisturbed(slot, slot'))
  }

  /** A step that stores nothing, given what the next step relies on. */
  lemma QuietStep(leeway: real, slot: Slot, slot': Slot, used: set<string>, rejected: set<string>, clock: real,
      call: Call, step: Step, step': Step)
    requires SlotInv(leeway, slot', used, rejected, clock) && StepInv(leeway, slot', used, rejected, clock, call, step')
    requires Undisturbed(slot, slot')
    ensures StepSound(leeway, slot, slot', used, rejected, clock, call, step, step')
  {
    hide SlotInv, StepInv;
  }

  lemma ReadingStep(leeway: real, slot: Slot, used: set<string>, rejected: set<string>, clock: real, call: Call,
      step: Step)
    requires SlotInv(leeway, slot, used, rejected, clock) && StepInv(leeway, slot, used, rejected, clock, call, step)
    requires step.GetClock? || step.GetStore? || step.RecStore? || step.RecClock?
    ensures var (slot', step') := InsideStep(leeway, slot, clock, call, step);
      slot' == slot && StepInv(leeway, slot, used, rejected, clock, call, step')
  {
    hide Decide, Cause;
    if step.GetStore? && slot.entry != Corrupt {
      DecisionIsSound(leeway, slot, used, rejected, clock, call, CachedIn(slot.entry), step.now);
    } else if step.RecClock? {
      DecisionIsSound(leeway, slot, used, rejected, clock, call, step.cached, clock);
    }
  }

  lemma HealingStep(leeway: real, slot: Slot, used: set<string>, rejected: set<string>, clock: real, call: Call,
      step: Step)
    requires SlotInv(leeway, slot, used, rejected, clock) && StepInv(leeway, slot, used, rejected, clock, call, step)
    requires step.GetHeal? || step.RecHeal?
    ensures var (slot', step') := InsideStep(leeway, slot, clock, call, step);
      slot' == slot.Removed() && StepInv(leeway, slot', used, rejected, clock, call, step')
  {
    RemovalKeepsSlot(leeway, slot, used, rejected, clock);
    hide Decide, Cause, SlotInv;
    if step.GetHeal? {
      DecisionIsSound(leeway, slot.Removed(), used, rejected, clock, call, None, step.now);
    }
  }

  /** A step inside the lock keeps its key's slot and establishes what the next step relies on. */
  lemma InsideStepIsSound(leeway: real, slot: Slot, used: set<string>, rejected: set<string>, clock: real, call: Call,
      step: Step)
    requires SlotInv(leeway, slot, used, rejected, clock) && StepInv(leeway, slot, used, rejected, clock, call, step)
    requires !step.Refreshing? && !step.Generating? && !step.Leaving?
    ensures var (slot', step') := InsideStep(leeway, slot, clock, call, step);
      StepSound(leeway, slot, slot', used, rejected, clock, call, step, step')
  {
    var (slot', step') := InsideStep(leeway, slot, clock, call, step);
    if step.Writing? {
      WritingKeepsSlot(leeway, slot, used, rejected, clock, call, step.token, step.at);
      RejectedKnown(leeway, slot, used, rejected, clock, call, step);
      hide SlotInv, Cause, InLog;
    } else if step.GetHeal? || step.RecHeal? {
      hide SlotInv, StepInv, InsideStep;
      RemovalKeepsSlot(leeway, slot, used, rejected, clock);
      HealingStep(leeway, slot, used, rejected, clock, call, step);
      QuietStep(leeway, slot, slot', used, rejected, clock, call, step, step');
    } else {
      hide SlotInv, StepInv, InsideStep;
      ReadingStep(leeway, slot, used, rejected, clock, call, step);
      QuietStep(leeway, slot, slot', used, rejected, clock, call, step, step');
    }
  }

  lemma RejectedKnown(leeway: real, slot: Slot, used: set<string>, rejected: set<string>, clock: real, call: Call,
      step: Step)
    requires StepInv(leeway, slot, used, rejected, clock, call, step)
    ensures call.Recover? ==> call.rejected in rejected
  {
  }

  // ----- Every step keeps the invariant -----

  function Mover(l: Label): Option<Tid> {
    match l
    case Tick(_) => None
    case CorruptEntry(_) => None
    case Evict(_) => None
    case StartGet(t, _) => Some(t)
    case StartRecover(t, _, _) => Some(t)
    case StartInvalidate(t, _) => Some(t)
    case Advance(t) => Some(t)
    case StoreRaises(t, _) => Some(t)
    case ReplyToken(t, _) => Some(t)
    case ReplyRejected(t) => Some(t)
    case ReplyError(t) => Some(t)
  }

  /** The guard, the lock dictionary and the owners fit the phases of all threads. */
  ghost predicate Tables(s: State) {
    LockTablesInv(s) && forall t: Tid :: TablesAgree(s, t, s.PhaseOf(t))
  }

  lemma LockedStepFrame(leeway: real, s: State, t: Tid)
    requires s.PhaseOf(t).Locked? && !AwaitsReply(s.PhaseOf(t))
    ensures
      var p := s.PhaseOf(t);
      var s' := LockedStep(leeway, s, t, p);
      && s'.used == s.used && s'.rejected == s.rejected && s'.clock == s.clock && s'.started == s.started
      && (forall u: Tid :: u != t ==> s'.PhaseOf(u) == s.PhaseOf(u))
      && (forall k: Key :: k != p.key ==> s'.SlotOf(k) == s.SlotOf(k))
      && s'.guard == s.guard && s'.locks == s.locks && s'.nextLock == s.nextLock
      && (if p.step.Leaving? then
            && s'.PhaseOf(t) == Idle && s'.owner == s.owner - {p.lock}
            && s'.SlotOf(p.key) == s.SlotOf(p.key)
            && s'.handed == s.handed + (if p.step.result.Returned?
                 then [Handed(p.key, p.call, p.step.result.token, s.StartedAt(t), p.step.result.asOf)] else [])
          else
            && s'.SlotOf(p.key) == InsideStep(leeway, s.SlotOf(p.key), s.clock, p.call, p.step).0
            && s'.PhaseOf(t) == p.(step := InsideStep(leeway, s.SlotOf(p.key), s.clock, p.call, p.step).1)
            && s'.owner == s.owner && s'.handed == s.handed)
  {
    hide InsideStep;
  }

  /** What an own step of a thread outside its key's lock changes. */
  ghost predicate OutsideFrame(leeway: real, s: State, s': State, t: Tid) {
    var p := s.PhaseOf(t);
    && s'.used == s.used && s'.rejected == s.rejected && s'.clock == s.clock && s'.started == s.started
    && (forall u: Tid :: u != t ==> s'.PhaseOf(u) == s.PhaseOf(u))
    && (forall k: Key ::
          s'.SlotOf(k) == if (p.HealUnlocked? || p.Deleting?) && p.key == k then s.SlotOf(k).Removed() else s.SlotOf(k))
    && (s'.handed == s.handed
        || (p.ReadStore? && s.SlotOf(p.key).entry.Stored? && s.SlotOf(p.key).entry.token.IsAccessValid(p.now, leeway)
            && s'.handed == s.handed + [Handed(p.key, Get, s.SlotOf(p.key).entry.token, s.StartedAt(t), p.now)]))
  }

  /** The thread has no business with guard or locks. */
  predicate Free(p: Phase) {
    !p.InGuard? && !p.LeaveGuard? && !p.WantLock? && !p.Locked?
  }

  ghost predicate SameTables(s: State, s': State) {
    s'.guard == s.guard && s'.locks == s.locks && s'.owner == s.owner && s'.nextLock == s.nextLock
  }

  /** What an own step of a thread without business with guard or locks changes. */
  ghost predicate FreeFrame(leeway: real, s: State, s': State, t: Tid) {
    && OutsideFrame(leeway, s, s', t) && SameTables(s, s') && Free(s'.PhaseOf(t))
    && (s'.PhaseOf(t).WantGuard? ==> s'.PhaseOf(t).call == Get)
  }

  lemma UnlockedLookFrame(leeway: real, s: State, t: Tid)
    requires s.PhaseOf(t).ReadClock? || s.PhaseOf(t).ReadStore?
    ensures FreeFrame(leeway, s, AdvanceThread(leeway, s, t), t)
  {
    hide Slot.Removed, LockedStep, TokenState.IsAccessValid;
  }

  lemma RemovalFrame(leeway: real, s: State, t: Tid)
    requires s.PhaseOf(t).HealUnlocked? || s.PhaseOf(t).Deleting?
    ensures FreeFrame(leeway, s, AdvanceThread(leeway, s, t), t)
  {
    hide Slot.Removed, LockedStep, TokenState.IsAccessValid;
  }

  lemma FreeStepFrame(leeway: real, s: State, t: Tid)
    requires CanAdvance(s, s.PhaseOf(t)) && Free(s.PhaseOf(t)) && !s.PhaseOf(t).WantGuard?
    ensures FreeFrame(leeway, s, AdvanceThread(leeway, s, t), t)
  {
    hide AdvanceThread, FreeFrame;
    if s.PhaseOf(t).ReadClock? || s.PhaseOf(t).ReadStore? {
      UnlockedLookFrame(leeway, s, t);
    } else {
      RemovalFrame(leeway, s, t);
    }
  }

  lemma GuardStepFrame(leeway: real, s: State, t: Tid)
    requires CanAdvance(s, s.PhaseOf(t)) && !s.PhaseOf(t).Locked?
    requires !Free(s.PhaseOf(t)) || s.PhaseOf(t).WantGuard?
    ensures
      var s' := AdvanceThread(leeway, s, t);
      var p, p' := s.PhaseOf(t), s'.PhaseOf(t);
      && OutsideFrame(leeway, s, s', t) && !Free(p') && p'.call == p.call
      && (p'.Locked? ==> p'.step == if p.call == Get then GetClock else RecStore)
  {
    hide LockedStep, TokenState.IsAccessValid;
  }

  lemma OutsideStepFrame(leeway: real, s: State, t: Tid)
    requires CanAdvance(s, s.PhaseOf(t)) && !s.PhaseOf(t).Locked?
    ensures OutsideFrame(leeway, s, AdvanceThread(leeway, s, t), t)
  {
    hide AdvanceThread, OutsideFrame;
    if Free(s.PhaseOf(t)) && !s.PhaseOf(t).WantGuard? {
      FreeStepFrame(leeway, s, t);
    } else {
      GuardStepFrame(leeway, s, t);
    }
  }

  lemma AdvanceIsLockedStep(leeway: real, s: State, t: Tid)
    requires s.PhaseOf(t).Locked? && !AwaitsReply(s.PhaseOf(t))
    ensures AdvanceThread(leeway, s, t) == LockedStep(leeway, s, t, s.PhaseOf(t))
  {
    hide LockedStep;
  }

  /** What an exception of the store changes. */
  lemma RaiseFrame(s: State, t: Tid, committed: bool)
    requires AtStore(s.PhaseOf(t))
    ensures
      var s' := Raise(s, t, committed);
      var p := s.PhaseOf(t);
      && s'.used == s.used && s'.rejected == s.rejected && s'.clock == s.clock && s'.started == s.started
      && s'.handed == s.handed && SameTables(s, s')
      && (forall u: Tid :: u != t ==> s'.PhaseOf(u) == s.PhaseOf(u))
      && s'.PhaseOf(t) == (if p.Locked? then p.(step := Leaving(RaisedError)) else Idle)
      && (forall k: Key ::
            s'.SlotOf(k) == if committed && p.key == k then EffectOf(s.SlotOf(k), p) else s.SlotOf(k))
  {
    hide EffectOf;
  }

  /** What a step changes that is not a thread's own. */
  lemma OtherStepFrame(leeway: real, s: State, l: Label)
    requires Enabled(s, l) && !l.Advance? && !l.StoreRaises?
    ensures
      var s' := Apply(leeway, s, l);
      && s.used <= s'.used && s.rejected <= s'.rejected && s.clock <= s'.clock && s'.handed == s.handed
      && (forall u: Tid :: Mover(l) != Some(u) ==> s'.PhaseOf(u) == s.PhaseOf(u))
      && (forall k: Key ::
            s'.SlotOf(k) ==
              if l.Evict? && l.key == k then s.SlotOf(k).Removed()
              else if l.CorruptEntry? && l.key == k then s.SlotOf(k).(entry := Corrupt)
              else s.SlotOf(k))
      && SameTables(s, s')
      && (Mover(l).Some? ==>
            var p, p' := s.PhaseOf(l.tid), s'.PhaseOf(l.tid);
            if IsReply(l) then p.Locked? && p' == p.(step := ReplyStep(s, l))
            else p == Idle && StartPhase(l, p', s'.rejected))
  {
    hide Slot.Removed, AdvanceThread;
  }

  predicate IsReply(l: Label) { l.ReplyToken? || l.ReplyRejected? || l.ReplyError? }

  /** Where a reply of the provider leads. */
  function ReplyStep(s: State, l: Label): Step
    requires IsReply(l)
    requires l.ReplyRejected? ==> s.PhaseOf(l.tid).Locked? && s.PhaseOf(l.tid).step.Refreshing?
  {
    match l
    case ReplyToken(_, token) => Writing(token, s.clock)
    case ReplyRejected(t) => Generating(s.PhaseOf(t).step.now)
    case ReplyError(_) => Leaving(RaisedError)
  }

  /** Where a call begins. */
  ghost predicate StartPhase(l: Label, p: Phase, rejected: set<string>) {
    || (l.StartGet? && p == ReadClock(l.key))
    || (l.StartRecover? && p == WantGuard(l.key, Recover(l.rejected)) && l.rejected in rejected)
    || (l.StartInvalidate? && p == Deleting(l.key))
  }

  /** The frame of any step of a thread itself. */
  lemma AdvanceFrame(leeway: real, s: State, t: Tid)
    requires Enabled(s, Advance(t))
    ensures
      var s' := Apply(leeway, s, Advance(t));
      && s'.used == s.used && s'.rejected == s.rejected && s'.clock == s.clock && s'.started == s.started
      && (forall u: Tid :: u != t ==> s'.PhaseOf(u) == s.PhaseOf(u))
      && s.handed <= s'.handed && |s'.handed| <= |s.handed| + 1
  {
    if s.PhaseOf(t).Locked? {
      AdvanceIsLockedStep(leeway, s, t);
      LockedStepFrame(leeway, s, t);
    } else {
      OutsideStepFrame(leeway, s, t);
    }
    hide AdvanceThread, LockedStep, InsideStep, State.PhaseOf, State.SlotOf, Slot.Removed;
  }

  lemma OthersStay(leeway: real, s: State, l: Label, t: Tid)
    requires Enabled(s, l) && Mover(l) != Some(t)
    ensures Apply(leeway, s, l).PhaseOf(t) == s.PhaseOf(t)
  {
    hide Apply, Enabled, State.PhaseOf;
    if l.Advance? {
      AdvanceFrame(leeway, s, l.tid);
    } else if l.StoreRaises? {
      RaisesApplied(leeway, s, l);
      RaiseFrame(s, l.tid, l.committed);
    } else {
      OtherStepFrame(leeway, s, l);
    }
    hide Raise;
  }

  lemma RaisesApplied(leeway: real, s: State, l: Label)
    requires Enabled(s, l) && l.StoreRaises?
    ensures AtStore(s.PhaseOf(l.tid)) && Apply(leeway, s, l) == Raise(s, l.tid, l.committed)
  {
    hide Raise;
  }

  /** Steps that leave guard, dictionary and owners alone, and the mover outside the phases that depend on them. */
  lemma PlainStepKeepsTables(s: State, s': State, t: Tid)
    requires Tables(s)
    requires s'.guard == s.guard && s'.locks == s.locks && s'.owner == s.owner && s'.nextLock == s.nextLock
    requires forall u: Tid :: u != t ==> s'.PhaseOf(u) == s.PhaseOf(u)
    requires
      var p, p' := s.PhaseOf(t), s'.PhaseOf(t);
      || (Free(p) && Free(p'))
      || (p.Locked? && p'.Locked? && p'.key == p.key && p'.lock == p.lock)
      || p' == p
    ensures Tables(s')
  {
    forall u: Tid ensures TablesAgree(s', u, s'.PhaseOf(u)) {
      assert TablesAgree(s, u, s.PhaseOf(u));
    }
  }

  lemma GuardStepKeepsTables(leeway: real, s: State, t: Tid)
    requires Tables(s) && CanAdvance(s, s.PhaseOf(t))
    requires var p := s.PhaseOf(t); p.WantGuard? || p.InGuard? || p.LeaveGuard?
    ensures Tables(AdvanceThread(leeway, s, t))
  {
    hide LockedStep;
    var s' := AdvanceThread(leeway, s, t);
    assert TablesAgree(s, t, s.PhaseOf(t));
    forall u: Tid ensures TablesAgree(s', u, s'.PhaseOf(u)) {
      assert TablesAgree(s, u, s.PhaseOf(u));
    }
    assert LockTablesInv(s');
  }

  lemma TakingKeepsTables(leeway: real, s: State, t: Tid)
    requires Tables(s) && CanAdvance(s, s.PhaseOf(t)) && s.PhaseOf(t).WantLock?
    ensures Tables(AdvanceThread(leeway, s, t))
  {
    hide LockedStep;
    var s' := AdvanceThread(leeway, s, t);
    assert TablesAgree(s, t, s.PhaseOf(t));
    forall u: Tid ensures TablesAgree(s', u, s'.PhaseOf(u)) {
      assert TablesAgree(s, u, s.PhaseOf(u));
    }
    assert LockTablesInv(s');
  }

  lemma LeavingKeepsTables(leeway: real, s: State, t: Tid)
    requires Tables(s) && s.PhaseOf(t).Locked? && s.PhaseOf(t).step.Leaving?
    ensures Tables(LockedStep(leeway, s, t, s.PhaseOf(t)))
  {
    LockedStepFrame(leeway, s, t);
    hide InsideStep, LockedStep, State.PhaseOf, State.SlotOf;
    var s' := LockedStep(leeway, s, t, s.PhaseOf(t));
    assert TablesAgree(s, t, s.PhaseOf(t));
    forall u: Tid ensures TablesAgree(s', u, s'.PhaseOf(u)) {
      assert TablesAgree(s, u, s.PhaseOf(u));
    }
    assert LockTablesInv(s');
  }

  lemma TablesKept(leeway: real, s: State, l: Label)
    requires Tables(s) && Enabled(s, l)
    ensures Tables(Apply(leeway, s, l))
  {
    hide InsideStep, Tables, Slot.Removed, AdvanceThread, LockedStep, State.PhaseOf, State.SlotOf;
    var s' := Apply(leeway, s, l);
    if l.Advance? {
      var t := l.tid;
      var p := s.PhaseOf(t);
      if p.WantGuard? || p.InGuard? || p.LeaveGuard? {
        GuardStepKeepsTables(leeway, s, t);
      } else if p.WantLock? {
        TakingKeepsTables(leeway, s, t);
      } else if p.Locked? {
        AdvanceIsLockedStep(leeway, s, t);
        if p.step.Leaving? {
          LeavingKeepsTables(leeway, s, t);
        } else {
          LockedStepFrame(leeway, s, t);
          PlainStepKeepsTables(s, s', t);
        }
      } else {
        FreeStepFrame(leeway, s, t);
        PlainStepKeepsTables(s, s', t);
      }
    } else if l.StoreRaises? {
      hide Raise;
      RaiseFrame(s, l.tid, l.committed);
      PlainStepKeepsTables(s, s', l.tid);
    } else {
      hide Apply;
      OtherStepFrame(leeway, s, l);
      PlainStepKeepsTables(s, s', if Mover(l).Some? then l.tid else 0);
    }
  }

  /** The step moves a thread inside the lock of this key, and neither leaves the lock nor waits for the provider. */
  ghost predicate MovesInside(s: State, l: Label, k: Key) {
    && l.Advance?
    && var p := s.PhaseOf(l.tid); p.Locked? && p.key == k && !AwaitsReply(p) && !p.step.Leaving?
  }

  /** The step stores a token under this key, even if the store raises afterwards. */
  ghost predicate Writes(s: State, l: Label, k: Key) {
    && (l.Advance? || (l.StoreRaises? && l.committed))
    && var p := s.PhaseOf(l.tid); p.Locked? && p.key == k && p.step.Writing?
  }

  /** What a step can do to one key's slot. */
  lemma SlotChanges(leeway: real, s: State, l: Label, k: Key)
    requires Enabled(s, l)
    ensures
      var s' := Apply(leeway, s, l);
      var slot, slot' := s.SlotOf(k), s'.SlotOf(k);
      && s.used <= s'.used && s.rejected <= s'.rejected && s.clock <= s'.clock
      && (MovesInside(s, l, k) ==>
            var p := s.PhaseOf(l.tid);
            slot' == InsideStep(leeway, slot, s.clock, p.call, p.step).0
            && s'.used == s.used && s'.rejected == s.rejected && s'.clock == s.clock)
      && (Writes(s, l, k) && l.StoreRaises? ==>
            slot' == Effect(slot, s.PhaseOf(l.tid).step)
            && s'.used == s.used && s'.rejected == s.rejected && s'.clock == s.clock)
      && (!MovesInside(s, l, k) && !Writes(s, l, k) ==>
            slot' == slot || slot' == slot.Removed() || slot' == slot.(entry := Corrupt))
  {
    if l.StoreRaises? {
      RaisesApplied(leeway, s, l);
      RaiseFrame(s, l.tid, l.committed);
      hide Apply, Raise;
    } else if !l.Advance? {
      hide Apply;
      OtherStepFrame(leeway, s, l);
    } else if s.PhaseOf(l.tid).Locked? {
      AdvanceIsLockedStep(leeway, s, l.tid);
      LockedStepFrame(leeway, s, l.tid);
    } else {
      OutsideStepFrame(leeway, s, l.tid);
    }
    hide AdvanceThread, LockedStep, InsideStep, State.SlotOf, State.PhaseOf, Slot.Removed;
  }

  /** One key's slot through any step: sound, and disturbed only by a thread writing inside that key's lock. */
  lemma SlotAfter(leeway: real, s: State, l: Label, k: Key)
    requires Inv(leeway, s) && Enabled(s, l)
    ensures
      var s' := Apply(leeway, s, l);
      var slot, slot' := s.SlotOf(k), s'.SlotOf(k);
      && s.used <= s'.used && s.rejected <= s'.rejected && s.clock <= s'.clock
      && SlotInv(leeway, slot', s'.used, s'.rejected, s'.clock)
      && (forall token :: InLog(slot, token) ==> InLog(slot', token))
      && (Undisturbed(slot, slot') || Writes(s, l, k))
  {
    hide Apply, SlotInv, StepInv, InsideStep, LockTablesInv, TablesAgree, CallKnown, Slot.Removed, CanAdvance;
    var s' := Apply(leeway, s, l);
    var slot := s.SlotOf(k);
    assert SlotInv(leeway, slot, s.used, s.rejected, s.clock);
    SlotChanges(leeway, s, l, k);
    if MovesInside(s, l, k) {
      var p := s.PhaseOf(l.tid);
      assert ThreadInv(leeway, s, l.tid);
      InsideStepIsSound(leeway, slot, s.used, s.rejected, s.clock, p.call, p.step);
    } else if Writes(s, l, k) {
      var p := s.PhaseOf(l.tid);
      assert ThreadInv(leeway, s, l.tid);
      WritingKeepsSlot(leeway, slot, s.used, s.rejected, s.clock, p.call, p.step.token, p.step.at);
    } else {
      CorruptionKeepsSlot(leeway, slot, s.used, s.rejected, s.clock);
      RemovalKeepsSlot(leeway, slot, s.used, s.rejected, s.clock);
      SlotInvGrows(leeway, s'.SlotOf(k), s.used, s'.used, s.rejected, s'.rejected, s.clock, s'.clock);
    }
  }

  /** What any thread relies on through any step. */
  lemma ThreadAfter(leeway: real, s: State, l: Label, t: Tid)
    requires Inv(leeway, s) && Enabled(s, l)
    ensures
      var s' := Apply(leeway, s, l);
      var p' := s'.PhaseOf(t);
      && CallKnown(p', s'.rejected)
      && (p'.Locked? ==> StepInv(leeway, s'.SlotOf(p'.key), s'.used, s'.rejected, s'.clock, p'.call, p'.step))
  {
    assert ThreadInv(leeway, s, t);
    var s' := Apply(leeway, s, l);
    var p, p' := s.PhaseOf(t), s'.PhaseOf(t);
    if Mover(l) != Some(t) {
      OthersStay(leeway, s, l, t);
      if p.Locked? {
        SlotAfter(leeway, s, l, p.key);
        if Writes(s, l, p.key) {
          assert ThreadInv(leeway, s, l.tid);
          MutualExclusion(leeway, s, t, l.tid);
        }
        StepInvStable(leeway, s.SlotOf(p.key), s'.SlotOf(p.key), s.used, s'.used, s.rejected, s'.rejected, s.clock,
            s'.clock, p.call, p.step);
      } else {
        SlotAfter(leeway, s, l, "");
      }
      hide StepInv, SlotInv, Apply;
    } else {
      MoverAfter(leeway, s, l, t);
    }
  }

  /** What a thread relies on, wherever it is. */
  ghost predicate ReliesOn(leeway: real, s: State, t: Tid) {
    var p := s.PhaseOf(t);
    && CallKnown(p, s.rejected)
    && (p.Locked? ==> StepInv(leeway, s.SlotOf(p.key), s.used, s.rejected, s.clock, p.call, p.step))
  }

  lemma RaiseLeaves(leeway: real, s: State, t: Tid, committed: bool)
    requires ThreadInv(leeway, s, t) && AtStore(s.PhaseOf(t))
    ensures ReliesOn(leeway, Raise(s, t, committed), t)
  {
    RaiseFrame(s, t, committed);
    hide Raise, EffectOf, State.SlotOf, State.PhaseOf;
  }

  lemma OutsideLeaves(leeway: real, s: State, t: Tid)
    requires ThreadInv(leeway, s, t) && CanAdvance(s, s.PhaseOf(t)) && !s.PhaseOf(t).Locked?
    ensures ReliesOn(leeway, AdvanceThread(leeway, s, t), t)
  {
    var p := s.PhaseOf(t);
    if Free(p) && !p.WantGuard? {
      FreeStepFrame(leeway, s, t);
    } else {
      GuardStepFrame(leeway, s, t);
    }
    hide AdvanceThread, State.PhaseOf, State.SlotOf, Slot.Removed, SlotInv;
  }

  lemma InsideLeaves(leeway: real, s: State, t: Tid)
    requires ThreadInv(leeway, s, t) && s.PhaseOf(t).Locked? && !AwaitsReply(s.PhaseOf(t))
    requires SlotInv(leeway, s.SlotOf(s.PhaseOf(t).key), s.used, s.rejected, s.clock)
    ensures ReliesOn(leeway, AdvanceThread(leeway, s, t), t)
  {
    var p := s.PhaseOf(t);
    AdvanceIsLockedStep(leeway, s, t);
    LockedStepFrame(leeway, s, t);
    hide SlotInv, TablesAgree, AdvanceThread, LockedStep, InsideStep, StepInv, State.PhaseOf, State.SlotOf;
    if !p.step.Leaving? {
      InsideStepIsSound(leeway, s.SlotOf(p.key), s.used, s.rejected, s.clock, p.call, p.step);
    }
  }

  lemma OtherLeaves(leeway: real, s: State, l: Label, t: Tid)
    requires Enabled(s, l) && Mover(l) == Some(t) && !l.Advance? && !l.StoreRaises? && ThreadInv(leeway, s, t)
    requires s.PhaseOf(t).Locked? ==> SlotInv(leeway, s.SlotOf(s.PhaseOf(t).key), s.used, s.rejected, s.clock)
    ensures ReliesOn(leeway, Apply(leeway, s, l), t)
  {
    OtherStepFrame(leeway, s, l);
    if IsReply(l) {
      AfterReply(leeway, s, l);
    }
    hide Apply, StepInv, SlotInv, State.PhaseOf, State.SlotOf, Slot.Removed;
  }

  lemma MoverAfter(leeway: real, s: State, l: Label, t: Tid)
    requires Inv(leeway, s) && Enabled(s, l) && Mover(l) == Some(t)
    ensures ReliesOn(leeway, Apply(leeway, s, l), t)
  {
    assert ThreadInv(leeway, s, t);
    var p := s.PhaseOf(t);
    assert p.Locked? ==> SlotInv(leeway, s.SlotOf(p.key), s.used, s.rejected, s.clock);
    hide Inv, SlotInv, ThreadInv, ReliesOn, AdvanceThread, Raise;
    if l.StoreRaises? {
      RaiseLeaves(leeway, s, t, l.committed);
    } else if !l.Advance? {
      OtherLeaves(leeway, s, l, t);
    } else if p.Locked? {
      InsideLeaves(leeway, s, t);
    } else {
      OutsideLeaves(leeway, s, t);
    }
  }

  /** What the thread relies on after the provider's reply. */
  lemma AfterReply(leeway: real, s: State, l: Label)
    requires Enabled(s, l) && IsReply(l) && s.PhaseOf(l.tid).Locked?
    requires
      var p := s.PhaseOf(l.tid);
      && SlotInv(leeway, s.SlotOf(p.key), s.used, s.rejected, s.clock)
      && StepInv(leeway, s.SlotOf(p.key), s.used, s.rejected, s.clock, p.call, p.step)
    ensures
      var p := s.PhaseOf(l.tid);
      StepInv(leeway, s.SlotOf(p.key), Apply(leeway, s, l).used, s.rejected, s.clock, p.call, ReplyStep(s, l))
    ensures Apply(leeway, s, l).rejected == s.rejected && Apply(leeway, s, l).clock == s.clock
  {
    var p := s.PhaseOf(l.tid);
    LoggedTokensAreUsed(leeway, s.SlotOf(p.key), s.used, s.rejected, s.clock);
    if !l.ReplyError? {
      SpentLater(leeway, s.SlotOf(p.key), s.rejected, p.step.now, s.clock);
    }
    hide Spent, SlotInv;
  }

  lemma LoggedTokensAreUsed(leeway: real, slot: Slot, used: set<string>, rejected: set<string>, clock: real)
    requires SlotInv(leeway, slot, used, rejected, clock)
    ensures forall i :: 0 <= i < |slot.log| ==> slot.log[i].token.access in used
    ensures slot.entry.Stored? ==> InLog(slot, slot.entry.token)
  {
    if slot.entry.Stored? {
      assert slot.log[|slot.log| - 1].token == slot.entry.token;
    }
  }

  /** A cause that held at one time holds at any later time. */
  lemma SpentLater(leeway: real, slot: Slot, rejected: set<string>, at: real, later: real)
    requires Spent(leeway, slot, rejected, at) && at <= later
    ensures Spent(leeway, slot, rejected, later)
  {
  }

  lemma HandedAfter(leeway: real, s: State, l: Label, i: nat)
    requires Inv(leeway, s) && Enabled(s, l) && i < |Apply(leeway, s, l).handed|
    ensures var s' := Apply(leeway, s, l);
      MayHandOut(s'.SlotOf(s'.handed[i].key), s'.handed[i].call, s'.handed[i].token)
  {
    hide SlotInv, StepInv, LockTablesInv, TablesAgree, CallKnown, Apply;
    var s' := Apply(leeway, s, l);
    var h := s'.handed[i];
    SlotAfter(leeway, s, l, h.key);
    HandedGrows(leeway, s, l);
    if i < |s.handed| {
      assert s'.handed[i] == s.handed[i];
    } else {
      HandingIsSound(leeway, s, l);
    }
  }

  lemma HandedGrows(leeway: real, s: State, l: Label)
    requires Enabled(s, l)
    ensures s.handed <= Apply(leeway, s, l).handed && |Apply(leeway, s, l).handed| <= |s.handed| + 1
  {
    hide Apply;
    if l.Advance? {
      AdvanceFrame(leeway, s, l.tid);
    } else if l.StoreRaises? {
      RaisesApplied(leeway, s, l);
      RaiseFrame(s, l.tid, l.committed);
    } else {
      OtherStepFrame(leeway, s, l);
    }
    hide Raise;
  }

  /** A token is handed out by the unlocked look, from the entry, or on leaving the lock. */
  ghost predicate Hands(leeway: real, s: State, t: Tid, h: Handed) {
    var p := s.PhaseOf(t);
    if p.ReadStore? then
      var entry := s.SlotOf(p.key).entry;
      && entry.Stored? && entry.token.IsAccessValid(p.now, leeway)
      && h == Handed(p.key, Get, entry.token, s.StartedAt(t), p.now)
    else
      && p.Locked? && p.step.Leaving? && p.step.result.Returned?
      && h == Handed(p.key, p.call, p.step.result.token, s.StartedAt(t), p.step.result.asOf)
  }

  lemma HandingStep(leeway: real, s: State, l: Label)
    requires Enabled(s, l) && |Apply(leeway, s, l).handed| > |s.handed|
    ensures l.Advance? && |Apply(leeway, s, l).handed| == |s.handed| + 1
    ensures Hands(leeway, s, l.tid, Apply(leeway, s, l).handed[|s.handed|])
  {
    if l.StoreRaises? {
      RaiseFrame(s, l.tid, l.committed);
    } else if !l.Advance? {
      OtherStepFrame(leeway, s, l);
    } else if s.PhaseOf(l.tid).Locked? {
      AdvanceIsLockedStep(leeway, s, l.tid);
      LockedStepFrame(leeway, s, l.tid);
    } else {
      OutsideStepFrame(leeway, s, l.tid);
    }
    hide AdvanceThread, Raise, LockedStep, InsideStep, Slot.Removed, State.PhaseOf, State.SlotOf;
  }

  /** The step that hands out a token hands out a good one. */
  lemma HandingIsSound(leeway: real, s: State, l: Label)
    requires Inv(leeway, s) && Enabled(s, l) && |Apply(leeway, s, l).handed| > |s.handed|
    ensures var s' := Apply(leeway, s, l);
      && |s'.handed| == |s.handed| + 1
      && var h := s'.handed[|s.handed|]; MayHandOut(s.SlotOf(h.key), h.call, h.token)
  {
    hide Apply, Enabled, SlotInv, LockTablesInv, TablesAgree, CallKnown;
    HandingStep(leeway, s, l);
    var p := s.PhaseOf(l.tid);
    assert ThreadInv(leeway, s, l.tid);
    if p.ReadStore? {
      assert SlotInv(leeway, s.SlotOf(p.key), s.used, s.rejected, s.clock);
      LoggedTokensAreUsed(leeway, s.SlotOf(p.key), s.used, s.rejected, s.clock);
    }
  }

  /** The invariant holds at the start and every enabled step keeps it. */
  lemma InvAtStart(leeway: real)
    ensures Inv(leeway, INITIAL)
  {
  }

  lemma InvKept(leeway: real, s: State, l: Label)
    requires Inv(leeway, s) && Enabled(s, l)
    ensures Inv(leeway, Apply(leeway, s, l))
  {
    var s' := Apply(leeway, s, l);
    assert Tables(s) by {
      forall t: Tid ensures TablesAgree(s, t, s.PhaseOf(t)) {
        assert ThreadInv(leeway, s, t);
      }
    }
    TablesKept(leeway, s, l);
    forall k ensures SlotInv(leeway, s'.SlotOf(k), s'.used, s'.rejected, s'.clock) {
      SlotAfter(leeway, s, l, k);
    }
    forall t: Tid ensures ThreadInv(leeway, s', t) {
      ThreadAfter(leeway, s, l, t);
    }
    forall i | 0 <= i < |s'.handed|
        ensures MayHandOut(s'.SlotOf(s'.handed[i].key), s'.handed[i].call, s'.handed[i].token) {
      HandedAfter(leeway, s, l, i);
    }
    hide Apply, SlotInv, StepInv, TablesAgree, CallKnown;
  }

  lemma {:induction false} InvAlways(leeway: real, s: State, labels: seq<Label>)
    requires Inv(leeway, s) && ValidRun(leeway, s, labels)
    ensures Inv(leeway, Run(leeway, s, labels))
    decreases |labels|
  {
    if labels != [] {
      InvKept(leeway, s, labels[0]);
      InvAlways(leeway, Apply(leeway, s, labels[0]), labels[1..]);
    }
  }

  lemma {:induction false} RunMore(leeway: real, s: State, labels: seq<Label>, l: Label)
    requires ValidRun(leeway, s, labels) && Enabled(Run(leeway, s, labels), l)
    ensures ValidRun(leeway, s, labels + [l])
    ensures Run(leeway, s, labels + [l]) == Apply(leeway, Run(leeway, s, labels), l)
    decreases |labels|
  {
    hide Enabled, Apply;
    if labels == [] {
      assert labels + [l] == [l];
      assert [l][1..] == [];
    } else {
      RunMore(leeway, Apply(leeway, s, labels[0]), labels[1..], l);
      assert (labels + [l])[1..] == labels[1..] + [l];
    }
  }
}
