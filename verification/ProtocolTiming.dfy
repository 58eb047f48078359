/** When the tokens of the protocol were good: every token handed out was valid, or had just been issued, at a clock
    reading taken during the call that got it. */
module ProtocolTiming {
  import opened PyValues
  import opened Tokens
  import opened TokenProtocol
  import opened ProtocolInvariant
  import opened ProtocolTheorems

  /** The token was stored under the key, its response parsed at time `at`. */
  ghost predicate IssuedAt(slot: Slot, token: TokenState, at: real) {
    exists i :: 0 <= i < |slot.log| && slot.log[i].token == token && slot.log[i].at == at
  }

  /** Valid or parsed at a moment between the beginning of the call and now. */
  ghost predicate GoodAsOf(leeway: real, slot: Slot, since: real, token: TokenState, asOf: real, clock: real) {
    since <= asOf <= clock && (token.IsAccessValid(asOf, leeway) || IssuedAt(slot, token, asOf))
  }

  /** The clock readings a step goes by were taken during the call. */
  ghost predicate StepTimes(leeway: real, slot: Slot, since: real, clock: real, step: Step) {
    since <= clock &&
    match step
    case GetStore(now) => since <= now <= clock
    case GetHeal(now) => since <= now <= clock
    case Writing(_, at) => since <= at <= clock
    case Leaving(result) => result.Returned? ==> GoodAsOf(leeway, slot, since, result.token, result.asOf, clock)
    case _ => true
  }

  ghost predicate ThreadTimes(leeway: real, s: State, t: Tid) {
    match s.PhaseOf(t)
    case Idle => true
    case Deleting(_) => true
    case ReadStore(_, now) => s.StartedAt(t) <= now <= s.clock
    case Locked(k, _, _, step) => StepTimes(leeway, s.SlotOf(k), s.StartedAt(t), s.clock, step)
    case _ => s.StartedAt(t) <= s.clock
  }

  ghost predicate Times(leeway: real, s: State) {
    && (forall t: Tid :: ThreadTimes(leeway, s, t))
    && (forall i :: 0 <= i < |s.handed| ==>
          var h := s.handed[i]; GoodAsOf(leeway, s.SlotOf(h.key), h.since, h.token, h.asOf, s.clock))
  }

  lemma LogGrows(leeway: real, s: State, l: Label, k: Key)
    requires Enabled(s, l)
    ensures s.SlotOf(k).log <= Apply(leeway, s, l).SlotOf(k).log && s.clock <= Apply(leeway, s, l).clock
  {
    hide Apply, Enabled, Slot.Removed;
    SlotChanges(leeway, s, l, k);
    assert s.SlotOf(k).Removed().log == s.SlotOf(k).log by { RemovalKeepsLog(s.SlotOf(k)); }
    if MovesInside(s, l, k) {
      var p := s.PhaseOf(l.tid);
      InsideLogGrows(leeway, s.SlotOf(k), s.clock, p.call, p.step);
    }
  }

  lemma RemovalKeepsLog(slot: Slot)
    ensures slot.Removed().log == slot.log
  {
  }

  lemma InsideLogGrows(leeway: real, slot: Slot, clock: real, call: Call, step: Step)
    requires !step.Refreshing? && !step.Generating? && !step.Leaving?
    ensures slot.log <= InsideStep(leeway, slot, clock, call, step).0.log
  {
    hide Decide;
  }

  lemma GoodLater(leeway: real, slot: Slot, slot': Slot, since: real, token: TokenState, asOf: real, clock: real,
      clock': real)
    requires GoodAsOf(leeway, slot, since, token, asOf, clock) && slot.log <= slot'.log && clock <= clock'
    ensures GoodAsOf(leeway, slot', since, token, asOf, clock')
  {
    if IssuedAt(slot, token, asOf) {
      var i :| 0 <= i < |slot.log| && slot.log[i].token == token && slot.log[i].at == asOf;
      assert slot'.log[i] == slot.log[i];
    }
  }

  lemma InsideStepTimes(leeway: real, slot: Slot, since: real, clock: real, call: Call, step: Step)
    requires StepTimes(leeway, slot, since, clock, step)
    requires !step.Refreshing? && !step.Generating? && !step.Leaving?
    ensures var (slot', step') := InsideStep(leeway, slot, clock, call, step);
        StepTimes(leeway, slot', since, clock, step')
  {
    if step.Writing? {
      var slot' := InsideStep(leeway, slot, clock, call, step).0;
      assert slot'.log[|slot.log|] == Issue(step.token, step.at, slot.deletions);
      assert IssuedAt(slot', step.token, step.at);
    }
  }

  lemma BystanderTimes(leeway: real, s: State, l: Label, t: Tid)
    requires Enabled(s, l) && Mover(l) != Some(t) && ThreadTimes(leeway, s, t)
    ensures ThreadTimes(leeway, Apply(leeway, s, l), t)
  {
    var s' := Apply(leeway, s, l);
    OthersStay(leeway, s, l, t);
    StartsStay(leeway, s, l, t);
    var p := s.PhaseOf(t);
    LogGrows(leeway, s, l, if p.Locked? then p.key else "");
    if p.Locked? && p.step.Leaving? && p.step.result.Returned? {
      var result := p.step.result;
      GoodLater(leeway, s.SlotOf(p.key), s'.SlotOf(p.key), s.StartedAt(t), result.token, result.asOf, s.clock,
          s'.clock);
    }
    hide Apply, GoodAsOf;
  }

  lemma StartsStay(leeway: real, s: State, l: Label, t: Tid)
    requires Enabled(s, l) && (Mover(l) != Some(t) || !IsStart(l))
    ensures Apply(leeway, s, l).StartedAt(t) == s.StartedAt(t)
  {
    hide InsideStep;
  }

  lemma MoverTimes(leeway: real, s: State, l: Label, t: Tid)
    requires Enabled(s, l) && Mover(l) == Some(t) && ThreadTimes(leeway, s, t)
    ensures ThreadTimes(leeway, Apply(leeway, s, l), t)
  {
    hide InsideStep, GoodAsOf, Slot.Removed;
    var p := s.PhaseOf(t);
    if l.Advance? && p.Locked? && !p.step.Leaving? {
      InsideStepTimes(leeway, s.SlotOf(p.key), s.StartedAt(t), s.clock, p.call, p.step);
      hide StepTimes;
    }
  }

  lemma NewHandedIsGood(leeway: real, s: State, l: Label)
    requires Enabled(s, l) && Mover(l).Some? && ThreadTimes(leeway, s, Mover(l).value)
    requires |Apply(leeway, s, l).handed| > |s.handed|
    ensures
      var s' := Apply(leeway, s, l);
      var h := s'.handed[|s.handed|];
      GoodAsOf(leeway, s.SlotOf(h.key), h.since, h.token, h.asOf, s.clock)
  {
    hide Apply, Enabled;
    HandingStep(leeway, s, l);
  }

  lemma OnlyMoversHand(leeway: real, s: State, l: Label)
    requires Enabled(s, l) && Mover(l).None?
    ensures Apply(leeway, s, l).handed == s.handed
  {
    hide Apply, Enabled;
    OtherStepFrame(leeway, s, l);
  }

  lemma TimesKept(leeway: real, s: State, l: Label)
    requires Times(leeway, s) && Enabled(s, l)
    ensures Times(leeway, Apply(leeway, s, l))
  {
    hide Apply, ThreadTimes, GoodAsOf, Enabled;
    var s' := Apply(leeway, s, l);
    forall t: Tid ensures ThreadTimes(leeway, s', t) {
      if Mover(l) == Some(t) {
        MoverTimes(leeway, s, l, t);
      } else {
        BystanderTimes(leeway, s, l, t);
      }
    }
    HandedGrows(leeway, s, l);
    forall i | 0 <= i < |s'.handed|
      ensures var h := s'.handed[i]; GoodAsOf(leeway, s'.SlotOf(h.key), h.since, h.token, h.asOf, s'.clock)
    {
      var h := s'.handed[i];
      if Mover(l).None? {
        OnlyMoversHand(leeway, s, l);
      } else if i == |s.handed| {
        NewHandedIsGood(leeway, s, l);
      }
      assert i < |s.handed| ==> h == s.handed[i];
      LogGrows(leeway, s, l, h.key);
      GoodLater(leeway, s.SlotOf(h.key), s'.SlotOf(h.key), h.since, h.token, h.asOf, s.clock, s'.clock);
    }
  }

  lemma {:induction false} TimesAlways(leeway: real, s: State, labels: seq<Label>)
    requires Times(leeway, s) && ValidRun(leeway, s, labels)
    ensures Times(leeway, Run(leeway, s, labels))
    decreases |labels|
  {
    hide Apply, Times, Enabled;
    if labels != [] {
      TimesKept(leeway, s, labels[0]);
      TimesAlways(leeway, Apply(leeway, s, labels[0]), labels[1..]);
    }
  }

  /** Every token handed out was, at a clock reading taken during the call that got it, outside the expiry leeway or
      parsed from the response that brought it. */
  lemma HandedTokensWereGood(leeway: real, s: State, i: nat)
    requires Reachable(leeway, s) && i < |s.handed|
    ensures
      var h := s.handed[i];
      && h.since <= h.asOf <= s.clock
      && (h.token.expiresAt.None? || h.token.expiresAt.value > h.asOf + leeway
          || IssuedAt(s.SlotOf(h.key), h.token, h.asOf))
  {
    var labels :| ValidRun(leeway, INITIAL, labels) && s == Run(leeway, INITIAL, labels);
    TimesAlways(leeway, INITIAL, labels);
  }
}
