/** Sessions of an authenticator and the engine around it are runs of one thread of the token protocol, so that the
    bound on all runs becomes a bound on what a session itself did. */
module Sessions {
  import opened PyValues
  import opened Retry
  import opened Config
  import opened Engine
  import opened Tokens
  import opened Stores
  import opened Provider
  import opened TokenLifecycle
  import opened Authenticated
  import opened SequentialRuns
  import P = TokenProtocol
  import PI = ProtocolInvariant
  import PT = ProtocolTheorems

  // ----- What calls do, one action after the other -----

  /** A call for a token, a removal of the entry, or a submission under a token. */
  datatype Action = Ask(call: P.Call) | Discard | Submit(options: RequestOptions, token: TokenState)

  /** The next state, and the token the action returns, if any. */
  function ActionSpec(a: Authority, env: Env, st: AuthState, action: Action): (AuthState, Option<TokenState>) {
    match action
    case Ask(Get) => var (st', r) := GetTokenSpec(a, env, st); (st', Granted(r))
    case Ask(Recover(rejected)) => var (st', r) := RecoverSpec(a, env, st, rejected); (st', Granted(r))
    case Discard => (InvalidateSpec(st), None)
    case Submit(options, token) => (SendUnder(a, env, st, options, token).0, None)
  }

  function Granted(r: Result<TokenState, JibitError>): Option<TokenState> {
    if r.Ok? then Some(r.value) else None
  }

  /** A token was obtained and stored: the last thing logged says so. */
  predicate Issued(st: AuthState, st': AuthState) {
    |st'.w.events| > |st.w.events| && st'.w.events[|st'.w.events| - 1] in {TokenAcquired, TokenRefreshed}
  }

  /** The token an action returned, if it was obtained from the provider and not from the store. */
  function Brought(st: AuthState, st': AuthState, granted: Option<TokenState>): seq<TokenState> {
    if granted.Some? && Issued(st, st') then [granted.value] else []
  }

  function Accesses(tokens: seq<TokenState>): set<string> {
    set t <- tokens :: t.access
  }

  /** The access token an action presents as rejected. */
  function PresentedBy(action: Action): set<string> {
    if action.Ask? && action.call.Recover? then {action.call.rejected} else {}
  }

  function GiftsOf(k: P.Key, action: Action, granted: Option<TokenState>): seq<Gift> {
    if action.Ask? && granted.Some? then [Gift(k, action.call, granted.value)] else []
  }

  /** How many entries the action removes: an unreadable one it looks at, or any entry it discards. */
  function RemovedBy(a: Authority, st: AuthState, action: Action): nat {
    var entry := EntryOf(a, st.raw);
    match action
    case Ask(_) => if entry == P.Corrupt then 1 else 0
    case Discard => if entry == P.Absent then 0 else 1
    case Submit(_, _) => 0
  }

  /** Where an action ends in the protocol: the same entry, the same token handed out, and the tokens stored, rejected
      and removed that the action obtained, presented and removed. */
  ghost predicate Ends(a: Authority, env: Env, st: AuthState, action: Action, t: P.Tid, s: P.State, s': P.State,
      k: P.Key) {
    var (st', granted) := ActionSpec(a, env, st, action);
    && Reaches(a.Leeway(), t, s, s') && Quiet(s', t) && Mirrors(a, env, st', s', k) && OthersUntouched(s, s', t, k)
    && Gifts(s'.handed) == Gifts(s.handed) + GiftsOf(k, action, granted)
    && s'.rejected == s.rejected + PresentedBy(action)
    && s'.used == s.used + Accesses(Brought(st, st', granted))
    && LogTokens(s'.SlotOf(k)) == LogTokens(s.SlotOf(k)) + Brought(st, st', granted)
    && s'.SlotOf(k).deletions == s.SlotOf(k).deletions + RemovedBy(a, st, action)
  }

  /** The token an action brings in was neither brought in nor presented before. */
  predicate Fresh(a: Authority, env: Env, st: AuthState, action: Action, seen: set<string>) {
    var (st', granted) := ActionSpec(a, env, st, action);
    Accesses(Brought(st, st', granted)) !! seen + PresentedBy(action)
  }

  /** A token that is obtained is announced. */
  lemma ObtainedIsIssued(a: Authority, env: Env, st: AuthState, cached: Option<TokenState>, now: real)
    ensures var (st', r) := RefreshOrAcquireSpec(a, env, st, cached, now); r.Ok? ==> Issued(st, st')
  {
    hide Load, Save, RequestTokenSpec;
    RequestReads(a, env, st.w, None);
    RequestReads(a, env, st.w, cached);
    var w := LogEvent(RequestTokenSpec(a, env, st.w, cached).0, TokenRefreshFailed);
    RequestReads(a, env, w, None);
  }

  // ----- The part of a call that runs under the lock -----

  /** What a call sees under the lock: a recovery reads the store before the clock. */
  function LookSpec(a: Authority, env: Env, st: AuthState, call: P.Call): (AuthState, Option<TokenState>, real) {
    if call.Get? then
      var (st1, cached) := SafeGetSpec(a, Tick(st));
      (st1, cached, env.clock(st.w.clockReads))
    else
      var (st1, cached) := SafeGetSpec(a, st);
      (Tick(st1), cached, env.clock(st1.w.clockReads))
  }

  function LockedSpec(a: Authority, env: Env, st: AuthState,
      call: P.Call): (AuthState, Result<TokenState, JibitError>) {
    var (st1, cached, now) := LookSpec(a, env, st, call);
    match P.Decide(a.Leeway(), call, cached, now)
    case Leaving(Returned(token, _)) => (st1, Ok(token))
    case _ => RefreshOrAcquireSpec(a, env, st1, cached, now)
  }

  /** From waiting for the guard to the decision under the lock. */
  lemma LookRuns(a: Authority, env: Env, st: AuthState, t: P.Tid, s: P.State, s1: P.State, k: P.Key, call: P.Call)
      returns (s2: P.State, lock: P.LockId)
    requires ClockRuns(env) && Mirrors(a, env, st, s1, k)
    requires Reaches(a.Leeway(), t, s, s1) && s1.PhaseOf(t) == P.WantGuard(k, call) && s1.guard.None?
        && s1.owner == map[]
    ensures
      var (st1, cached, now) := LookSpec(a, env, st, call);
      && st1.w.events == st.w.events
      && Reaches(a.Leeway(), t, s, s2) && Mirrors(a, env, st1, s2, k)
      && s2.PhaseOf(t) == P.Locked(k, call, lock, P.Decide(a.Leeway(), call, cached, now))
      && OthersUntouched(s1, s2, t, k) && NothingIssued(s1, s2) && s2.guard.None? && s2.owner == map[lock := t]
      && s2.SlotOf(k) == Looked(s1.SlotOf(k))
  {
    hide Reaches, Load, P.Decide;
    var inside: P.State;
    inside, lock := EnterLock(a.Leeway(), t, s, s1, k, call);
    if call.Get? {
      s2 := LookAgain(a, env, st, t, s, inside, k, lock);
    } else {
      s2 := LookForRecovery(a, env, st, t, s, inside, k, lock, call.rejected);
    }
  }

  /** The locked part of a call from state `s1` ends in state `s2`. */
  ghost predicate LockedEnds(a: Authority, env: Env, st: AuthState, t: P.Tid, s: P.State, s1: P.State, s2: P.State,
      k: P.Key, call: P.Call) {
    var (st', r) := LockedSpec(a, env, st, call);
    && Reaches(a.Leeway(), t, s, s2) && Quiet(s2, t) && Mirrors(a, env, st', s2, k) && OthersUntouched(s1, s2, t, k)
    && Gifts(s2.handed) == Gifts(s1.handed) + GiftsOf(k, Ask(call), Granted(r))
    && s2.rejected == s1.rejected
    && s2.used == s1.used + Accesses(Brought(st, st', Granted(r)))
    && LogTokens(s2.SlotOf(k)) == LogTokens(s1.SlotOf(k)) + Brought(st, st', Granted(r))
    && s2.SlotOf(k).deletions == Looked(s1.SlotOf(k)).deletions
  }

  lemma LookKeepsLog(slot: P.Slot)
    ensures LogTokens(Looked(slot)) == LogTokens(slot)
  {
  }

  lemma LockedCallRuns(a: Authority, env: Env, st: AuthState, t: P.Tid, s: P.State, s1: P.State, k: P.Key,
      call: P.Call) returns (s2: P.State)
    requires a.platform.Valid() && ClockRuns(env) && Mirrors(a, env, st, s1, k)
    requires Reaches(a.Leeway(), t, s, s1) && s1.PhaseOf(t) == P.WantGuard(k, call) && s1.guard.None?
        && s1.owner == map[]
    requires var (st', r) := LockedSpec(a, env, st, call);
        Accesses(Brought(st, st', Granted(r))) !! s1.used + s1.rejected
    ensures LockedEnds(a, env, st, t, s, s1, s2, k, call)
  {
    hide Reaches, RefreshOrAcquireSpec, LookSpec, Mirrors, Looked, LogTokens, ClockRuns, Issued;
    var last, lock := LookRuns(a, env, st, t, s, s1, k, call);
    LookKeepsLog(s1.SlotOf(k));
    var (st1, cached, now) := LookSpec(a, env, st, call);
    var (st', r) := LockedSpec(a, env, st, call);
    SameIssued(st, st1, st');
    if last.PhaseOf(t).step.Leaving? {
      NotIssued(st1);
    } else {
      ObtainedIsIssued(a, env, st1, cached, now);
      last := ObtainRuns(a, env, st1, t, s, last, k, cached, now);
    }
    s2 := LeaveLock(a.Leeway(), t, s, last, k, call, lock, last.PhaseOf(t).step.result);
    MirrorsKept(a, env, st', last, s2, k);
  }

  lemma SameIssued(st: AuthState, st1: AuthState, st': AuthState)
    requires st1.w.events == st.w.events
    ensures Issued(st1, st') == Issued(st, st')
  {
  }

  lemma NotIssued(st: AuthState)
    ensures !Issued(st, st)
  {
  }

  lemma MirrorsKept(a: Authority, env: Env, st: AuthState, s1: P.State, s2: P.State, k: P.Key)
    requires Mirrors(a, env, st, s1, k) && s2.SlotOf(k) == s1.SlotOf(k) && s2.clock == s1.clock
    ensures Mirrors(a, env, st, s2, k)
  {
  }

  // ----- Single actions -----

  lemma RecoveryIsLocked(a: Authority, env: Env, st: AuthState, rejected: string)
    ensures RecoverSpec(a, env, st, rejected) == LockedSpec(a, env, st, P.Recover(rejected))
  {
    hide Load, RefreshOrAcquireSpec;
  }

  /** `get_token` without a valid token at the first look is its locked part from there. */
  lemma SecondLookIsLocked(a: Authority, env: Env, st: AuthState)
    ensures
      var (st1, cached) := SafeGetSpec(a, Tick(st));
      GetTokenSpec(a, env, st) ==
        if cached.Some? && cached.value.IsAccessValid(env.clock(st.w.clockReads), a.Leeway()) then
          (st1, Ok(cached.value))
        else LockedSpec(a, env, st1, P.Get)
  {
    hide Load, RefreshOrAcquireSpec;
  }

  lemma GetRuns(a: Authority, env: Env, st: AuthState, t: P.Tid, s: P.State, k: P.Key) returns (s': P.State)
    requires a.platform.Valid() && ClockRuns(env) && Mirrors(a, env, st, s, k) && Quiet(s, t)
    requires Fresh(a, env, st, Ask(P.Get), s.used + s.rejected)
    ensures Ends(a, env, st, Ask(P.Get), t, s, s', k)
  {
    hide Reaches, LockedSpec, GetTokenSpec, SafeGetSpec, Mirrors, Issued, OthersUntouched, TokenState.IsAccessValid,
      LockedEnds, LogTokens, Gifts, Looked, ClockRuns, EntryOf;
    SecondLookIsLocked(a, env, st);
    var s1 := FirstLook(a, env, st, t, s, k);
    LookKeepsLog(s.SlotOf(k));
    LookRemoves(a, env, st, s, k, P.Get);
    var st1 := SafeGetSpec(a, Tick(st)).0;
    var (st', r) := GetTokenSpec(a, env, st);
    SameIssued(st, st1, st');
    if s1.PhaseOf(t).WantGuard? {
      s' := LockedCallRuns(a, env, st1, t, s, s1, k, P.Get);
      Continued(a, env, st1, t, s, s1, s', k, P.Get);
      LookedTwice(s.SlotOf(k));
    } else {
      s' := s1;
      NotIssued(st1);
    }
  }

  lemma LookRemoves(a: Authority, env: Env, st: AuthState, s: P.State, k: P.Key, call: P.Call)
    requires Mirrors(a, env, st, s, k)
    ensures Looked(s.SlotOf(k)).deletions == s.SlotOf(k).deletions + RemovedBy(a, st, Ask(call))
  {
  }

  lemma LookedTwice(slot: P.Slot)
    ensures Looked(Looked(slot)) == Looked(slot)
  {
  }

  /** What the locked part adds to what happened before it. */
  lemma Continued(a: Authority, env: Env, st1: AuthState, t: P.Tid, s: P.State, s1: P.State, s': P.State, k: P.Key,
      call: P.Call)
    requires OthersUntouched(s, s1, t, k) && s1.handed == s.handed && LockedEnds(a, env, st1, t, s, s1, s', k, call)
    ensures OthersUntouched(s, s', t, k)
    ensures
      var (st', r) := LockedSpec(a, env, st1, call);
      && Reaches(a.Leeway(), t, s, s') && Quiet(s', t) && Mirrors(a, env, st', s', k)
      && Gifts(s'.handed) == Gifts(s.handed) + GiftsOf(k, Ask(call), Granted(r)) && s'.rejected == s1.rejected
      && s'.used == s1.used + Accesses(Brought(st1, st', Granted(r)))
      && LogTokens(s'.SlotOf(k)) == LogTokens(s1.SlotOf(k)) + Brought(st1, st', Granted(r))
      && s'.SlotOf(k).deletions == Looked(s1.SlotOf(k)).deletions
  {
    hide Reaches, LockedSpec, Mirrors, Issued, Quiet, Looked, LogTokens, Gifts, GiftsOf, Brought, Accesses;
  }

  lemma RecoverRuns(a: Authority, env: Env, st: AuthState, t: P.Tid, s: P.State, k: P.Key, rejected: string)
      returns (s': P.State)
    requires a.platform.Valid() && ClockRuns(env) && Mirrors(a, env, st, s, k) && Quiet(s, t)
    requires Fresh(a, env, st, Ask(P.Recover(rejected)), s.used + s.rejected)
    ensures Ends(a, env, st, Ask(P.Recover(rejected)), t, s, s', k)
  {
    hide Reaches, LockedSpec, RecoverSpec, Mirrors, Issued, LockedEnds, LogTokens, Gifts, Looked, ClockRuns, EntryOf;
    RecoveryIsLocked(a, env, st, rejected);
    var s1 := StartRecovery(a.Leeway(), t, s, k, rejected);
    MirrorsKept(a, env, st, s, s1, k);
    LookRemoves(a, env, st, s, k, P.Recover(rejected));
    s' := LockedCallRuns(a, env, st, t, s, s1, k, P.Recover(rejected));
    Continued(a, env, st, t, s, s1, s', k, P.Recover(rejected));
  }

  lemma StartRecovery(leeway: real, t: P.Tid, s: P.State, k: P.Key, rejected: string) returns (s1: P.State)
    requires Quiet(s, t)
    ensures Reaches(leeway, t, s, s1) && s1.PhaseOf(t) == P.WantGuard(k, P.Recover(rejected))
    ensures OthersUntouched(s, s1, t, k) && SameLocks(s, s1) && s1.SlotOf(k) == s.SlotOf(k) && s1.clock == s.clock
    ensures s1.used == s.used && s1.rejected == s.rejected + {rejected} && s1.handed == s.handed
  {
    hide Reaches;
    var l := P.StartRecover(t, k, rejected);
    Still(leeway, t, s);
    OneMore(leeway, t, s, s, l);
    s1 := P.Apply(leeway, s, l);
  }

  lemma DiscardRuns(a: Authority, env: Env, st: AuthState, t: P.Tid, s: P.State, k: P.Key) returns (s': P.State)
    requires Mirrors(a, env, st, s, k) && Quiet(s, t)
    ensures Ends(a, env, st, Discard, t, s, s', k)
  {
    hide Reaches, Load, LogTokens, Gifts;
    var l := P.StartInvalidate(t, k);
    Still(a.Leeway(), t, s);
    OneMore(a.Leeway(), t, s, s, l);
    s' := Onward(a.Leeway(), t, s, P.Apply(a.Leeway(), s, l));
    EmptyIsAbsent(a);
    RemovalKeepsTokens(s.SlotOf(k));
    hide P.Apply, P.AdvanceThread;
  }

  lemma RemovalKeepsTokens(slot: P.Slot)
    ensures LogTokens(slot.Removed()) == LogTokens(slot)
  {
  }

  /** A submission is no step of the protocol. */
  lemma SubmitRuns(a: Authority, env: Env, st: AuthState, t: P.Tid, s: P.State, k: P.Key, options: RequestOptions,
      token: TokenState)
    requires Mirrors(a, env, st, s, k) && Quiet(s, t)
    ensures Ends(a, env, st, Submit(options, token), t, s, s, k)
  {
    hide Reaches, Load, BuildRequest, Attempts, LastOutcome, LastEvent, AfterRetries, LogTokens, Gifts;
    Still(a.Leeway(), t, s);
    assert SendUnder(a, env, st, options, token).0.w.clockReads == st.w.clockReads by {
      SubmitReadsNoClock(a, env, st, options, token);
    }
  }

  lemma SubmitReadsNoClock(a: Authority, env: Env, st: AuthState, options: RequestOptions, token: TokenState)
    ensures var (st', _) := SendUnder(a, env, st, options, token);
        st'.w.clockReads == st.w.clockReads && st'.raw == st.raw
  {
    hide BuildRequest, Attempts, LastOutcome, LastEvent;
  }

  /** Every action is a run of one thread of the protocol. */
  lemma ActionIsARun(a: Authority, env: Env, st: AuthState, action: Action, t: P.Tid, s: P.State, k: P.Key)
    requires a.platform.Valid() && ClockRuns(env) && Mirrors(a, env, st, s, k) && Quiet(s, t)
    requires Fresh(a, env, st, action, s.used + s.rejected)
    ensures exists s' :: Ends(a, env, st, action, t, s, s', k)
  {
    hide *;
    match action
    case Ask(Get) => var s' := GetRuns(a, env, st, t, s, k);
    case Ask(Recover(rejected)) => var s' := RecoverRuns(a, env, st, t, s, k, rejected);
    case Discard => var s' := DiscardRuns(a, env, st, t, s, k);
    case Submit(options, token) => SubmitRuns(a, env, st, t, s, k, options, token);
  }

  // ----- Sequences of actions -----

  /** What a sequence of actions leads to: the last state, the tokens obtained and handed out, the access tokens
      presented as rejected, and how many entries were removed. */
  datatype Account = Account(state: AuthState, obtained: seq<TokenState>, gifts: seq<Gift>, presented: set<string>,
      removed: nat)

  function AccountOf(a: Authority, env: Env, st: AuthState, actions: seq<Action>, k: P.Key): Account
    decreases |actions|
  {
    if actions == [] then Account(st, [], [], {}, 0)
    else
      var (st1, granted) := ActionSpec(a, env, st, actions[0]);
      var rest := AccountOf(a, env, st1, actions[1..], k);
      Account(rest.state, Brought(st, st1, granted) + rest.obtained, GiftsOf(k, actions[0], granted) + rest.gifts,
              PresentedBy(actions[0]) + rest.presented, RemovedBy(a, st, actions[0]) + rest.removed)
  }

  /** Every token the actions bring in is new when it arrives. */
  predicate FreshThroughout(a: Authority, env: Env, st: AuthState, actions: seq<Action>, seen: set<string>)
    decreases |actions|
  {
    actions != [] ==>
      var (st', granted) := ActionSpec(a, env, st, actions[0]);
      && Fresh(a, env, st, actions[0], seen)
      && FreshThroughout(a, env, st', actions[1..],
                         seen + PresentedBy(actions[0]) + Accesses(Brought(st, st', granted)))
  }

  ghost predicate RunEnds(a: Authority, env: Env, account: Account, t: P.Tid, s: P.State, s': P.State, k: P.Key) {
    && Reaches(a.Leeway(), t, s, s') && Quiet(s', t)
    && Mirrors(a, env, account.state, s', k) && OthersUntouched(s, s', t, k)
    && Gifts(s'.handed) == Gifts(s.handed) + account.gifts
    && s'.rejected == s.rejected + account.presented
    && LogTokens(s'.SlotOf(k)) == LogTokens(s.SlotOf(k)) + account.obtained
    && s'.SlotOf(k).deletions == s.SlotOf(k).deletions + account.removed
  }

  lemma NoActions(a: Authority, env: Env, st: AuthState, t: P.Tid, s: P.State, k: P.Key)
    requires Mirrors(a, env, st, s, k) && Quiet(s, t)
    ensures RunEnds(a, env, AccountOf(a, env, st, [], k), t, s, s, k)
  {
    hide Reaches, Mirrors, Gifts, LogTokens;
    Still(a.Leeway(), t, s);
  }

  /** An action and the rest make the sequence. */
  lemma ActionThenRest(a: Authority, env: Env, st: AuthState, actions: seq<Action>, t: P.Tid, s: P.State, s1: P.State,
      s2: P.State, k: P.Key)
    requires actions != [] && Ends(a, env, st, actions[0], t, s, s1, k)
    requires RunEnds(a, env, AccountOf(a, env, ActionSpec(a, env, st, actions[0]).0, actions[1..], k), t, s1, s2, k)
    ensures RunEnds(a, env, AccountOf(a, env, st, actions, k), t, s, s2, k)
  {
    hide Reaches, ActionSpec, Mirrors, Quiet, Brought, GiftsOf, PresentedBy, Gifts, LogTokens, RemovedBy;
    ReachesOn(a.Leeway(), t, s, s1, s2);
    var (st1, granted) := ActionSpec(a, env, st, actions[0]);
    var rest := AccountOf(a, env, st1, actions[1..], k);
    AppendAssociates(Gifts(s.handed), GiftsOf(k, actions[0], granted), rest.gifts);
    AppendAssociates(LogTokens(s.SlotOf(k)), Brought(st, st1, granted), rest.obtained);
    hide P.State.PhaseOf, P.State.SlotOf;
  }

  /** What the action leaves behind is what the rest finds. */
  lemma ActionLeavesFresh(a: Authority, env: Env, st: AuthState, actions: seq<Action>, t: P.Tid, s: P.State,
      s1: P.State, k: P.Key)
    requires actions != [] && Ends(a, env, st, actions[0], t, s, s1, k)
    requires FreshThroughout(a, env, st, actions, s.used + s.rejected)
    ensures FreshThroughout(a, env, ActionSpec(a, env, st, actions[0]).0, actions[1..], s1.used + s1.rejected)
  {
    hide Reaches, ActionSpec, Mirrors, Quiet, OthersUntouched, Brought, GiftsOf, PresentedBy, Gifts, LogTokens,
        RemovedBy, Accesses;
    var (st1, granted) := ActionSpec(a, env, st, actions[0]);
    assert s1.used + s1.rejected == s.used + s.rejected + PresentedBy(actions[0]) + Accesses(Brought(st, st1, granted));
  }

  lemma {:induction false} ActionsAreARun(a: Authority, env: Env, st: AuthState, actions: seq<Action>, t: P.Tid,
      s: P.State, k: P.Key)
    requires a.platform.Valid() && ClockRuns(env) && Mirrors(a, env, st, s, k) && Quiet(s, t)
    requires FreshThroughout(a, env, st, actions, s.used + s.rejected)
    ensures exists s' :: RunEnds(a, env, AccountOf(a, env, st, actions, k), t, s, s', k)
    decreases |actions|
  {
    hide Reaches, ActionSpec, Mirrors, ClockRuns, Quiet, Fresh, Brought, GiftsOf, OthersUntouched, RemovedBy, RunEnds,
      AccountOf, Gifts, LogTokens, PresentedBy, Accesses;
    if actions == [] {
      NoActions(a, env, st, t, s, k);
    } else {
      var st1 := ActionSpec(a, env, st, actions[0]).0;
      ActionIsARun(a, env, st, actions[0], t, s, k);
      var s1 :| Ends(a, env, st, actions[0], t, s, s1, k);
      ActionLeavesFresh(a, env, st, actions, t, s, s1, k);
      ActionsAreARun(a, env, st1, actions[1..], t, s1, k);
      var s2 :| RunEnds(a, env, AccountOf(a, env, st1, actions[1..], k), t, s1, s2, k);
      ActionThenRest(a, env, st, actions, t, s, s1, s2, k);
    }
  }

  // ----- Calls and sessions -----

  /** The actions of an authorised request: a token, a submission, and after a 401 either a removal, or a recovery
      with a second submission, which another 401 follows with a removal. */
  function ExecuteActions(a: Authority, env: Env, st: AuthState, options: RequestOptions): seq<Action> {
    var (s1, got) := GetTokenSpec(a, env, st);
    if got.Raised? then [Ask(P.Get)]
    else
      var (s2, r) := SendUnder(a, env, s1, options, got.value);
      [Ask(P.Get), Submit(options, got.value)]
      + if !AuthenticationFailed(r) then [] else if !CanReplay(options) then [Discard]
        else ReplayActions(a, env, s2, options, got.value)
  }

  function ReplayActions(a: Authority, env: Env, st: AuthState, options: RequestOptions,
      rejected: TokenState): seq<Action> {
    var (s1, recovered) := RecoverSpec(a, env, st, rejected.access);
    if recovered.Raised? then [Ask(P.Recover(rejected.access))]
    else
      var r := SendUnder(a, env, s1, options, recovered.value).1;
      [Ask(P.Recover(rejected.access)), Submit(options, recovered.value)]
      + if AuthenticationFailed(r) then [Discard] else []
  }

  function ActionsOf(a: Authority, env: Env, st: AuthState, call: Call): seq<Action> {
    match call
    case GetTokenCall => [Ask(P.Get)]
    case RecoverCall(rejected) => [Ask(P.Recover(rejected))]
    case InvalidateCall => [Discard]
    case ExecuteCall(options) => ExecuteActions(a, env, st, options)
  }

  function SessionActions(a: Authority, env: Env, st: AuthState, calls: seq<Call>): seq<Action>
    decreases |calls|
  {
    if calls == [] then []
    else ActionsOf(a, env, st, calls[0]) + SessionActions(a, env, CallSpec(a, env, st, calls[0]).0, calls[1..])
  }

  function After(a: Authority, env: Env, st: AuthState, actions: seq<Action>): AuthState
    decreases |actions|
  {
    if actions == [] then st else After(a, env, ActionSpec(a, env, st, actions[0]).0, actions[1..])
  }

  lemma {:induction false} AfterAll(a: Authority, env: Env, st: AuthState, xs: seq<Action>, ys: seq<Action>)
    ensures After(a, env, st, xs + ys) == After(a, env, After(a, env, st, xs), ys)
    decreases |xs|
  {
    hide ActionSpec;
    if xs == [] {
      assert xs + ys == ys;
    } else {
      assert (xs + ys)[1..] == xs[1..] + ys;
      AfterAll(a, env, ActionSpec(a, env, st, xs[0]).0, xs[1..], ys);
    }
  }

  lemma {:induction false} AccountState(a: Authority, env: Env, st: AuthState, actions: seq<Action>, k: P.Key)
    ensures AccountOf(a, env, st, actions, k).state == After(a, env, st, actions)
    decreases |actions|
  {
    hide ActionSpec, Brought, GiftsOf, PresentedBy, RemovedBy;
    if actions != [] {
      AccountState(a, env, ActionSpec(a, env, st, actions[0]).0, actions[1..], k);
    }
  }

  lemma OneAction(a: Authority, env: Env, st: AuthState, x: Action)
    ensures After(a, env, st, [x]) == ActionSpec(a, env, st, x).0
  {
    hide ActionSpec;
    assert [x][1..] == [];
  }

  lemma TwoActions(a: Authority, env: Env, st: AuthState, x: Action, y: Action, rest: seq<Action>)
    ensures After(a, env, st, [x, y] + rest)
        == After(a, env, ActionSpec(a, env, ActionSpec(a, env, st, x).0, y).0, rest)
  {
    hide ActionSpec;
    assert ([x, y] + rest)[1..] == [y] + rest;
    assert ([y] + rest)[1..] == rest;
  }

  /** The actions of a replay, and of a whole request, make the replay and the request. */
  lemma ReplayIsItsActions(a: Authority, env: Env, st: AuthState, options: RequestOptions, rejected: TokenState)
    ensures After(a, env, st, ReplayActions(a, env, st, options, rejected))
        == ReplaySpec(a, env, st, options, rejected).0
  {
    hide RecoverSpec, SendUnder, After, InvalidateSpec;
    var ask := Ask(P.Recover(rejected.access));
    var (s1, recovered) := RecoverSpec(a, env, st, rejected.access);
    OneAction(a, env, st, ask);
    if recovered.Ok? {
      var (s2, r) := SendUnder(a, env, s1, options, recovered.value);
      var rest := if AuthenticationFailed(r) then [Discard] else [];
      TwoActions(a, env, st, ask, Submit(options, recovered.value), rest);
      OneAction(a, env, s2, Discard);
      NothingAfter(a, env, s2);
    }
  }

  lemma NothingAfter(a: Authority, env: Env, st: AuthState)
    ensures After(a, env, st, []) == st
  {
  }

  lemma RequestIsItsActions(a: Authority, env: Env, st: AuthState, options: RequestOptions)
    ensures After(a, env, st, ExecuteActions(a, env, st, options)) == AuthorizedSpec(a, env, st, options).0
  {
    hide GetTokenSpec, SendUnder, After, InvalidateSpec, ReplayActions, ReplaySpec;
    var (s1, got) := GetTokenSpec(a, env, st);
    OneAction(a, env, st, Ask(P.Get));
    if got.Ok? {
      var (s2, r) := SendUnder(a, env, s1, options, got.value);
      var rest := ExecuteActions(a, env, st, options)[2..];
      assert ExecuteActions(a, env, st, options) == [Ask(P.Get), Submit(options, got.value)] + rest;
      TwoActions(a, env, st, Ask(P.Get), Submit(options, got.value), rest);
      OneAction(a, env, s2, Discard);
      NothingAfter(a, env, s2);
      ReplayIsItsActions(a, env, s2, options, got.value);
    }
  }

  lemma {:induction false} SessionIsItsActions(a: Authority, env: Env, st: AuthState, calls: seq<Call>)
    ensures After(a, env, st, SessionActions(a, env, st, calls)) == SessionSpec(a, env, st, calls).0
    decreases |calls|
  {
    hide After, GetTokenSpec, RecoverSpec, AuthorizedSpec, InvalidateSpec, ExecuteActions;
    if calls == [] {
      NothingAfter(a, env, st);
    } else {
      var st1 := CallSpec(a, env, st, calls[0]).0;
      if calls[0].ExecuteCall? {
        RequestIsItsActions(a, env, st, calls[0].options);
      } else {
        OneAction(a, env, st, ActionsOf(a, env, st, calls[0])[0]);
      }
      AfterAll(a, env, st, ActionsOf(a, env, st, calls[0]), SessionActions(a, env, st1, calls[1..]));
      SessionIsItsActions(a, env, st1, calls[1..]);
    }
  }

  /** Every session of calls for tokens, recoveries, invalidations and authorised requests is a run of one thread of the
      protocol. It ends with the same entry, hands out the same tokens in the same order, stores the tokens the session
      obtained in the same order, and has its rejected tokens and removals. */
  lemma SessionIsARun(a: Authority, env: Env, st: AuthState, calls: seq<Call>, t: P.Tid, s: P.State, k: P.Key)
    requires a.platform.Valid() && ClockRuns(env) && Mirrors(a, env, st, s, k) && Quiet(s, t)
    requires FreshThroughout(a, env, st, SessionActions(a, env, st, calls), s.used + s.rejected)
    ensures exists s' :: RunEnds(a, env, AccountOf(a, env, st, SessionActions(a, env, st, calls), k), t, s, s', k)
    ensures AccountOf(a, env, st, SessionActions(a, env, st, calls), k).state == SessionSpec(a, env, st, calls).0
  {
    hide *;
    var actions := SessionActions(a, env, st, calls);
    ActionsAreARun(a, env, st, actions, t, s, k);
    AccountState(a, env, st, actions, k);
    SessionIsItsActions(a, env, st, calls);
  }

  // ----- How many tokens a session obtains -----

  function Discards(actions: seq<Action>): nat {
    if actions == [] then 0 else (if actions[0].Discard? then 1 else 0) + Discards(actions[1..])
  }

  predicate Readable(a: Authority, st: AuthState) {
    EntryOf(a, st.raw) != P.Corrupt
  }

  /** A readable entry stays readable: nothing the authenticator stores is unreadable. */
  lemma ReadableStays(a: Authority, env: Env, st: AuthState, action: Action)
    requires a.platform.Valid() && Readable(a, st)
    ensures Readable(a, ActionSpec(a, env, st, action).0)
  {
    hide GetTokenSpec, RecoverSpec, SendUnder, Load;
    var st' := ActionSpec(a, env, st, action).0;
    EmptyIsMissing(a);
    assert SafeGetSpec(a, st).0.raw == st.raw;
    match action {
      case Ask(Get) =>
        GetTokenEntry(a, env, st);
        assert st' == GetTokenSpec(a, env, st).0;
      case Ask(Recover(rejected)) =>
        RecoverEntry(a, env, st, rejected);
        assert st' == RecoverSpec(a, env, st, rejected).0;
      case Discard =>
      case Submit(options, token) =>
        SubmitReadsNoClock(a, env, st, options, token);
    }
    assert Readable(a, st');
  }

  /** Only discarding removes entries, apart from the look that finds the first entry unreadable. */
  lemma {:induction false} OnlyDiscardsRemove(a: Authority, env: Env, st: AuthState, actions: seq<Action>, k: P.Key)
    requires a.platform.Valid()
    ensures AccountOf(a, env, st, actions, k).removed <= Discards(actions) + if Readable(a, st) then 0 else 1
    decreases |actions|
  {
    if actions != [] {
      ActionKeepsReadable(a, env, st, actions[0]);
      hide ActionSpec, Brought, GiftsOf, PresentedBy, EntryOf;
      OnlyDiscardsRemove(a, env, ActionSpec(a, env, st, actions[0]).0, actions[1..], k);
    }
  }

  /** After a call for a token or a removal the entry is readable, and no action makes a readable entry unreadable. */
  lemma ActionKeepsReadable(a: Authority, env: Env, st: AuthState, action: Action)
    requires a.platform.Valid()
    ensures Readable(a, st) || !action.Submit? ==> Readable(a, ActionSpec(a, env, st, action).0)
  {
    if Readable(a, st) {
      ReadableStays(a, env, st, action);
    } else {
      hide GetTokenSpec, RecoverSpec, SendUnder, Load;
      var st' := ActionSpec(a, env, st, action).0;
      EmptyIsMissing(a);
      assert SafeGetSpec(a, st).0.raw == Empty;
      match action {
        case Ask(Get) =>
          GetTokenEntry(a, env, st);
          assert st' == GetTokenSpec(a, env, st).0;
        case Ask(Recover(rejected)) =>
          RecoverEntry(a, env, st, rejected);
          assert st' == RecoverSpec(a, env, st, rejected).0;
        case Discard =>
        case Submit(options, token) =>
      }
      assert !action.Submit? ==> Readable(a, st');
    }
  }

  /** The distinct access tokens among those obtained that were presented as rejected, or are inside the expiry
      leeway at the given time. */
  function SpentAmong(leeway: real, obtained: seq<TokenState>, presented: set<string>, at: real): set<string> {
    set t <- obtained | PT.IsSpent(leeway, t, presented, at) :: t.access
  }

  lemma {:induction false} SubsetIsSmaller(x: set<string>, y: set<string>)
    requires x <= y
    ensures |x| <= |y|
    decreases |x|
  {
    if x != {} {
      var e :| e in x;
      SubsetIsSmaller(x - {e}, y - {e});
    }
  }

  /** The spent tokens of the protocol's log are spent tokens of the session. */
  lemma LogSpentIsSpent(leeway: real, slot: P.Slot, rejected: set<string>, clock: real, at: real)
    requires clock <= at
    ensures |PT.SpentTokens(leeway, slot.log, |slot.log|, rejected, clock)|
        <= |SpentAmong(leeway, LogTokens(slot), rejected, at)|
  {
    var x := PT.SpentTokens(leeway, slot.log, |slot.log|, rejected, clock);
    var y := SpentAmong(leeway, LogTokens(slot), rejected, at);
    forall e | e in x ensures e in y {
      var i :| 0 <= i < |slot.log| && PT.IsSpent(leeway, slot.log[i].token, rejected, clock)
          && slot.log[i].token.access == e;
      assert LogTokens(slot)[i] == slot.log[i].token;
    }
    SubsetIsSmaller(x, y);
  }

  /** The token the store gives at the beginning, if any. */
  function Held(a: Authority, st: AuthState): seq<TokenState> {
    match EntryOf(a, st.raw)
    case Stored(t) => [t]
    case _ => []
  }

  /** The tokens a session goes by, the one held at the beginning and those obtained, number at most one, plus the
      entries it removes, plus the distinct tokens among them that were presented as rejected or are inside the
      expiry leeway at its last clock reading. It removes an entry only by discarding it, apart from an unreadable
      one at the beginning. */
  lemma SessionIsBounded(a: Authority, env: Env, st: AuthState, calls: seq<Call>)
    requires a.platform.Valid() && ClockRuns(env)
    requires FreshThroughout(a, env, st, SessionActions(a, env, st, calls), Accesses(Held(a, st)))
    ensures
      var actions := SessionActions(a, env, st, calls);
      var account := AccountOf(a, env, st, actions, "");
      var tokens := Held(a, st) + account.obtained;
      && account.state == SessionSpec(a, env, st, calls).0
      && |tokens| <= 1 + account.removed
           + |SpentAmong(a.Leeway(), tokens, account.presented, LastReading(env, account.state.w))|
      && account.removed <= Discards(actions) + (if Readable(a, st) then 0 else 1)
  {
    hide SessionActions, SessionSpec, AccountOf, FreshThroughout, PT.SpentTokens, SpentAmong, OthersUntouched, Quiet,
        ClockRuns, EntryOf, LogTokens, Gifts, Held, Accesses, Reaches, PI.Inv;
    var t: P.Tid, k := 0, "";
    var account := AccountOf(a, env, st, SessionActions(a, env, st, calls), k);
    var s := StartsHolding(a, env, st, t, k);
    SessionIsARun(a, env, st, calls, t, s, k);
    var s' :| RunEnds(a, env, account, t, s, s', k);
    assert LogTokens(s'.SlotOf(k)) == Held(a, st) + account.obtained;
    assert s'.rejected == account.presented;
    assert |s'.SlotOf(k).log| == |LogTokens(s'.SlotOf(k))| by { TokensOfLog(s'.SlotOf(k)); }
    ReachedKeepsInv(a.Leeway(), t, s, s');
    PT.IssuesArePaidForAll(a.Leeway(), s', k);
    LogSpentIsSpent(a.Leeway(), s'.SlotOf(k), s'.rejected, s'.clock, LastReading(env, account.state.w));
    OnlyDiscardsRemove(a, env, st, SessionActions(a, env, st, calls), k);
  }

  /** On an empty store: at most one token, plus one for each time the session discards the entry, plus one for each
      distinct token it obtained that was rejected or expires. */
  lemma EmptyStoreSessionIsBounded(a: Authority, env: Env, st: AuthState, calls: seq<Call>)
    requires a.platform.Valid() && ClockRuns(env) && st.raw == Empty
    requires FreshThroughout(a, env, st, SessionActions(a, env, st, calls), {})
    ensures
      var actions := SessionActions(a, env, st, calls);
      var account := AccountOf(a, env, st, actions, "");
      && account.state == SessionSpec(a, env, st, calls).0
      && |account.obtained| <= 1 + Discards(actions)
           + |SpentAmong(a.Leeway(), account.obtained, account.presented, LastReading(env, account.state.w))|
  {
    hide SessionActions, SessionSpec, AccountOf, FreshThroughout, SpentAmong, ClockRuns;
    EmptyIsAbsent(a);
    assert Held(a, st) == [] && Accesses([]) == {};
    SessionIsBounded(a, env, st, calls);
    var obtained := AccountOf(a, env, st, SessionActions(a, env, st, calls), "").obtained;
    assert [] + obtained == obtained;
  }

  lemma TokensOfLog(slot: P.Slot)
    ensures |LogTokens(slot)| == |slot.log|
  {
  }

  /** A protocol state that holds what the store holds, as if its token had just been stored. */
  lemma StartsHolding(a: Authority, env: Env, st: AuthState, t: P.Tid, k: P.Key) returns (s: P.State)
    requires ClockRuns(env)
    ensures Mirrors(a, env, st, s, k) && Quiet(s, t) && PI.Inv(a.Leeway(), s)
    ensures s.used + s.rejected == Accesses(Held(a, st)) && s.rejected == {}
    ensures LogTokens(s.SlotOf(k)) == Held(a, st) && s.SlotOf(k).deletions == 0
  {
    var held := Held(a, st);
    var log := if held == [] then [] else [P.Issue(held[0], 0.0, 0)];
    s := P.INITIAL.(slots := map[k := P.Slot(EntryOf(a, st.raw), log, 0)], used := Accesses(held));
    assert st.w.clockReads > 0 ==> env.clock(0) <= env.clock(st.w.clockReads - 1);
    hide Load;
  }

  lemma ReachedKeepsInv(leeway: real, t: P.Tid, s: P.State, s': P.State)
    requires PI.Inv(leeway, s) && Reaches(leeway, t, s, s')
    ensures PI.Inv(leeway, s')
  {
    var labels :| SoloRun(leeway, t, s, labels, s');
    hide P.ValidRun, P.Run, PI.Inv;
    PI.InvAlways(leeway, s, labels);
  }
}
