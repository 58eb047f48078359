/** The authenticator's calls, one after the other, are runs of the token protocol: what src/jibit/auth/provider.py does
    call by call (module Provider) is what one thread does step by step (module TokenProtocol). */
module SequentialRuns {
  import opened PyValues
  import opened Retry
  import opened Config
  import opened Engine
  import opened Tokens
  import opened Stores
  import opened Provider
  import opened TokenLifecycle
  import opened Authenticated
  import P = TokenProtocol
  import PI = ProtocolInvariant
  import PT = ProtocolTheorems

  // ----- Runs of one thread -----

  /** Time passes, or thread `t` moves. */
  predicate Solo(t: P.Tid, l: P.Label) {
    match l
    case Tick(_) => true
    case CorruptEntry(_) => false
    case Evict(_) => false
    case StartGet(u, _) => u == t
    case StartRecover(u, _, _) => u == t
    case StartInvalidate(u, _) => u == t
    case Advance(u) => u == t
    case StoreRaises(_, _) => false
    case ReplyToken(u, _) => u == t
    case ReplyRejected(u) => u == t
    case ReplyError(u) => u == t
  }

  ghost predicate SoloRun(leeway: real, t: P.Tid, s: P.State, labels: seq<P.Label>, s': P.State) {
    && (forall i :: 0 <= i < |labels| ==> Solo(t, labels[i]))
    && P.ValidRun(leeway, s, labels)
    && P.Run(leeway, s, labels) == s'
  }

  ghost predicate Reaches(leeway: real, t: P.Tid, s: P.State, s': P.State) {
    exists labels :: SoloRun(leeway, t, s, labels, s')
  }

  lemma Still(leeway: real, t: P.Tid, s: P.State)
    ensures Reaches(leeway, t, s, s)
  {
    assert SoloRun(leeway, t, s, [], s);
  }

  lemma OneMore(leeway: real, t: P.Tid, s: P.State, s1: P.State, l: P.Label)
    requires Reaches(leeway, t, s, s1) && Solo(t, l) && P.Enabled(s1, l)
    ensures Reaches(leeway, t, s, P.Apply(leeway, s1, l))
  {
    hide P.Enabled, P.Apply, Solo;
    var labels :| SoloRun(leeway, t, s, labels, s1);
    PI.RunMore(leeway, s, labels, l);
    assert SoloRun(leeway, t, s, labels + [l], P.Apply(leeway, s1, l));
  }

  /** The thread's own next step. */
  lemma Onward(leeway: real, t: P.Tid, s: P.State, s1: P.State) returns (s2: P.State)
    requires Reaches(leeway, t, s, s1) && P.CanAdvance(s1, s1.PhaseOf(t))
    ensures Reaches(leeway, t, s, s2) && s2 == P.AdvanceThread(leeway, s1, t)
  {
    hide P.CanAdvance, P.AdvanceThread, Reaches;
    s2 := P.Apply(leeway, s1, P.Advance(t));
    OneMore(leeway, t, s, s1, P.Advance(t));
  }

  lemma WaitUntil(leeway: real, t: P.Tid, s: P.State, s1: P.State, time: real) returns (s2: P.State)
    requires Reaches(leeway, t, s, s1) && s1.clock <= time
    ensures Reaches(leeway, t, s, s2) && s2 == s1.(clock := time)
  {
    hide Reaches;
    s2 := P.Apply(leeway, s1, P.Tick(time - s1.clock));
    OneMore(leeway, t, s, s1, P.Tick(time - s1.clock));
  }

  // ----- Protocol states and authenticator states -----

  function EntryOf(a: Authority, raw: RawEntry): P.Entry {
    match Load(a.platform, a.kind, raw)
    case Missing => P.Absent
    case Loaded(t) => P.Stored(t)
    case Unreadable => P.Corrupt
  }

  /** The clock starts at zero or later and never goes back. */
  ghost predicate ClockRuns(env: Env) {
    env.clock(0) >= 0.0 && forall i: nat, j: nat :: i <= j ==> env.clock(i) <= env.clock(j)
  }

  /** The last reading of the clock, if any. */
  function LastReading(env: Env, w: World): real {
    if w.clockReads == 0 then 0.0 else env.clock(w.clockReads - 1)
  }

  lemma NextReading(env: Env, w: World)
    requires ClockRuns(env)
    ensures LastReading(env, w) <= env.clock(w.clockReads)
  {
    assert w.clockReads > 0 ==> env.clock(w.clockReads - 1) <= env.clock(w.clockReads);
    assert w.clockReads == 0 ==> LastReading(env, w) <= env.clock(0);
  }

  /** The protocol's slot is what the store shows, and its clock has not passed the last reading. */
  ghost predicate Mirrors(a: Authority, env: Env, st: AuthState, s: P.State, k: P.Key) {
    s.SlotOf(k).entry == EntryOf(a, st.raw) && s.clock <= LastReading(env, st.w)
  }

  /** Other threads and other keys are untouched. */
  ghost predicate OthersUntouched(s: P.State, s': P.State, t: P.Tid, k: P.Key) {
    && (forall u: P.Tid :: u != t ==> s'.PhaseOf(u) == s.PhaseOf(u))
    && (forall j: P.Key :: j != k ==> s'.SlotOf(j) == s.SlotOf(j))
  }

  /** Nothing was handed out, brought in or presented. */
  ghost predicate NothingIssued(s: P.State, s': P.State) {
    s'.used == s.used && s'.rejected == s.rejected && s'.handed == s.handed
  }

  /** A look at the entry removes it if it is unreadable, and leaves the slot alone otherwise. */
  function Looked(slot: P.Slot): P.Slot {
    if slot.entry == P.Corrupt then slot.Removed() else slot
  }

  ghost predicate SameLocks(s: P.State, s': P.State) {
    s'.guard == s.guard && s'.owner == s.owner
  }

  /** Nobody is inside a lock and thread `t` is between calls. */
  ghost predicate Quiet(s: P.State, t: P.Tid) {
    s.PhaseOf(t) == P.Idle && s.guard.None? && s.owner == map[]
  }

  // ----- The stages of a call -----

  /** Nothing changes but guard, locks and the thread's own position. */
  ghost predicate OnlyMoves(s: P.State, s': P.State, t: P.Tid, k: P.Key) {
    OthersUntouched(s, s', t, k) && NothingIssued(s, s') && s'.SlotOf(k) == s.SlotOf(k) && s'.clock == s.clock
  }

  /** The guarded look-up of the key's lock. */
  lemma FindLock(leeway: real, t: P.Tid, s: P.State, s1: P.State, k: P.Key, call: P.Call)
      returns (s2: P.State, lock: P.LockId)
    requires Reaches(leeway, t, s, s1) && s1.PhaseOf(t) == P.WantGuard(k, call) && s1.guard.None?
    ensures Reaches(leeway, t, s, s2) && s2.PhaseOf(t) == P.LeaveGuard(k, call, lock)
    ensures OnlyMoves(s1, s2, t, k) && s2.owner == s1.owner
  {
    hide Reaches;
    var inGuard := Onward(leeway, t, s, s1);
    s2 := Onward(leeway, t, s, inGuard);
    lock := s2.PhaseOf(t).lock;
  }

  lemma TakeLock(leeway: real, t: P.Tid, s: P.State, s1: P.State, k: P.Key, call: P.Call, lock: P.LockId)
      returns (s2: P.State)
    requires Reaches(leeway, t, s, s1) && s1.PhaseOf(t) == P.LeaveGuard(k, call, lock) && s1.owner == map[]
    ensures Reaches(leeway, t, s, s2)
    ensures s2.PhaseOf(t) == P.Locked(k, call, lock, if call == P.Get then P.GetClock else P.RecStore)
    ensures OnlyMoves(s1, s2, t, k) && s2.guard.None? && s2.owner == map[lock := t]
  {
    hide Reaches;
    var waiting := Onward(leeway, t, s, s1);
    s2 := Onward(leeway, t, s, waiting);
  }

  lemma EnterLock(leeway: real, t: P.Tid, s: P.State, s1: P.State, k: P.Key, call: P.Call)
      returns (s2: P.State, lock: P.LockId)
    requires Reaches(leeway, t, s, s1) && s1.PhaseOf(t) == P.WantGuard(k, call) && s1.guard.None? && s1.owner == map[]
    ensures Reaches(leeway, t, s, s2)
    ensures s2.PhaseOf(t) == P.Locked(k, call, lock, if call == P.Get then P.GetClock else P.RecStore)
    ensures OnlyMoves(s1, s2, t, k) && s2.guard.None? && s2.owner == map[lock := t]
  {
    hide Reaches;
    var found: P.State;
    found, lock := FindLock(leeway, t, s, s1, k, call);
    s2 := TakeLock(leeway, t, s, found, k, call, lock);
  }

  /** A token handed out, regardless of the times. */
  datatype Gift = Gift(key: P.Key, call: P.Call, token: TokenState)

  function Gifts(handed: seq<P.Handed>): seq<Gift> {
    seq(|handed|, i requires 0 <= i < |handed| => Gift(handed[i].key, handed[i].call, handed[i].token))
  }

  lemma LeaveLock(leeway: real, t: P.Tid, s: P.State, s1: P.State, k: P.Key, call: P.Call, lock: P.LockId,
      result: P.CallResult) returns (s2: P.State)
    requires Reaches(leeway, t, s, s1) && s1.PhaseOf(t) == P.Locked(k, call, lock, P.Leaving(result))
    requires s1.guard.None? && s1.owner == map[lock := t]
    ensures Reaches(leeway, t, s, s2) && Quiet(s2, t) && OthersUntouched(s1, s2, t, k)
    ensures s2.SlotOf(k) == s1.SlotOf(k) && s2.clock == s1.clock && s2.used == s1.used && s2.rejected == s1.rejected
    ensures Gifts(s2.handed) == Gifts(s1.handed) + if result.Returned? then [Gift(k, call, result.token)] else []
  {
    hide Reaches;
    s2 := Onward(leeway, t, s, s1);
  }

  /** One of the thread's own steps inside the lock. */
  lemma Inward(leeway: real, t: P.Tid, s: P.State, s1: P.State) returns (s2: P.State)
    requires Reaches(leeway, t, s, s1) && s1.PhaseOf(t).Locked? && !P.AwaitsReply(s1.PhaseOf(t))
        && !s1.PhaseOf(t).step.Leaving?
    ensures
      var p := s1.PhaseOf(t);
      var (slot, step) := P.InsideStep(leeway, s1.SlotOf(p.key), s1.clock, p.call, p.step);
      && Reaches(leeway, t, s, s2) && s2.PhaseOf(t) == p.(step := step) && s2.SlotOf(p.key) == slot
      && OthersUntouched(s1, s2, t, p.key) && SameLocks(s1, s2) && s2.clock == s1.clock
      && s2.used == s1.used && s2.rejected == s1.rejected && s2.handed == s1.handed
  {
    hide Reaches, P.InsideStep;
    s2 := Onward(leeway, t, s, s1);
  }

  /** The second look of `get_token`: clock, store, and the decision. */
  lemma LookAgain(a: Authority, env: Env, st: AuthState, t: P.Tid, s: P.State, s1: P.State, k: P.Key, lock: P.LockId)
      returns (s2: P.State)
    requires Reaches(a.Leeway(), t, s, s1) && s1.PhaseOf(t) == P.Locked(k, P.Get, lock, P.GetClock)
    requires ClockRuns(env) && Mirrors(a, env, st, s1, k)
    ensures
      var now := env.clock(st.w.clockReads);
      var (st2, cached) := SafeGetSpec(a, Tick(st));
      && Reaches(a.Leeway(), t, s, s2) && Mirrors(a, env, st2, s2, k)
      && s2.PhaseOf(t) == P.Locked(k, P.Get, lock, P.Decide(a.Leeway(), P.Get, cached, now))
      && OthersUntouched(s1, s2, t, k) && NothingIssued(s1, s2) && SameLocks(s1, s2)
      && s2.SlotOf(k) == Looked(s1.SlotOf(k))
  {
    hide Reaches, Load, P.Decide, P.AdvanceThread, P.Apply;
    var now := env.clock(st.w.clockReads);
    NextReading(env, st.w);
    var timed := WaitUntil(a.Leeway(), t, s, s1, now);
    var reading := Inward(a.Leeway(), t, s, timed);
    s2 := Inward(a.Leeway(), t, s, reading);
    if EntryOf(a, st.raw) == P.Corrupt {
      EmptyIsAbsent(a);
      s2 := Inward(a.Leeway(), t, s, s2);
    }
  }

  lemma EmptyIsAbsent(a: Authority)
    ensures EntryOf(a, Empty) == P.Absent
  {
  }

  /** The look of a recovery: store, clock, and the decision. */
  lemma LookForRecovery(a: Authority, env: Env, st: AuthState, t: P.Tid, s: P.State, s1: P.State, k: P.Key,
      lock: P.LockId, rejected: string) returns (s2: P.State)
    requires Reaches(a.Leeway(), t, s, s1) && s1.PhaseOf(t) == P.Locked(k, P.Recover(rejected), lock, P.RecStore)
    requires ClockRuns(env) && Mirrors(a, env, st, s1, k)
    ensures
      var (st2, cached) := SafeGetSpec(a, st);
      var now := env.clock(st2.w.clockReads);
      && Reaches(a.Leeway(), t, s, s2) && Mirrors(a, env, Tick(st2), s2, k)
      && s2.PhaseOf(t) == P.Locked(k, P.Recover(rejected), lock, P.Decide(a.Leeway(), P.Recover(rejected), cached, now))
      && OthersUntouched(s1, s2, t, k) && NothingIssued(s1, s2) && SameLocks(s1, s2)
      && s2.SlotOf(k) == Looked(s1.SlotOf(k))
  {
    hide Reaches, Load, P.Decide, P.AdvanceThread, P.Apply;
    var now := env.clock(st.w.clockReads);
    NextReading(env, st.w);
    var looked := Inward(a.Leeway(), t, s, s1);
    if EntryOf(a, st.raw) == P.Corrupt {
      EmptyIsAbsent(a);
      looked := Inward(a.Leeway(), t, s, looked);
    }
    var timed := WaitUntil(a.Leeway(), t, s, looked, now);
    s2 := Inward(a.Leeway(), t, s, timed);
  }

  /** A request reads the clock exactly when it yields a token, and only adds events. */
  lemma RequestReads(a: Authority, env: Env, w: World, refresh: Option<TokenState>)
    ensures
      var (w', r) := RequestTokenSpec(a, env, w, refresh);
      w'.clockReads == w.clockReads + (if r.Ok? then 1 else 0) && |w'.events| >= |w.events|
  {
    hide ParseToken, BuildRequest, Attempts, LastOutcome, LastEvent;
  }

  /** The thread is about to leave the lock with this result. */
  ghost predicate LeavesWith(p: P.Phase, p': P.Phase, r: Result<TokenState, JibitError>) {
    && p.Locked? && p'.Locked? && p' == p.(step := p'.step) && p'.step.Leaving?
    && if r.Ok? then p'.step.result.Returned? && p'.step.result.token == r.value else p'.step.result == P.RaisedError
  }

  /** The tokens of a key in the order they were stored. */
  function LogTokens(slot: P.Slot): seq<TokenState> {
    seq(|slot.log|, i requires 0 <= i < |slot.log| => slot.log[i].token)
  }

  /** A token arrives and is stored. */
  lemma Store(a: Authority, env: Env, st: AuthState, w: World, t: P.Tid, s: P.State, s1: P.State, k: P.Key,
      token: TokenState) returns (s2: P.State)
    requires a.platform.Valid() && token.Canonical() && ClockRuns(env)
    requires Reaches(a.Leeway(), t, s, s1) && P.AwaitsReply(s1.PhaseOf(t)) && s1.PhaseOf(t).key == k
    requires Mirrors(a, env, st, s1, k) && w.clockReads == st.w.clockReads + 1
    requires token.access !in s1.used && token.access !in s1.rejected
    ensures Reaches(a.Leeway(), t, s, s2) && Mirrors(a, env, AuthState(w, Save(a.platform, a.kind, token)), s2, k)
    ensures LeavesWith(s1.PhaseOf(t), s2.PhaseOf(t), Ok(token))
    ensures OthersUntouched(s1, s2, t, k) && SameLocks(s1, s2) && s2.handed == s1.handed && s2.rejected == s1.rejected
    ensures s2.used == s1.used + {token.access}
    ensures LogTokens(s2.SlotOf(k)) == LogTokens(s1.SlotOf(k)) + [token]
    ensures s2.SlotOf(k).deletions == s1.SlotOf(k).deletions && s2.SlotOf(k).Last().at == env.clock(st.w.clockReads)
  {
    hide Reaches, Load, Save, P.AdvanceThread;
    SavedTokenLoads(a, token);
    NextReading(env, st.w);
    var timed := WaitUntil(a.Leeway(), t, s, s1, env.clock(st.w.clockReads));
    var replied := P.Apply(a.Leeway(), timed, P.ReplyToken(t, token));
    OneMore(a.Leeway(), t, s, timed, P.ReplyToken(t, token));
    s2 := Inward(a.Leeway(), t, s, replied);
  }

  /** What obtaining a token does to the slot and the tables. */
  ghost predicate Obtained(s1: P.State, s2: P.State, t: P.Tid, k: P.Key, r: Result<TokenState, JibitError>) {
    && OthersUntouched(s1, s2, t, k) && SameLocks(s1, s2) && s2.handed == s1.handed && s2.rejected == s1.rejected
    && s2.used == (if r.Ok? then s1.used + {r.value.access} else s1.used)
    && s2.SlotOf(k).deletions == s1.SlotOf(k).deletions
    && LogTokens(s2.SlotOf(k)) == LogTokens(s1.SlotOf(k)) + (if r.Ok? then [r.value] else [])
  }

  /** The provider does not give a token: the call leaves the lock with an error. */
  lemma Fail(leeway: real, t: P.Tid, s: P.State, s1: P.State) returns (s2: P.State)
    requires Reaches(leeway, t, s, s1) && P.AwaitsReply(s1.PhaseOf(t))
    ensures Reaches(leeway, t, s, s2) && s2.PhaseOf(t) == s1.PhaseOf(t).(step := P.Leaving(P.RaisedError))
    ensures OnlyMoves(s1, s2, t, s1.PhaseOf(t).key) && SameLocks(s1, s2)
  {
    hide Reaches;
    OneMore(leeway, t, s, s1, P.ReplyError(t));
    s2 := P.Apply(leeway, s1, P.ReplyError(t));
  }

  /** The provider rejects the refresh: the call turns to the credentials. */
  lemma Refuse(leeway: real, t: P.Tid, s: P.State, s1: P.State) returns (s2: P.State)
    requires Reaches(leeway, t, s, s1) && s1.PhaseOf(t).Locked? && s1.PhaseOf(t).step.Refreshing?
    ensures Reaches(leeway, t, s, s2)
    ensures s2.PhaseOf(t) == s1.PhaseOf(t).(step := P.Generating(s1.PhaseOf(t).step.now))
    ensures OnlyMoves(s1, s2, t, s1.PhaseOf(t).key) && SameLocks(s1, s2)
  {
    hide Reaches;
    OneMore(leeway, t, s, s1, P.ReplyRejected(t));
    s2 := P.Apply(leeway, s1, P.ReplyRejected(t));
  }

  lemma GenerateRuns(a: Authority, env: Env, st: AuthState, t: P.Tid, s: P.State, s1: P.State, k: P.Key)
      returns (s2: P.State)
    requires a.platform.Valid() && ClockRuns(env) && Mirrors(a, env, st, s1, k)
    requires Reaches(a.Leeway(), t, s, s1) && s1.PhaseOf(t).Locked? && s1.PhaseOf(t).step.Generating?
        && s1.PhaseOf(t).key == k
    requires var r := AcquireSpec(a, env, st).1; r.Ok? ==> r.value.access !in s1.used && r.value.access !in s1.rejected
    ensures
      var (st2, r) := AcquireSpec(a, env, st);
      && Reaches(a.Leeway(), t, s, s2) && Mirrors(a, env, st2, s2, k) && Obtained(s1, s2, t, k, r)
      && LeavesWith(s1.PhaseOf(t), s2.PhaseOf(t), r)
  {
    hide Reaches, Load, Save, RequestTokenSpec, P.Apply, P.AdvanceThread, LogTokens;
    RequestReads(a, env, st.w, None);
    RequestedTokensAreCanonical(a, env, st.w, None);
    var (st2, r) := AcquireSpec(a, env, st);
    if r.Ok? {
      s2 := Store(a, env, st, st2.w, t, s, s1, k, r.value);
    } else {
      s2 := Fail(a.Leeway(), t, s, s1);
    }
  }

  /** `_refresh_or_acquire` from the step that starts it to the step that leaves the lock. */
  lemma ObtainRuns(a: Authority, env: Env, st: AuthState, t: P.Tid, s: P.State, s1: P.State, k: P.Key,
      cached: Option<TokenState>, now: real) returns (s2: P.State)
    requires a.platform.Valid() && ClockRuns(env) && Mirrors(a, env, st, s1, k)
    requires Reaches(a.Leeway(), t, s, s1) && s1.PhaseOf(t).Locked? && s1.PhaseOf(t).key == k
    requires s1.PhaseOf(t).step == P.Obtain(a.Leeway(), cached, now)
    requires
      var r := RefreshOrAcquireSpec(a, env, st, cached, now).1;
      r.Ok? ==> r.value.access !in s1.used && r.value.access !in s1.rejected
    ensures
      var (st2, r) := RefreshOrAcquireSpec(a, env, st, cached, now);
      && Reaches(a.Leeway(), t, s, s2) && Mirrors(a, env, st2, s2, k) && Obtained(s1, s2, t, k, r)
      && LeavesWith(s1.PhaseOf(t), s2.PhaseOf(t), r)
  {
    hide Reaches, Load, Save, RequestTokenSpec, AcquireSpec, P.AdvanceThread, P.Apply, TokenState.IsRefreshValid,
        LogTokens;
    if s1.PhaseOf(t).step.Generating? {
      s2 := GenerateRuns(a, env, st, t, s, s1, k);
    } else {
      RequestReads(a, env, st.w, cached);
      RequestedTokensAreCanonical(a, env, st.w, cached);
      var (w, refreshed) := RequestTokenSpec(a, env, st.w, cached);
      var (st2, r) := RefreshOrAcquireSpec(a, env, st, cached, now);
      if refreshed.Ok? {
        s2 := Store(a, env, st, st2.w, t, s, s1, k, r.value);
      } else if RefreshRejected(refreshed.error) {
        var refused := Refuse(a.Leeway(), t, s, s1);
        s2 := GenerateRuns(a, env, st.(w := LogEvent(w, TokenRefreshFailed)), t, s, refused, k);
      } else {
        s2 := Fail(a.Leeway(), t, s, s1);
      }
    }
  }

  // ----- The first look of `get_token` -----

  /** A call of `get_token` that has read the clock. */
  lemma StartAt(leeway: real, t: P.Tid, s: P.State, k: P.Key, now: real) returns (s1: P.State)
    requires Quiet(s, t) && s.clock <= now
    ensures Reaches(leeway, t, s, s1) && s1.PhaseOf(t) == P.ReadStore(k, now) && s1.clock == now
    ensures OthersUntouched(s, s1, t, k) && SameLocks(s, s1) && NothingIssued(s, s1) && s1.SlotOf(k) == s.SlotOf(k)
  {
    hide Reaches;
    Still(leeway, t, s);
    var timed := WaitUntil(leeway, t, s, s, now);
    OneMore(leeway, t, s, timed, P.StartGet(t, k));
    s1 := Onward(leeway, t, s, P.Apply(leeway, timed, P.StartGet(t, k)));
  }

  /** The unlocked look of `get_token`: it hands the token out, or goes for the lock. */
  lemma FirstLook(a: Authority, env: Env, st: AuthState, t: P.Tid, s: P.State, k: P.Key) returns (s1: P.State)
    requires ClockRuns(env) && Mirrors(a, env, st, s, k) && Quiet(s, t)
    ensures
      var (st1, cached) := SafeGetSpec(a, Tick(st));
      var valid := cached.Some? && cached.value.IsAccessValid(env.clock(st.w.clockReads), a.Leeway());
      && st1.w.events == st.w.events
      && Reaches(a.Leeway(), t, s, s1) && Mirrors(a, env, st1, s1, k)
      && OthersUntouched(s, s1, t, k) && SameLocks(s, s1)
      && s1.SlotOf(k) == Looked(s.SlotOf(k)) && s1.used == s.used && s1.rejected == s.rejected
      && s1.PhaseOf(t) == (if valid then P.Idle else P.WantGuard(k, P.Get))
      && (!valid ==> s1.handed == s.handed)
      && (valid ==> Gifts(s1.handed) == Gifts(s.handed) + [Gift(k, P.Get, cached.value)])
  {
    hide Reaches, Load, TokenState.IsAccessValid, P.Apply;
    var now := env.clock(st.w.clockReads);
    NextReading(env, st.w);
    var reading := StartAt(a.Leeway(), t, s, k, now);
    s1 := Onward(a.Leeway(), t, s, reading);
    if EntryOf(a, st.raw) == P.Corrupt {
      EmptyIsAbsent(a);
      s1 := Onward(a.Leeway(), t, s, s1);
    }
  }

  // ----- Runs after runs -----

  lemma ReachesOn(leeway: real, t: P.Tid, s: P.State, s1: P.State, s2: P.State)
    requires Reaches(leeway, t, s, s1) && Reaches(leeway, t, s1, s2)
    ensures Reaches(leeway, t, s, s2)
  {
    var labels :| SoloRun(leeway, t, s1, labels, s2);
    RunOn(leeway, t, s, s1, labels, s2);
  }

  lemma {:induction false} RunOn(leeway: real, t: P.Tid, s: P.State, s1: P.State, labels: seq<P.Label>, s2: P.State)
    requires Reaches(leeway, t, s, s1) && SoloRun(leeway, t, s1, labels, s2)
    ensures Reaches(leeway, t, s, s2)
    decreases |labels|
  {
    hide P.Enabled, P.Apply, Solo, Reaches;
    if labels != [] {
      OneMore(leeway, t, s, s1, labels[0]);
      var next := P.Apply(leeway, s1, labels[0]);
      assert SoloRun(leeway, t, next, labels[1..], s2);
      RunOn(leeway, t, s, next, labels[1..], s2);
    }
  }
}
