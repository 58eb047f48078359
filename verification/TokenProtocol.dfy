/** Any number of threads in `get_token`, `recover_from_unauthorized` and `invalidate` of src/jibit/auth/provider.py,
    sharing one store, one ThreadLockProvider (src/jibit/auth/locks.py) and one clock. Every read of the clock,
    every store operation, every lock operation and every provider reply is a step of its own. */
module TokenProtocol {
  import opened PyValues
  import opened Tokens

  type Tid = nat
  type Key = string
  type LockId = nat

  datatype Entry = Absent | Corrupt | Stored(token: TokenState)

  /** One stored token: when its response was parsed, and how many deletions of the key preceded its storing. */
  datatype Issue = Issue(token: TokenState, at: real, deletions: nat)

  /** What belongs to one cache key: the entry, every token ever stored, and how often an entry was removed. */
  datatype Slot = Slot(entry: Entry, log: seq<Issue>, deletions: nat)
  {
    /** Removing what is not there is not a deletion. */
    function Removed(): Slot {
      this.(entry := Absent, deletions := if entry == Absent then deletions else deletions + 1)
    }

    function Last(): Issue
      requires log != []
    {
      log[|log| - 1]
    }
  }

  const EMPTY_SLOT := Slot(Absent, [], 0)

  datatype Call = Get | Recover(rejected: string)

  /** A returned token comes with the clock reading at which it was found valid or its response was parsed. */
  datatype CallResult = Returned(token: TokenState, asOf: real) | RaisedError

  /** Where a thread is inside the per-key lock. */
  datatype Step =
    | GetClock
    | GetStore(now: real)
    | GetHeal(now: real)
    | RecStore
    | RecHeal
    | RecClock(cached: Option<TokenState>)
    | Refreshing(now: real)
    | Generating(now: real)
    | Writing(token: TokenState, at: real)
    | Leaving(result: CallResult)

  datatype Phase =
    | Idle
    | ReadClock(key: Key)
    | ReadStore(key: Key, now: real)
    | HealUnlocked(key: Key)
    | Deleting(key: Key)
    | WantGuard(key: Key, call: Call)
    | InGuard(key: Key, call: Call)
    | LeaveGuard(key: Key, call: Call, lock: LockId)
    | WantLock(key: Key, call: Call, lock: LockId)
    | Locked(key: Key, call: Call, lock: LockId, step: Step)

  /** A token handed to a caller whose call began at time `since`. */
  datatype Handed = Handed(key: Key, call: Call, token: TokenState, since: real, asOf: real)

  datatype State = State(
    clock: real,
    slots: map<Key, Slot>,
    guard: Option<Tid>,
    locks: map<Key, LockId>,
    owner: map<LockId, Tid>,
    nextLock: LockId,
    threads: map<Tid, Phase>,
    started: map<Tid, real>,
    used: set<string>,
    rejected: set<string>,
    handed: seq<Handed>)
  {
    function SlotOf(k: Key): Slot { if k in slots then slots[k] else EMPTY_SLOT }

    function PhaseOf(t: Tid): Phase { if t in threads then threads[t] else Idle }

    function At(t: Tid, p: Phase): State { this.(threads := threads[t := p]) }

    function WithSlot(k: Key, slot: Slot): State { this.(slots := slots[k := slot]) }

    /** When the thread's last call for a token began. */
    function StartedAt(t: Tid): real { if t in started then started[t] else 0.0 }

    function Starting(t: Tid): State { this.(started := started[t := clock]) }

    function Handing(t: Tid, k: Key, call: Call, token: TokenState, asOf: real): State {
      this.(handed := handed + [Handed(k, call, token, StartedAt(t), asOf)])
    }
  }

  const INITIAL := State(0.0, map[], None, map[], map[], 0, map[], map[], {}, {}, [])

  /** What can happen next: time passes, the backend corrupts or evicts an entry, an idle thread starts a call,
      a thread takes its next own step, its store operation raises, with or without having taken effect, or the provider
      answers a waiting thread. */
  datatype Label =
    | Tick(elapsed: real)
    | CorruptEntry(key: Key)
    | Evict(key: Key)
    | StartGet(tid: Tid, key: Key)
    | StartRecover(tid: Tid, key: Key, rejected: string)
    | StartInvalidate(tid: Tid, key: Key)
    | Advance(tid: Tid)
    | StoreRaises(tid: Tid, committed: bool)
    | ReplyToken(tid: Tid, token: TokenState)
    | ReplyRejected(tid: Tid)
    | ReplyError(tid: Tid)

  predicate AwaitsReply(p: Phase) {
    p.Locked? && (p.step.Refreshing? || p.step.Generating?)
  }

  /** Nothing holds the thread up: it waits for no lock and no reply. */
  predicate CanAdvance(s: State, p: Phase) {
    match p
    case Idle => false
    case WantGuard(_, _) => s.guard.None?
    case WantLock(_, _, lock) => lock !in s.owner
    case Locked(_, _, _, step) => !AwaitsReply(p)
    case _ => true
  }

  /** The next own step of the thread is an operation of the store. */
  predicate AtStore(p: Phase) {
    || p.ReadStore? || p.HealUnlocked? || p.Deleting?
    || (p.Locked? && (p.step.GetStore? || p.step.GetHeal? || p.step.RecStore? || p.step.RecHeal? || p.step.Writing?))
  }

  predicate Enabled(s: State, l: Label) {
    match l
    case Tick(elapsed) => elapsed >= 0.0
    case CorruptEntry(_) => true
    case Evict(_) => true
    case StartGet(t, _) => s.PhaseOf(t) == Idle
    case StartRecover(t, _, _) => s.PhaseOf(t) == Idle
    case StartInvalidate(t, _) => s.PhaseOf(t) == Idle
    case Advance(t) => CanAdvance(s, s.PhaseOf(t))
    case StoreRaises(t, _) => AtStore(s.PhaseOf(t))
    // Access tokens are fresh: never issued and never presented before.
    case ReplyToken(t, token) => AwaitsReply(s.PhaseOf(t)) && token.access !in s.used && token.access !in s.rejected
    // Only a refresh can be rejected without ending the call.
    case ReplyRejected(t) => s.PhaseOf(t).Locked? && s.PhaseOf(t).step.Refreshing?
    case ReplyError(t) => AwaitsReply(s.PhaseOf(t))
  }

  // ----- Steps -----

  /** The token the entry gives, none for an absent one. */
  function CachedIn(e: Entry): Option<TokenState> {
    if e.Stored? then Some(e.token) else None
  }

  /** `_refresh_or_acquire`: a refresh if the cached token allows one, otherwise the credentials. */
  function Obtain(leeway: real, cached: Option<TokenState>, now: real): Step {
    if cached.Some? && cached.value.IsRefreshValid(now, leeway) then Refreshing(now) else Generating(now)
  }

  /** The decision under the lock. */
  function Decide(leeway: real, call: Call, cached: Option<TokenState>, now: real): Step {
    if cached.Some? && (call.Recover? ==> cached.value.access != call.rejected)
        && cached.value.IsAccessValid(now, leeway)
    then Leaving(Returned(cached.value, now))
    else Obtain(leeway, cached, now)
  }

  /** What a step inside the lock does to the key's slot. */
  function Effect(slot: Slot, step: Step): Slot {
    match step
    case GetHeal(_) => slot.Removed()
    case RecHeal => slot.Removed()
    case Writing(token, at) => slot.(entry := Stored(token), log := slot.log + [Issue(token, at, slot.deletions)])
    case _ => slot
  }

  /** The same for any phase at an operation of the store. */
  function EffectOf(slot: Slot, p: Phase): Slot {
    if p.HealUnlocked? || p.Deleting? then slot.Removed() else if p.Locked? then Effect(slot, p.step) else slot
  }

  /** One step inside the lock: what becomes of the key's slot, and the next step. */
  function InsideStep(leeway: real, slot: Slot, clock: real, call: Call, step: Step): (Slot, Step)
    requires !step.Refreshing? && !step.Generating? && !step.Leaving?
  {
    match step
    case GetClock => (slot, GetStore(clock))
    case GetStore(now) =>
      if slot.entry == Corrupt then (slot, GetHeal(now))
      else (slot, Decide(leeway, call, CachedIn(slot.entry), now))
    case GetHeal(now) => (Effect(slot, step), Decide(leeway, call, None, now))
    case RecStore =>
      if slot.entry == Corrupt then (slot, RecHeal)
      else (slot, RecClock(CachedIn(slot.entry)))
    case RecHeal => (Effect(slot, step), RecClock(None))
    case RecClock(cached) => (slot, Decide(leeway, call, cached, clock))
    case Writing(token, at) => (Effect(slot, step), Leaving(Returned(token, at)))
  }

  function LockedStep(leeway: real, s: State, t: Tid, p: Phase): State
    requires p.Locked? && !AwaitsReply(p)
  {
    if p.step.Leaving? then
      var left := s.(owner := s.owner - {p.lock}).At(t, Idle);
      if p.step.result.Returned? then left.Handing(t, p.key, p.call, p.step.result.token, p.step.result.asOf) else left
    else
      var (slot, step) := InsideStep(leeway, s.SlotOf(p.key), s.clock, p.call, p.step);
      s.WithSlot(p.key, slot).At(t, p.(step := step))
  }

  function AdvanceThread(leeway: real, s: State, t: Tid): State
    requires CanAdvance(s, s.PhaseOf(t))
  {
    var p := s.PhaseOf(t);
    match p
    case ReadClock(k) => s.At(t, ReadStore(k, s.clock))
    case ReadStore(k, now) =>
      var entry := s.SlotOf(k).entry;
      if entry == Corrupt then s.At(t, HealUnlocked(k))
      else if entry.Stored? && entry.token.IsAccessValid(now, leeway) then
        s.At(t, Idle).Handing(t, k, Get, entry.token, now)
      else s.At(t, WantGuard(k, Get))
    case HealUnlocked(k) => s.WithSlot(k, s.SlotOf(k).Removed()).At(t, WantGuard(k, Get))
    case Deleting(k) => s.WithSlot(k, s.SlotOf(k).Removed()).At(t, Idle)
    case WantGuard(k, call) => s.(guard := Some(t)).At(t, InGuard(k, call))
    case InGuard(k, call) =>
      // `setdefault(key, Lock())` makes a lock even when the key already has one.
      var locks := if k in s.locks then s.locks else s.locks[k := s.nextLock];
      s.(locks := locks, nextLock := s.nextLock + 1).At(t, LeaveGuard(k, call, locks[k]))
    case LeaveGuard(k, call, lock) => s.(guard := None).At(t, WantLock(k, call, lock))
    case WantLock(k, call, lock) =>
      s.(owner := s.owner[lock := t]).At(t, Locked(k, call, lock, if call == Get then GetClock else RecStore))
    case Locked(_, _, _, _) => LockedStep(leeway, s, t, p)
  }

  /** The exception leaves the call, and the lock on the way out. */
  function Raise(s: State, t: Tid, committed: bool): State
    requires AtStore(s.PhaseOf(t))
  {
    var p := s.PhaseOf(t);
    var stored := if committed then s.WithSlot(p.key, EffectOf(s.SlotOf(p.key), p)) else s;
    stored.At(t, if p.Locked? then p.(step := Leaving(RaisedError)) else Idle)
  }

  function Apply(leeway: real, s: State, l: Label): State
    requires Enabled(s, l)
  {
    match l
    case Tick(elapsed) => s.(clock := s.clock + elapsed)
    case CorruptEntry(k) => s.WithSlot(k, s.SlotOf(k).(entry := Corrupt))
    case Evict(k) => s.WithSlot(k, s.SlotOf(k).Removed())
    case StartGet(t, k) => s.Starting(t).At(t, ReadClock(k))
    case StartRecover(t, k, r) => s.Starting(t).(rejected := s.rejected + {r}).At(t, WantGuard(k, Recover(r)))
    case StartInvalidate(t, k) => s.At(t, Deleting(k))
    case Advance(t) => AdvanceThread(leeway, s, t)
    case StoreRaises(t, committed) => Raise(s, t, committed)
    case ReplyToken(t, token) =>
      s.(used := s.used + {token.access}).At(t, s.PhaseOf(t).(step := Writing(token, s.clock)))
    case ReplyRejected(t) => s.At(t, s.PhaseOf(t).(step := Generating(s.PhaseOf(t).step.now)))
    case ReplyError(t) => s.At(t, s.PhaseOf(t).(step := Leaving(RaisedError)))
  }

  // ----- Runs -----

  predicate ValidRun(leeway: real, s: State, labels: seq<Label>)
    decreases |labels|
  {
    labels == [] || (Enabled(s, labels[0]) && ValidRun(leeway, Apply(leeway, s, labels[0]), labels[1..]))
  }

  function Run(leeway: real, s: State, labels: seq<Label>): State
    requires ValidRun(leeway, s, labels)
    decreases |labels|
  {
    if labels == [] then s else Run(leeway, Apply(leeway, s, labels[0]), labels[1..])
  }
}
