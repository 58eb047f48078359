/** src/jibit/webhooks/base.py: validating, verifying and deduplicating one callback, and runs of callbacks. */
module Webhooks {
  import opened PyValues

  /** What the application's verifier does with the raw body and headers. */
  datatype Verifier = NoVerifier | Verdict(genuine: bool) | VerifierRaises

  /** What the application's key function does with the payload. */
  datatype KeyFunction = NoKeyFunction | KeyIs(key: string) | KeyRaises

  /** One delivery: the validated payload, or none if validation fails. */
  datatype Callback = Callback(payload: Option<PyValue>, verifier: Verifier, keyFunction: KeyFunction)
  {
    /** The payload is valid and the configured mechanism accepts it. */
    predicate Trusted() {
      payload.Some? && verifier == Verdict(true)
    }
  }

  datatype ParsedCallback = ParsedCallback(payload: PyValue, verified: bool, duplicate: bool)

  datatype Rejection = InvalidPayload | AuthenticityRejected | DeduplicationMisconfigured | DeduplicationFailed

  /** How a claim goes wrong, if it does: before the key is recorded, or after. */
  datatype ClaimFault = NoFault | RaisesBeforeClaim | RaisesAfterClaim

  /** The keys claimed so far, and how often `claim` was called. */
  datatype Claims = Claims(keys: set<string>, calls: nat)

  /** An atomic first-claim store that may fail on any call. */
  class DeduplicationStore {
    const faults: nat -> ClaimFault
    var keys: set<string>
    var calls: nat

    constructor (faults: nat -> ClaimFault)
      ensures this.faults == faults && State() == Claims({}, 0)
    {
      this.faults, keys, calls := faults, {}, 0;
    }

    ghost function State(): Claims
      reads this
    {
      Claims(keys, calls)
    }

    /** None is the exception. */
    method Claim(key: string) returns (first: Option<bool>)
      modifies this
      ensures (State(), first) == ClaimSpec(faults, old(State()), key)
    {
      var fault := faults(calls);
      calls := calls + 1;
      if fault.RaisesBeforeClaim? {
        return None;
      }
      var isNew := key !in keys;
      keys := keys + {key};
      if fault.RaisesAfterClaim? {
        return None;
      }
      return Some(isNew);
    }
  }

  function ClaimSpec(faults: nat -> ClaimFault, c: Claims, key: string): (Claims, Option<bool>) {
    match faults(c.calls)
    case RaisesBeforeClaim => (Claims(c.keys, c.calls + 1), None)
    case RaisesAfterClaim => (Claims(c.keys + {key}, c.calls + 1), None)
    case NoFault => (Claims(c.keys + {key}, c.calls + 1), Some(key !in c.keys))
  }

  function CallbackSpec(faults: nat -> ClaimFault, c: Claims,
      callback: Callback): (Claims, Result<ParsedCallback, Rejection>) {
    if callback.payload.None? then (c, Raised(InvalidPayload))
    else if !callback.Trusted() then (c, Raised(AuthenticityRejected))
    else
      match callback.keyFunction
      case NoKeyFunction => (c, Raised(DeduplicationMisconfigured))
      case KeyRaises => (c, Raised(DeduplicationFailed))
      case KeyIs(key) =>
        var (c', first) := ClaimSpec(faults, c, key);
        (c', if first.None? then Raised(DeduplicationFailed)
             else Ok(ParsedCallback(callback.payload.value, true, !first.value)))
  }

  /** What parsing one callback logs: that it arrived, and why it was turned away. */
  datatype CallbackEvent = Received(correlationId: string) | Rejected(correlationId: string, reason: Rejection)

  class CallbackLog {
    var events: seq<CallbackEvent>

    constructor ()
      ensures events == []
    {
      events := [];
    }

    method Emit(e: CallbackEvent)
      modifies this
      ensures events == old(events) + [e]
    {
      events := events + [e];
    }
  }

  function EventsFor(correlationId: string, r: Result<ParsedCallback, Rejection>): seq<CallbackEvent> {
    [Received(correlationId)] + if r.Raised? then [Rejected(correlationId, r.error)] else []
  }

  /** `_log_rejection` */
  method LogRejection(log: CallbackLog?, correlationId: string, reason: Rejection)
    modifies log
    ensures log != null ==> log.events == old(log.events) + [Rejected(correlationId, reason)]
  {
    if log != null {
      log.Emit(Rejected(correlationId, reason));
    }
  }

  /** Without a store no callback counts as a duplicate; with one, the specification decides. Every callback is logged
      as received, and every rejection with its reason. */
  method ParseCallback(callback: Callback, store: DeduplicationStore?, log: CallbackLog?, correlationId: string)
      returns (r: Result<ParsedCallback, Rejection>)
    modifies store, log
    ensures store != null ==> (store.State(), r) == CallbackSpec(store.faults, old(store.State()), callback)
    ensures store == null ==>
      r == if callback.payload.None? then Raised(InvalidPayload)
           else if callback.Trusted() then Ok(ParsedCallback(callback.payload.value, true, false))
           else Raised(AuthenticityRejected)
    ensures log != null ==> log.events == old(log.events) + EventsFor(correlationId, r)
  {
    if log != null {
      log.Emit(Received(correlationId));
    }
    if callback.payload.None? {
      LogRejection(log, correlationId, InvalidPayload);
      return Raised(InvalidPayload);
    }
    var verified := callback.verifier.Verdict? && callback.verifier.genuine;
    if !verified {
      LogRejection(log, correlationId, AuthenticityRejected);
      return Raised(AuthenticityRejected);
    }
    var duplicate := false;
    if store != null {
      if callback.keyFunction.NoKeyFunction? {
        LogRejection(log, correlationId, DeduplicationMisconfigured);
        return Raised(DeduplicationMisconfigured);
      }
      if callback.keyFunction.KeyRaises? {
        LogRejection(log, correlationId, DeduplicationFailed);
        return Raised(DeduplicationFailed);
      }
      var first := store.Claim(callback.keyFunction.key);
      if first.None? {
        LogRejection(log, correlationId, DeduplicationFailed);
        return Raised(DeduplicationFailed);
      }
      duplicate := !first.value;
    }
    return Ok(ParsedCallback(callback.payload.value, true, duplicate));
  }

  /** One callback against the store, case by case: an invalid payload and an unverified one are turned away before
      the key is asked for; a key function that is missing or raises, and a claim that raises, reject it; otherwise
      it is passed on, verified, with its own payload, and as a duplicate exactly if its key was claimed before. */
  lemma CallbackByItsParts(faults: nat -> ClaimFault, c: Claims, callback: Callback)
    ensures
      var (c', r) := CallbackSpec(faults, c, callback);
      if callback.payload.None? then c' == c && r == Raised(InvalidPayload)
      else if callback.verifier != Verdict(true) then c' == c && r == Raised(AuthenticityRejected)
      else if callback.keyFunction.NoKeyFunction? then c' == c && r == Raised(DeduplicationMisconfigured)
      else if callback.keyFunction.KeyRaises? then c' == c && r == Raised(DeduplicationFailed)
      else
        var key := callback.keyFunction.key;
        var fault := faults(c.calls);
        && c'.calls == c.calls + 1
        && c'.keys == (if fault == RaisesBeforeClaim then c.keys else c.keys + {key})
        && (fault != NoFault ==> r == Raised(DeduplicationFailed))
        && (fault == NoFault ==> r.Ok? && r.value.payload == callback.payload.value && r.value.verified
                                 && (r.value.duplicate <==> key in c.keys))
  {
  }

  // ----- Runs of callbacks against one store -----

  function RunSpec(faults: nat -> ClaimFault, c: Claims,
      callbacks: seq<Callback>): (r: (Claims, seq<Result<ParsedCallback, Rejection>>))
    ensures |r.1| == |callbacks|
    decreases |callbacks|
  {
    if callbacks == [] then (c, [])
    else
      var (c', first) := CallbackSpec(faults, c, callbacks[0]);
      var (c'', rest) := RunSpec(faults, c', callbacks[1..]);
      (c'', [first] + rest)
  }

  /** The application would process this delivery of `key`. */
  predicate Processes(callback: Callback, r: Result<ParsedCallback, Rejection>, key: string) {
    callback.keyFunction == KeyIs(key) && r.Ok? && !r.value.duplicate
  }

  /** A key already claimed is never processed again, and claimed keys stay claimed. */
  lemma {:induction false} ClaimedIsNotProcessed(faults: nat -> ClaimFault, c: Claims, callbacks: seq<Callback>,
      key: string)
    requires key in c.keys
    ensures var (c', results) := RunSpec(faults, c, callbacks);
      key in c'.keys && forall i :: 0 <= i < |callbacks| ==> !Processes(callbacks[i], results[i], key)
    decreases |callbacks|
  {
    if callbacks != [] {
      var (c1, first) := CallbackSpec(faults, c, callbacks[0]);
      ClaimedIsNotProcessed(faults, c1, callbacks[1..], key);
      var results := RunSpec(faults, c, callbacks).1;
      forall i | 0 <= i < |callbacks| ensures !Processes(callbacks[i], results[i], key) {
        if i > 0 {
          assert callbacks[i] == callbacks[1..][i - 1];
        }
      }
    }
  }

  /** Over any sequence of deliveries, with any failures of the store, each key is processed at most once. */
  lemma {:induction false} ProcessedAtMostOnce(faults: nat -> ClaimFault, c: Claims, callbacks: seq<Callback>,
      key: string, i: nat, j: nat)
    requires i < j < |callbacks|
    ensures var results := RunSpec(faults, c, callbacks).1;
      !(Processes(callbacks[i], results[i], key) && Processes(callbacks[j], results[j], key))
    decreases |callbacks|
  {
    var (c1, first) := CallbackSpec(faults, c, callbacks[0]);
    if i > 0 {
      ProcessedAtMostOnce(faults, c1, callbacks[1..], key, i - 1, j - 1);
    } else if Processes(callbacks[0], first, key) {
      ClaimedIsNotProcessed(faults, c1, callbacks[1..], key);
    }
  }

  /** A key becomes claimed only through a delivery that is valid and verified; in particular rejected ones claim
      nothing. */
  lemma {:induction false} OnlyTrustedCallbacksClaim(faults: nat -> ClaimFault, c: Claims, callbacks: seq<Callback>,
      key: string)
    requires key !in c.keys
    ensures key in RunSpec(faults, c, callbacks).0.keys ==>
      exists i :: 0 <= i < |callbacks| && callbacks[i].Trusted() && callbacks[i].keyFunction == KeyIs(key)
    decreases |callbacks|
  {
    if callbacks != [] {
      var c1 := CallbackSpec(faults, c, callbacks[0]).0;
      if key in c1.keys {
        assert callbacks[0].Trusted();
      } else {
        OnlyTrustedCallbacksClaim(faults, c1, callbacks[1..], key);
        var tail := callbacks[1..];
        if i :| 0 <= i < |tail| && tail[i].Trusted() && tail[i].keyFunction == KeyIs(key) {
          assert callbacks[i + 1].Trusted();
        }
      }
    }
  }

  // ----- Exactly which deliveries are processed -----

  /** The delivery reaches the store. */
  predicate Claiming(callback: Callback) {
    callback.Trusted() && callback.keyFunction.KeyIs?
  }

  /** How many of the first `n` deliveries reach the store. */
  function ClaimsBefore(callbacks: seq<Callback>, n: nat): nat
    requires n <= |callbacks|
  {
    if n == 0 then 0 else ClaimsBefore(callbacks, n - 1) + (if Claiming(callbacks[n - 1]) then 1 else 0)
  }

  /** What the store does on the claim of delivery `i`, if that delivery reaches it. */
  function FaultOf(faults: nat -> ClaimFault, c: Claims, callbacks: seq<Callback>, i: nat): ClaimFault
    requires i < |callbacks|
  {
    faults(c.calls + ClaimsBefore(callbacks, i))
  }

  /** A trusted delivery of this key. */
  predicate Delivers(callback: Callback, key: string) {
    callback.Trusted() && callback.keyFunction == KeyIs(key)
  }

  lemma {:induction false} ClaimsBeforeTail(callbacks: seq<Callback>, n: nat)
    requires 0 < n <= |callbacks|
    ensures ClaimsBefore(callbacks, n) == (if Claiming(callbacks[0]) then 1 else 0)
        + ClaimsBefore(callbacks[1..], n - 1)
  {
    if n > 1 {
      ClaimsBeforeTail(callbacks, n - 1);
    }
  }

  /** Dropping the first delivery leaves the faults of the others in place. */
  lemma FaultOfTail(faults: nat -> ClaimFault, c: Claims, callbacks: seq<Callback>, i: nat)
    requires 0 < i < |callbacks|
    ensures FaultOf(faults, c, callbacks, i)
         == FaultOf(faults, CallbackSpec(faults, c, callbacks[0]).0, callbacks[1..], i - 1)
  {
    ClaimsBeforeTail(callbacks, i);
  }

  /** Over any sequence of deliveries and whatever the store does, a delivery of a key is processed exactly when it is
      trusted, the key was not claimed before the run, its own claim succeeds, and the store recorded nothing for any
      earlier trusted delivery of the key: each of those claims raised before recording. */
  lemma {:induction false} ProcessedIff(faults: nat -> ClaimFault, c: Claims, callbacks: seq<Callback>, key: string,
      i: nat)
    requires i < |callbacks| && callbacks[i].keyFunction == KeyIs(key)
    ensures
      Processes(callbacks[i], RunSpec(faults, c, callbacks).1[i], key) <==>
        && callbacks[i].Trusted()
        && key !in c.keys
        && FaultOf(faults, c, callbacks, i) == NoFault
        && forall j: nat :: j < i && Delivers(callbacks[j], key) ==>
            FaultOf(faults, c, callbacks, j) == RaisesBeforeClaim
    decreases |callbacks|
  {
    if i > 0 {
      var c1 := CallbackSpec(faults, c, callbacks[0]).0;
      var tail := callbacks[1..];
      ProcessedIff(faults, c1, tail, key, i - 1);
      FaultOfTail(faults, c, callbacks, i);
      assert key in c1.keys <==>
        key in c.keys || (Delivers(callbacks[0], key) && FaultOf(faults, c, callbacks, 0) != RaisesBeforeClaim);
      forall j: nat | 0 < j < i
        ensures callbacks[j] == tail[j - 1] && FaultOf(faults, c, callbacks, j) == FaultOf(faults, c1, tail, j - 1)
      {
        FaultOfTail(faults, c, callbacks, j);
      }
      forall j: nat | j < i - 1
        ensures callbacks[j + 1] == tail[j] && FaultOf(faults, c, callbacks, j + 1) == FaultOf(faults, c1, tail, j)
      {
        FaultOfTail(faults, c, callbacks, j + 1);
      }
    }
  }

  /** With a store that does not fail, a delivery is processed exactly when it is the first trusted one of its
      unclaimed key. */
  lemma ProcessedIffFirst(faults: nat -> ClaimFault, c: Claims, callbacks: seq<Callback>, key: string, i: nat)
    requires forall n :: faults(n) == NoFault
    requires i < |callbacks| && callbacks[i].keyFunction == KeyIs(key)
    ensures
      Processes(callbacks[i], RunSpec(faults, c, callbacks).1[i], key) <==>
        callbacks[i].Trusted() && key !in c.keys && forall j :: 0 <= j < i ==> !Delivers(callbacks[j], key)
  {
    ProcessedIff(faults, c, callbacks, key, i);
  }

  /** A store that records the key of any delivery and then raises leaves that delivery and every later one of the key
      unprocessed. */
  lemma CommittedFailureIsNeverProcessed(faults: nat -> ClaimFault, c: Claims, callbacks: seq<Callback>, key: string,
      i: nat, j: nat)
    requires i <= j < |callbacks| && Delivers(callbacks[i], key)
    requires FaultOf(faults, c, callbacks, i) == RaisesAfterClaim
    ensures !Processes(callbacks[j], RunSpec(faults, c, callbacks).1[j], key)
  {
    if callbacks[j].keyFunction == KeyIs(key) {
      ProcessedIff(faults, c, callbacks, key, j);
    }
  }

  /** A key that some trusted delivery carries goes unprocessed in the whole run exactly when it was claimed before,
      or the first of its claims that does not raise before recording raises after it, or there is no such claim. */
  lemma NeverProcessedIff(faults: nat -> ClaimFault, c: Claims, callbacks: seq<Callback>, key: string)
    ensures
      (forall i :: 0 <= i < |callbacks| ==> !Processes(callbacks[i], RunSpec(faults, c, callbacks).1[i], key)) <==>
        || key in c.keys
        || forall i: nat :: i < |callbacks| && FirstRecorded(faults, c, callbacks, key, i) ==>
             FaultOf(faults, c, callbacks, i) == RaisesAfterClaim
  {
    var results := RunSpec(faults, c, callbacks).1;
    forall i: nat | i < |callbacks|
      ensures Processes(callbacks[i], results[i], key) <==>
        key !in c.keys && FirstRecorded(faults, c, callbacks, key, i) && FaultOf(faults, c, callbacks, i) == NoFault
    {
      if callbacks[i].keyFunction == KeyIs(key) {
        ProcessedIff(faults, c, callbacks, key, i);
      }
    }
    hide RunSpec, FirstRecorded;
  }

  /** Delivery `i` is the first trusted one of the key on whose claim the store does not raise before recording. */
  predicate FirstRecorded(faults: nat -> ClaimFault, c: Claims, callbacks: seq<Callback>, key: string, i: nat)
    requires i < |callbacks|
  {
    && Delivers(callbacks[i], key)
    && FaultOf(faults, c, callbacks, i) != RaisesBeforeClaim
    && forall j: nat :: j < i && Delivers(callbacks[j], key) ==> FaultOf(faults, c, callbacks, j) == RaisesBeforeClaim
  }
}
