/**
 * The telemetry store (`telemetryDB`): the latest record per device key.
 * `putTelemetry` stores a record that bound from the request body and answers
 * 200, or answers 400 and stores nothing; `getTelemetry` answers with the
 * stored record or with 404. The record itself is opaque here (type T).
 */
module Telemetry {

  const StatusOK: int := 200
  const StatusBadRequest: int := 400
  const StatusNotFound: int := 404

  /** The outcome of binding the request body: a record, or the binder's error message. */
  datatype Bind<T> = Bound(data: T) | BindFailed(reason: string)

  /** The answer to a put: the stored record echoed back, or the bind error. */
  datatype PutReply<T> = Saved(data: T) | Rejected(reason: string) {
    function Code(): int {
      if Saved? then StatusOK else StatusBadRequest
    }
  }

  /** The answer to a get: the stored record, or "data not found!". */
  datatype GetReply<T> = Found(data: T) | NotFound {
    function Code(): int {
      if Found? then StatusOK else StatusNotFound
    }
  }

  /** The store after one put. */
  function Upsert<T>(db: map<string, T>, key: string, input: Bind<T>): (db': map<string, T>)
    ensures input.Bound? ==> key in db' && db'[key] == input.data
    ensures input.BindFailed? ==> db' == db
    ensures db'.Keys == if input.Bound? then db.Keys + {key} else db.Keys
    ensures forall k :: k in db && k != key ==> db'[k] == db[k]
  {
    match input
    case Bound(data) => db[key := data]
    case BindFailed(_) => db
  }

  /** The reply to a put. */
  function PutAnswer<T>(input: Bind<T>): (reply: PutReply<T>)
    ensures reply.Code() == StatusOK <==> input.Bound?
    ensures reply.Code() == StatusBadRequest <==> input.BindFailed?
    ensures input.Bound? ==> reply == Saved(input.data)
    ensures input.BindFailed? ==> reply == Rejected(input.reason)
  {
    match input
    case Bound(data) => Saved(data)
    case BindFailed(reason) => Rejected(reason)
  }

  /** The reply to a get: a record only when one is stored under the key. */
  function Lookup<T>(db: map<string, T>, key: string): (reply: GetReply<T>)
    ensures reply.Found? <==> key in db
    ensures reply.Found? ==> reply.data == db[key]
    ensures reply.Code() == StatusNotFound <==> key !in db
  {
    if key in db then Found(db[key]) else NotFound
  }

  /** The store after a sequence of puts, applied in order. */
  function ApplyPuts<T>(db: map<string, T>, puts: seq<(string, Bind<T>)>): (db': map<string, T>)
    ensures db.Keys <= db'.Keys
    decreases |puts|
  {
    if puts == [] then db
    else
      var (key, input) := puts[|puts| - 1];
      Upsert(ApplyPuts(db, puts[..|puts| - 1]), key, input)
  }

  /** Whether a put is one that stores a record under `key`. */
  predicate StoresUnder<T>(put: (string, Bind<T>), key: string) {
    put.0 == key && put.1.Bound?
  }

  /**
   * Last write wins: after a sequence of puts, a key holds the record of the
   * last put that stored under it, whatever came before and whatever failed
   * to bind after it.
   */
  lemma {:induction false} LookupAfterPuts<T>(db: map<string, T>, puts: seq<(string, Bind<T>)>, key: string, i: nat)
    requires i < |puts| && StoresUnder(puts[i], key)
    requires forall j :: i < j < |puts| ==> !StoresUnder(puts[j], key)
    ensures Lookup(ApplyPuts(db, puts), key) == Found(puts[i].1.data)
    decreases |puts|
  {
    var prefix := puts[..|puts| - 1];
    if i < |puts| - 1 {
      assert prefix[i] == puts[i];
      assert forall j :: i < j < |prefix| ==> prefix[j] == puts[j];
      LookupAfterPuts(db, prefix, key, i);
    }
  }

  /** A key that no put stored under answers as it did before the puts. */
  lemma {:induction false} LookupUntouched<T>(db: map<string, T>, puts: seq<(string, Bind<T>)>, key: string)
    requires forall j :: 0 <= j < |puts| ==> !StoresUnder(puts[j], key)
    ensures Lookup(ApplyPuts(db, puts), key) == Lookup(db, key)
    decreases |puts|
  {
    if puts != [] {
      var prefix := puts[..|puts| - 1];
      assert forall j :: 0 <= j < |prefix| ==> prefix[j] == puts[j];
      LookupUntouched(db, prefix, key);
    }
  }

  /** From an empty store, a key that no put stored under is not found: no default record is made up. */
  lemma {:induction false} NeverStoredIsNotFound<T>(puts: seq<(string, Bind<T>)>, key: string)
    requires forall j :: 0 <= j < |puts| ==> !StoresUnder(puts[j], key)
    ensures Lookup(ApplyPuts(map[], puts), key) == NotFound
  {
    LookupUntouched(map[], puts, key);
  }

  /** A rejected put after a stored one leaves the stored record in place. */
  lemma {:induction false} RejectedPutKeepsRecord<T>(db: map<string, T>, key: string, data: T, reason: string)
    ensures Lookup(ApplyPuts(db, [(key, Bound(data)), (key, BindFailed(reason))]), key) == Found(data)
  {
    LookupAfterPuts(db, [(key, Bound(data)), (key, BindFailed(reason))], key, 0);
  }

  /** The global `telemetryDB`. */
  class TelemetryStore<T> {
    var db: map<string, T>

    /** `make(map[string]TelemetryData)`: the store starts empty. */
    constructor()
      ensures db == map[]
    {
      db := map[];
    }

    /** `putTelemetry`: stores the record on a successful bind and replies 200, else replies 400. */
    method Put(key: string, input: Bind<T>) returns (reply: PutReply<T>)
      modifies this
      ensures db == Upsert(old(db), key, input)
      ensures reply == PutAnswer(input)
      ensures input.Bound? ==> Get(key) == Found(input.data)
      ensures forall k :: k != key ==> Get(k) == old(Get(k))
    {
      match input {
        case Bound(data) =>
          db := db[key := data];
          reply := Saved(data);
        case BindFailed(reason) =>
          reply := Rejected(reason);
      }
    }

    /** `getTelemetry`: the stored record, or not found. */
    function Get(key: string): (reply: GetReply<T>)
      reads this
      ensures reply.Found? <==> key in db
      ensures reply.Found? ==> reply.data == db[key]
    {
      Lookup(db, key)
    }
  }
}
