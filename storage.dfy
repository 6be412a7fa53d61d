/** One in-memory record store: a list of records in insertion order and the
    counter that supplies the next id. The API keeps two of them, one for users
    and one for missions; they run the same code over different record types. */
module Storage {
  import opened Wrappers

  /** A stored record: the id the store assigned and the payload's other fields. */
  datatype Record<T> = Record(id: int, fields: T)

  /** A request payload. It may carry an id of its own; the store always overwrites it. */
  datatype Body<T> = Body(id: Option<int>, fields: T)

  /** The abstract state of a store: its records in list order and the next id. */
  datatype Table<T> = Table(records: seq<Record<T>>, nextId: int)

  /** The five operations a client can request of a store. */
  datatype Request<T> =
    | Post(body: Body<T>)
    | ListAll
    | GetOne(id: int)
    | Put(id: int, body: Body<T>)
    | DeleteOne(id: int)

  /** The state of a store when the process starts: no records, next id 1. */
  function Empty<T>(): Table<T>
  {
    Table([], 1)
  }

  /** The store invariant: the counter is positive, every stored id lies in
      [1, nextId), and ids strictly increase along the list, so they are unique. */
  ghost predicate Invariant<T>(t: Table<T>)
  {
    && 1 <= t.nextId
    && (forall i :: 0 <= i < |t.records| ==> 1 <= t.records[i].id < t.nextId)
    && (forall i, j :: 0 <= i < j < |t.records| ==> t.records[i].id < t.records[j].id)
  }

  /** The position of the first record whose id is `id`, as a front-to-back scan finds it. */
  function FirstIndex<T>(s: seq<Record<T>>, id: int): (r: Option<nat>)
    ensures r.Some? ==> r.value < |s| && s[r.value].id == id
    ensures r.Some? ==> forall j :: 0 <= j < r.value ==> s[j].id != id
    ensures r.None? ==> forall j :: 0 <= j < |s| ==> s[j].id != id
  {
    if s == [] then None
    else if s[0].id == id then Some(0)
    else match FirstIndex(s[1..], id)
      case None => None
      case Some(k) => Some(k + 1)
  }

  /** The record a lookup by id yields: the first record with that id, or NotFound. */
  function Lookup<T>(s: seq<Record<T>>, id: int): (r: Result<Record<T>>)
    ensures r.Ok? <==> exists k :: 0 <= k < |s| && s[k].id == id
    ensures r.Ok? ==> r.value.id == id && r.value in s
  {
    match FirstIndex(s, id)
    case None => NotFound
    case Some(i) => Ok(s[i])
  }

  /** The state after serving one request. Only a create moves the counter;
      the list grows by one on a create, shrinks by one on a delete that finds
      its id, and keeps its length otherwise; an update or delete that finds
      nothing leaves the state as it was. */
  function Apply<T>(t: Table<T>, req: Request<T>): (r: Table<T>)
    ensures r.nextId == t.nextId + (if req.Post? then 1 else 0)
    ensures |r.records| == |t.records|
      + (if req.Post? then 1 else 0)
      - (if req.DeleteOne? && Lookup(t.records, req.id).Ok? then 1 else 0)
    ensures req.Post? ==> r.records[..|t.records|] == t.records
    ensures req.Post? ==> r.records[|t.records|] == Record(t.nextId, req.body.fields)
    ensures (req.Put? || req.DeleteOne?) && Lookup(t.records, req.id) == NotFound ==> r == t
  {
    match req
    case Post(body) => Table(t.records + [Record(t.nextId, body.fields)], t.nextId + 1)
    case ListAll => t
    case GetOne(_) => t
    case Put(id, body) =>
      (match FirstIndex(t.records, id)
       case None => t
       case Some(i) => t.(records := t.records[i := Record(id, body.fields)]))
    case DeleteOne(id) =>
      (match FirstIndex(t.records, id)
       case None => t
       case Some(i) => t.(records := t.records[..i] + t.records[i + 1..]))
  }

  /** Removing position i keeps the other records, in order. */
  lemma RemoveAt<T>(s: seq<Record<T>>, i: nat, r: seq<Record<T>>)
    requires i < |s| && r == s[..i] + s[i + 1..]
    ensures |r| == |s| - 1
    ensures forall j :: 0 <= j < i ==> r[j] == s[j]
    ensures forall j :: i <= j < |r| ==> r[j] == s[j + 1]
  {
    forall j | i <= j < |r|
      ensures r[j] == s[j + 1]
    {
      assert r[j] == s[i + 1..][j - i];
    }
  }

  /** Every request keeps the store invariant. */
  lemma ApplyKeepsInvariant<T>(t: Table<T>, req: Request<T>)
    requires Invariant(t)
    ensures Invariant(Apply(t, req))
  {
    match req
    case DeleteOne(id) =>
      if FirstIndex(t.records, id).Some? {
        var i := FirstIndex(t.records, id).value;
        RemoveAt(t.records, i, t.records[..i] + t.records[i + 1..]);
      }
    case _ =>
  }

  /** Under the invariant ids are unique, so looking up a stored record's id
      yields exactly that record. */
  lemma LookupFindsStored<T>(t: Table<T>, k: nat)
    requires Invariant(t) && k < |t.records|
    ensures Lookup(t.records, t.records[k].id) == Ok(t.records[k])
  {
    var i := FirstIndex(t.records, t.records[k].id).value;
    assert !(i < k) && !(k < i);
  }

  /** A get right after a create yields the created record. */
  lemma GetAfterCreate<T>(t: Table<T>, body: Body<T>)
    requires Invariant(t)
    ensures Lookup(Apply(t, Post(body)).records, t.nextId) == Ok(Record(t.nextId, body.fields))
  {
    var s := Apply(t, Post(body)).records;
    ApplyKeepsInvariant(t, Post(body));
    LookupFindsStored(Apply(t, Post(body)), |s| - 1);
  }

  /** A get right after a successful update yields exactly the new payload under
      the requested id: no field of the old record survives. */
  lemma GetAfterUpdate<T>(t: Table<T>, id: int, body: Body<T>)
    requires Invariant(t) && Lookup(t.records, id).Ok?
    ensures Lookup(Apply(t, Put(id, body)).records, id) == Ok(Record(id, body.fields))
  {
    var i := FirstIndex(t.records, id).value;
    ApplyKeepsInvariant(t, Put(id, body));
    LookupFindsStored(Apply(t, Put(id, body)), i);
  }

  /** A get right after a delete of the same id yields NotFound. */
  lemma GetAfterDelete<T>(t: Table<T>, id: int)
    requires Invariant(t)
    ensures Lookup(Apply(t, DeleteOne(id)).records, id) == NotFound
  {
    match FirstIndex(t.records, id)
    case None =>
    case Some(i) =>
      var s := Apply(t, DeleteOne(id)).records;
      RemoveAt(t.records, i, s);
      forall j | 0 <= j < |s|
        ensures s[j].id != id
      {
        if j < i {
          assert s[j] == t.records[j];
        } else {
          assert s[j] == t.records[j + 1];
        }
      }
  }

  /** One store. `records` is the list the source appends to, assigns into and
      pops from; `nextId` is its module-level id counter. */
  class Store<T> {
    var records: seq<Record<T>>
    var nextId: int

    ghost function State(): Table<T>
      reads this
    {
      Table(records, nextId)
    }

    ghost predicate Valid()
      reads this
    {
      Invariant(State())
    }

    /** An empty store whose counter starts at 1. */
    constructor ()
      ensures Valid()
      ensures State() == Empty()
    {
      records := [];
      nextId := 1;
    }

    /** Create: the payload gets the counter's value as its id, whatever id it
        carried, is appended, and the counter moves on by one. */
    method Create(body: Body<T>) returns (r: Record<T>)
      requires Valid()
      modifies this
      ensures Valid()
      ensures r == Record(old(nextId), body.fields)
      ensures records == old(records) + [r]
      ensures nextId == old(nextId) + 1
      ensures State() == Apply(old(State()), Post(body))
    {
      r := Record(nextId, body.fields);
      records := records + [r];
      nextId := nextId + 1;
      ApplyKeepsInvariant(old(State()), Post(body));
    }

    /** List: the records in their current order. */
    method List() returns (s: seq<Record<T>>)
      ensures s == records
    {
      s := records;
    }

    /** The scan that get, update and delete share: the position of the first
        record whose id is `id`, or None when the scan runs off the end. */
    method Locate(id: int) returns (pos: Option<nat>)
      ensures pos == FirstIndex(records, id)
    {
      var i := 0;
      while i < |records|
        invariant 0 <= i <= |records|
        invariant forall j :: 0 <= j < i ==> records[j].id != id
      {
        if records[i].id == id {
          return Some(i);
        }
        i := i + 1;
      }
      return None;
    }

    /** Get: the record with that id, or NotFound; nothing is modified. */
    method Get(id: int) returns (r: Result<Record<T>>)
      ensures r == Lookup(records, id)
    {
      var pos := Locate(id);
      match pos
      case None => r := NotFound;
      case Some(i) => r := Ok(records[i]);
    }

    /** Update: the matched record is replaced in place by the payload, whose id
        is forced to the requested one; without a match the store is untouched. */
    method Update(id: int, body: Body<T>) returns (r: Result<Record<T>>)
      requires Valid()
      modifies this
      ensures Valid()
      ensures nextId == old(nextId)
      ensures match FirstIndex(old(records), id)
        case None => r == NotFound && records == old(records)
        case Some(i) =>
          && r == Ok(Record(id, body.fields))
          && records == old(records)[i := Record(id, body.fields)]
      ensures State() == Apply(old(State()), Put(id, body))
    {
      var pos := Locate(id);
      match pos
      case None =>
        r := NotFound;
      case Some(i) =>
        r := Ok(Record(id, body.fields));
        records := records[i := Record(id, body.fields)];
      ApplyKeepsInvariant(old(State()), Put(id, body));
    }

    /** Delete: the matched record is popped and returned; the others keep
        their order and ids; without a match the store is untouched. */
    method Delete(id: int) returns (r: Result<Record<T>>)
      requires Valid()
      modifies this
      ensures Valid()
      ensures nextId == old(nextId)
      ensures match FirstIndex(old(records), id)
        case None => r == NotFound && records == old(records)
        case Some(i) =>
          && r == Ok(old(records)[i])
          && records == old(records)[..i] + old(records)[i + 1..]
      ensures State() == Apply(old(State()), DeleteOne(id))
    {
      var pos := Locate(id);
      match pos
      case None =>
        r := NotFound;
      case Some(i) =>
        r := Ok(records[i]);
        records := records[..i] + records[i + 1..];
      ApplyKeepsInvariant(old(State()), DeleteOne(id));
    }
  }
}
