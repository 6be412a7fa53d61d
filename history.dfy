/** Whole histories of requests served by one store, starting from any valid
    state: what the counter, the list length and the set of live ids become. */
module History {
  import opened Wrappers
  import opened Storage

  /** The state after serving `reqs` in order. */
  function Run<T>(t: Table<T>, reqs: seq<Request<T>>): Table<T>
    decreases |reqs|
  {
    if reqs == [] then t else Run(Apply(t, reqs[0]), reqs[1..])
  }

  /** The number of create requests in `reqs`. */
  function Creates<T>(reqs: seq<Request<T>>): nat
    decreases |reqs|
  {
    if reqs == [] then 0
    else (if reqs[0].Post? then 1 else 0) + Creates(reqs[1..])
  }

  /** The number of delete requests in `reqs` that find their id when served from `t`. */
  function Deletions<T>(t: Table<T>, reqs: seq<Request<T>>): nat
    decreases |reqs|
  {
    if reqs == [] then 0
    else
      (if reqs[0].DeleteOne? && Lookup(t.records, reqs[0].id).Ok? then 1 else 0)
      + Deletions(Apply(t, reqs[0]), reqs[1..])
  }

  /** The invariant holds after any history. */
  lemma {:induction false} RunKeepsInvariant<T>(t: Table<T>, reqs: seq<Request<T>>)
    requires Invariant(t)
    ensures Invariant(Run(t, reqs))
    decreases |reqs|
  {
    if reqs != [] {
      ApplyKeepsInvariant(t, reqs[0]);
      RunKeepsInvariant(Apply(t, reqs[0]), reqs[1..]);
    }
  }

  /** The counter moves on by exactly one per create and by nothing else. */
  lemma {:induction false} RunCounter<T>(t: Table<T>, reqs: seq<Request<T>>)
    ensures Run(t, reqs).nextId == t.nextId + Creates(reqs)
    decreases |reqs|
  {
    if reqs != [] {
      RunCounter(Apply(t, reqs[0]), reqs[1..]);
    }
  }

  /** The list grows by one per create and shrinks by one per delete that finds its id. */
  lemma {:induction false} RunLength<T>(t: Table<T>, reqs: seq<Request<T>>)
    ensures |Run(t, reqs).records| == |t.records| + Creates(reqs) - Deletions(t, reqs)
    decreases |reqs|
  {
    if reqs != [] {
      RunLength(Apply(t, reqs[0]), reqs[1..]);
      if reqs[0].DeleteOne? && FirstIndex(t.records, reqs[0].id).Some? {
        var i := FirstIndex(t.records, reqs[0].id).value;
        RemoveAt(t.records, i, Apply(t, reqs[0]).records);
      }
    }
  }

  /** From process start, the list's length is the number of creates minus the
      number of successful deletes. */
  lemma ListLengthFromStart<T>(reqs: seq<Request<T>>)
    ensures |Run(Empty(), reqs).records| == Creates(reqs) - Deletions(Empty(), reqs)
  {
    RunLength(Empty(), reqs);
  }

  /** An id below the counter that no record carries stays absent for good:
      creates only hand out ids at or above the counter. */
  lemma {:induction false} StaysAbsent<T>(t: Table<T>, id: int, reqs: seq<Request<T>>)
    requires Invariant(t) && id < t.nextId && Lookup(t.records, id) == NotFound
    ensures Lookup(Run(t, reqs).records, id) == NotFound
    decreases |reqs|
  {
    if reqs != [] {
      var t' := Apply(t, reqs[0]);
      ApplyKeepsInvariant(t, reqs[0]);
      if reqs[0].DeleteOne? && FirstIndex(t.records, reqs[0].id).Some? {
        var i := FirstIndex(t.records, reqs[0].id).value;
        RemoveAt(t.records, i, t'.records);
        forall j | 0 <= j < |t'.records|
          ensures t'.records[j].id != id
        {
          if j < i {
            assert t'.records[j] == t.records[j];
          } else {
            assert t'.records[j] == t.records[j + 1];
          }
        }
      } else if reqs[0].Put? && FirstIndex(t.records, reqs[0].id).Some? {
        assert forall j :: 0 <= j < |t'.records| ==> t'.records[j].id == t.records[j].id;
      }
      StaysAbsent(t', id, reqs[1..]);
    }
  }

  /** Ids are never reused: once a delete has removed an id, no later history
      brings a record with that id back. */
  lemma NeverReused<T>(t: Table<T>, id: int, reqs: seq<Request<T>>)
    requires Invariant(t) && Lookup(t.records, id).Ok?
    ensures Lookup(Run(Apply(t, DeleteOne(id)), reqs).records, id) == NotFound
  {
    ApplyKeepsInvariant(t, DeleteOne(id));
    GetAfterDelete(t, id);
    StaysAbsent(Apply(t, DeleteOne(id)), id, reqs);
  }
}
