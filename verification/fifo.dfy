/** The job queue of lib/fifo.js: an ordered sequence of (id, element)
    entries, FIFO at the tail, with "urgent" insertion at the head. */
module Fifo {
  import opened JsValues

  type Id = string

  datatype Entry<T> = Entry(id: Id, e: T)

  /** `entries` is the queue, head first. `issued` lists every id `Enqueue`
      has handed out; it exists only so that freshly generated ids can be
      shown to differ from all earlier ones (the source uses uuid). */
  datatype Queue<T> = Queue(entries: seq<Entry<T>>, issued: seq<Id>)

  /** `new FIFO()`: nothing queued, nothing to dequeue, no id issued. */
  function Empty<T>(): (q: Queue<T>)
    ensures |q.entries| == 0
    ensures Dequeue(q).1.None?
    ensures forall id :: !Has(q, id)
    ensures forall id :: id !in q.issued
  {
    Queue([], [])
  }

  function Ids<T>(entries: seq<Entry<T>>): (ids: seq<Id>)
    ensures |ids| == |entries|
    ensures forall i | 0 <= i < |entries| :: ids[i] == entries[i].id
  {
    if |entries| == 0 then [] else [entries[0].id] + Ids(entries[1..])
  }

  function Elems<T>(entries: seq<Entry<T>>): (es: seq<T>)
    ensures |es| == |entries|
    ensures forall i | 0 <= i < |entries| :: es[i] == entries[i].e
  {
    if |entries| == 0 then [] else [entries[0].e] + Elems(entries[1..])
  }

  // ---------------------------------------------------------------------
  // Fresh ids
  // ---------------------------------------------------------------------

  function MaxLen(ids: seq<Id>): (n: nat)
    ensures forall i | 0 <= i < |ids| :: |ids[i]| <= n
  {
    if |ids| == 0 then 0
    else
      var m := MaxLen(ids[1..]);
      if |ids[0]| > m then |ids[0]| else m
  }

  function Repeat(c: char, n: nat): (s: string)
    ensures |s| == n
  {
    if n == 0 then "" else [c] + Repeat(c, n - 1)
  }

  /** Stand-in for `uuidv1()`: an id different from every id issued so far
      (it is longer than all of them). */
  function FreshId(issued: seq<Id>): (r: Id)
    ensures r !in issued
  {
    Repeat('u', MaxLen(issued) + 1)
  }

  // ---------------------------------------------------------------------
  // Operations
  // ---------------------------------------------------------------------

  /** `enqueue(element, urgent, argId)`: `argId` is None when the caller
      passes none (undefined), in which case a fresh id is generated. The
      entry goes to the head when `urgent` is truthy, else to the tail. */
  function Enqueue<T>(q: Queue<T>, e: T, urgent: bool, argId: Option<Id>): (r: (Queue<T>, Id))
    // the id returned: the caller's, or one never issued before
    ensures argId.Some? ==> r.1 == argId.value
    ensures argId.None? ==> r.1 !in q.issued
    ensures r.0.issued == q.issued + [r.1]
    // exactly one entry is added
    ensures |r.0.entries| == |q.entries| + 1
    // urgent: the new entry is the head and the old queue follows it
    ensures urgent ==> r.0.entries[0] == Entry(r.1, e) && r.0.entries[1..] == q.entries
    // otherwise: the old queue is untouched and the new entry is last
    ensures !urgent ==> r.0.entries[..|q.entries|] == q.entries && r.0.entries[|q.entries|] == Entry(r.1, e)
  {
    var id := if argId.None? then FreshId(q.issued) else argId.value;
    var payload := Entry(id, e);
    var entries := if urgent then [payload] + q.entries else q.entries + [payload];
    (Queue(entries, q.issued + [id]), id)
  }

  /** `dequeue()`: the head's (element, id), or None for `[null, null]`. */
  function Dequeue<T>(q: Queue<T>): (r: (Queue<T>, Option<(T, Id)>))
    ensures |q.entries| == 0 ==> r.1.None? && r.0 == q
    ensures |q.entries| > 0 ==> r.1 == Some((q.entries[0].e, q.entries[0].id))
    ensures |q.entries| > 0 ==> r.0.entries == q.entries[1..]
    ensures r.0.issued == q.issued
  {
    if |q.entries| == 0 then (q, None)
    else (q.(entries := q.entries[1..]), Some((q.entries[0].e, q.entries[0].id)))
  }

  /** `findIndex(e => e.id === id)`: the first position carrying `id`, or -1. */
  function FindIndex<T>(entries: seq<Entry<T>>, id: Id): (r: int)
    ensures -1 <= r < |entries|
    ensures r == -1 <==> forall i | 0 <= i < |entries| :: entries[i].id != id
    ensures 0 <= r ==> entries[r].id == id
    ensures 0 <= r ==> forall i | 0 <= i < r :: entries[i].id != id
  {
    if |entries| == 0 then -1
    else if entries[0].id == id then 0
    else
      var k := FindIndex(entries[1..], id);
      if k == -1 then -1 else k + 1
  }

  /** `has(id)` */
  function Has<T>(q: Queue<T>, id: Id): (r: bool)
    ensures r <==> exists i | 0 <= i < |q.entries| :: q.entries[i].id == id
  {
    FindIndex(q.entries, id) != -1
  }

  /** `del(id)`: removes the first entry carrying `id`; false and no change
      when there is none. */
  function Del<T>(q: Queue<T>, id: Id): (r: (Queue<T>, bool))
    ensures r.1 == Has(q, id)
    ensures !r.1 ==> r.0 == q
    ensures r.1 ==> exists k | 0 <= k < |q.entries| ::
                      && q.entries[k].id == id
                      && (forall i | 0 <= i < k :: q.entries[i].id != id)
                      && r.0.entries == q.entries[..k] + q.entries[k + 1..]
    ensures r.0.issued == q.issued
  {
    var target := FindIndex(q.entries, id);
    if target != -1 then
      (q.(entries := q.entries[..target] + q.entries[target + 1..]), true)
    else
      (q, false)
  }

  /** `clear()` */
  function Clear<T>(q: Queue<T>): (r: Queue<T>)
    ensures Size(r) == 0
    ensures Dequeue(r).1.None?
    ensures r.issued == q.issued
  {
    q.(entries := [])
  }

  /** `size()`: the number of entries, zero exactly when a dequeue would
      yield nothing and no id is queued. */
  function Size<T>(q: Queue<T>): (n: nat)
    ensures n == |q.entries|
    ensures n == 0 <==> Dequeue(q).1.None?
    ensures n == 0 <==> forall id :: !Has(q, id)
  {
    assert |q.entries| > 0 ==> Has(q, q.entries[0].id);
    |q.entries|
  }

  // ---------------------------------------------------------------------
  // Properties
  // ---------------------------------------------------------------------

  /** The ids of the queue are pairwise distinct. */
  predicate IdsDistinct<T>(entries: seq<Entry<T>>)
  {
    forall i, j | 0 <= i < j < |entries| :: entries[i].id != entries[j].id
  }

  /** The ids present in the queue. */
  function IdSet<T>(entries: seq<Entry<T>>): (ids: set<Id>)
    ensures forall id :: id in ids <==> exists i | 0 <= i < |entries| :: entries[i].id == id
  {
    set i | 0 <= i < |entries| :: entries[i].id
  }

  /** Enqueueing adds exactly the returned id, and keeps the ids distinct
      when that id was not queued already. */
  lemma EnqueueIdSet<T>(q: Queue<T>, e: T, urgent: bool, argId: Option<Id>)
    ensures var (q1, id) := Enqueue(q, e, urgent, argId);
            IdSet(q1.entries) == IdSet(q.entries) + {id}
    ensures var (q1, id) := Enqueue(q, e, urgent, argId);
            IdsDistinct(q.entries) && id !in IdSet(q.entries) ==> IdsDistinct(q1.entries)
  {
    var (q1, id) := Enqueue(q, e, urgent, argId);
    var shift, at := if urgent then 1 else 0, if urgent then 0 else |q.entries|;
    EnqueueAt(q, e, urgent, argId);
    EnqueueKeys(q.entries, q1.entries, Entry(id, e), shift, at);
    if IdsDistinct(q.entries) && id !in IdSet(q.entries) {
      EnqueueDistinct(q.entries, q1.entries, Entry(id, e), shift, at);
    }
  }

  /** Where `Enqueue` puts the new entry and the old ones. */
  lemma EnqueueAt<T>(q: Queue<T>, e: T, urgent: bool, argId: Option<Id>)
    ensures var (q1, id) := Enqueue(q, e, urgent, argId);
            var shift, at := if urgent then 1 else 0, if urgent then 0 else |q.entries|;
            && q1.entries[at] == Entry(id, e)
            && forall i | 0 <= i < |q1.entries| && i != at :: 0 <= i - shift < |q.entries| && q1.entries[i] == q.entries[i - shift]
  {
  }

  /** The ids of `a` with `x` placed at `at` and the old entries moved by `shift`. */
  lemma EnqueueKeys<T>(a: seq<Entry<T>>, b: seq<Entry<T>>, x: Entry<T>, shift: int, at: int)
    requires |b| == |a| + 1 && 0 <= at < |b| && b[at] == x
    requires (at == 0 && shift == 1) || (at == |a| && shift == 0)
    requires forall i | 0 <= i < |b| && i != at :: 0 <= i - shift < |a| && b[i] == a[i - shift]
    ensures IdSet(b) == IdSet(a) + {x.id}
  {
    forall y | y in IdSet(b) ensures y in IdSet(a) + {x.id} {
      var j :| 0 <= j < |b| && b[j].id == y;
      if j != at { assert b[j] == a[j - shift]; }
    }
    forall y | y in IdSet(a) ensures y in IdSet(b) {
      var j :| 0 <= j < |a| && a[j].id == y;
      assert b[j + shift] == a[j];
    }
  }

  lemma EnqueueDistinct<T>(a: seq<Entry<T>>, b: seq<Entry<T>>, x: Entry<T>, shift: int, at: int)
    requires |b| == |a| + 1 && 0 <= at < |b| && b[at] == x
    requires (at == 0 && shift == 1) || (at == |a| && shift == 0)
    requires forall i | 0 <= i < |b| && i != at :: 0 <= i - shift < |a| && b[i] == a[i - shift]
    requires IdsDistinct(a) && x.id !in IdSet(a)
    ensures IdsDistinct(b)
  {
    forall i, j | 0 <= i < j < |b| ensures b[i].id != b[j].id {
      if i != at && j != at {
        assert b[i] == a[i - shift] && b[j] == a[j - shift];
      } else if i == at {
        assert b[j] == a[j - shift];
      } else {
        assert b[i] == a[i - shift];
      }
    }
  }

  /** Dequeueing a queue with distinct ids removes exactly the head's id. */
  lemma DequeueIdSet<T>(q: Queue<T>)
    requires IdsDistinct(q.entries) && |q.entries| > 0
    ensures IdSet(Dequeue(q).0.entries) == IdSet(q.entries) - {q.entries[0].id}
    ensures IdsDistinct(Dequeue(q).0.entries)
  {
    var rest := Dequeue(q).0.entries;
    assert forall i | 0 <= i < |rest| :: rest[i] == q.entries[i + 1];
    forall x | x in IdSet(q.entries) - {q.entries[0].id} ensures x in IdSet(rest) {
      var j :| 0 <= j < |q.entries| && q.entries[j].id == x;
      assert rest[j - 1].id == x;
    }
  }

  /** Position `i` of `a` without its entry at `k`. */
  lemma RemoveAt<T>(a: seq<T>, k: int, i: int)
    requires 0 <= k < |a| && 0 <= i < |a| - 1
    ensures (a[..k] + a[k + 1..])[i] == a[if i < k then i else i + 1]
  {
  }

  /** What `Del` leaves when the id is present. */
  lemma DelEntries<T>(q: Queue<T>, id: Id)
    requires FindIndex(q.entries, id) != -1
    ensures var k := FindIndex(q.entries, id);
            Del(q, id).0.entries == q.entries[..k] + q.entries[k + 1..]
  {
  }

  /** Deleting from a queue with distinct ids removes exactly that id. */
  lemma DelIdSet<T>(q: Queue<T>, id: Id)
    requires IdsDistinct(q.entries)
    ensures IdSet(Del(q, id).0.entries) == IdSet(q.entries) - {id}
    ensures IdsDistinct(Del(q, id).0.entries)
  {
    var k := FindIndex(q.entries, id);
    if k != -1 {
      DelEntries(q, id);
      RemoveKeys(q.entries, k);
      RemoveDistinct(q.entries, k);
    }
  }

  lemma RemoveKeys<T>(a: seq<Entry<T>>, k: int)
    requires IdsDistinct(a) && 0 <= k < |a|
    ensures IdSet(a[..k] + a[k + 1..]) == IdSet(a) - {a[k].id}
  {
    var rest := a[..k] + a[k + 1..];
    forall x | x in IdSet(a) - {a[k].id} ensures x in IdSet(rest) {
      var j :| 0 <= j < |a| && a[j].id == x;
      RemoveAt(a, k, if j < k then j else j - 1);
    }
    forall x | x in IdSet(rest) ensures x in IdSet(a) - {a[k].id} {
      var j :| 0 <= j < |rest| && rest[j].id == x;
      RemoveAt(a, k, j);
    }
  }

  lemma RemoveDistinct<T>(a: seq<Entry<T>>, k: int)
    requires IdsDistinct(a) && 0 <= k < |a|
    ensures IdsDistinct(a[..k] + a[k + 1..])
  {
    var rest := a[..k] + a[k + 1..];
    forall i, j | 0 <= i < j < |rest| ensures rest[i].id != rest[j].id {
      RemoveAt(a, k, i);
      RemoveAt(a, k, j);
    }
  }

  /** With distinct ids, the queue holds as many ids as entries: `size()`
      counts the waiting jobs. */
  lemma {:induction false} DistinctIdCount<T>(entries: seq<Entry<T>>)
    requires IdsDistinct(entries)
    ensures |IdSet(entries)| == |entries|
    decreases |entries|
  {
    if |entries| > 0 {
      var rest := entries[1..];
      assert forall i | 0 <= i < |rest| :: rest[i] == entries[i + 1];
      DistinctIdCount(rest);
      assert IdSet(entries) == IdSet(rest) + {entries[0].id} by {
        forall x | x in IdSet(entries) ensures x in IdSet(rest) + {entries[0].id} {
          var j :| 0 <= j < |entries| && entries[j].id == x;
          if j > 0 { assert rest[j - 1].id == x; }
        }
      }
    }
  }

  /** An urgent entry is the very next one out, and dequeuing it gives back
      exactly the queue as it was. */
  lemma UrgentIsNextOut<T>(q: Queue<T>, e: T, argId: Option<Id>)
    ensures var (q1, id) := Enqueue(q, e, true, argId);
            var (q2, out) := Dequeue(q1);
            out == Some((e, id)) && q2.entries == q.entries
  {
  }

  /** Urgent entries leave last-in-first-out: after urgent `a` then urgent
      `b`, the next two dequeues give `b` and then `a`, and the queue is
      back to what it was. */
  lemma UrgentIsLifo<T>(q: Queue<T>, a: T, b: T)
    ensures var (q1, ida) := Enqueue(q, a, true, None);
            var (q2, idb) := Enqueue(q1, b, true, None);
            var (q3, out1) := Dequeue(q2);
            var (q4, out2) := Dequeue(q3);
            out1 == Some((b, idb)) && out2 == Some((a, ida)) && q4.entries == q.entries
  {
  }

  function Reverse<X>(s: seq<X>): (r: seq<X>)
    ensures |r| == |s|
  {
    if |s| == 0 then [] else Reverse(s[1..]) + [s[0]]
  }

  /** Enqueues every element of `es` urgently, first to last, each under a
      fresh id. */
  function UrgentPushes<T>(q: Queue<T>, es: seq<T>): Queue<T>
    decreases |es|
  {
    if |es| == 0 then q else UrgentPushes(Enqueue(q, es[0], true, None).0, es[1..])
  }

  /** Urgent entries are last in, first out: after any number of urgent
      enqueues the queue holds them newest first, ahead of the old queue. */
  lemma {:induction false} UrgentPushesReverse<T>(q: Queue<T>, es: seq<T>)
    ensures Elems(UrgentPushes(q, es).entries) == Reverse(es) + Elems(q.entries)
    decreases |es|
  {
    if |es| > 0 {
      var q1 := Enqueue(q, es[0], true, None).0;
      assert q1.entries == [q1.entries[0]] + q.entries;
      ElemsAppend([q1.entries[0]], q.entries);
      UrgentPushesReverse(q1, es[1..]);
      SeqAssoc(Reverse(es[1..]), [es[0]], Elems(q.entries));
    }
  }

  /** A tail entry does not overtake anything: dequeuing a non-empty queue
      after a non-urgent enqueue gives the old head, and the new entry is
      the last of what remains. */
  lemma TailEntryWaitsItsTurn<T>(q: Queue<T>, e: T, argId: Option<Id>)
    requires |q.entries| > 0
    ensures var (q1, id) := Enqueue(q, e, false, argId);
            var (q2, out) := Dequeue(q1);
            out == Some((q.entries[0].e, q.entries[0].id)) && q2.entries == q.entries[1..] + [Entry(id, e)]
  {
  }

  /** Ids generated by successive enqueues are pairwise different (the
      three-way check of the test for `enqueue`). */
  lemma GeneratedIdsDiffer<T>(q: Queue<T>, a: T, b: T, c: T, ua: bool, ub: bool, uc: bool)
    ensures var (q1, id1) := Enqueue(q, a, ua, None);
            var (q2, id2) := Enqueue(q1, b, ub, None);
            var (_, id3) := Enqueue(q2, c, uc, None);
            id1 != id2 && id1 != id3 && id2 != id3
  {
    var (q1, id1) := Enqueue(q, a, ua, None);
    var (q2, id2) := Enqueue(q1, b, ub, None);
    var (_, id3) := Enqueue(q2, c, uc, None);
    assert id1 in q1.issued;
    assert id1 in q2.issued && id2 in q2.issued;
  }

  /** A run of non-urgent enqueues (`Push`) and dequeues (`Pop`). */
  datatype Op<T> = Push(e: T) | Pop

  function Pushed<T>(ops: seq<Op<T>>): seq<T>
  {
    if |ops| == 0 then []
    else (if ops[0].Push? then [ops[0].e] else []) + Pushed(ops[1..])
  }

  /** One operation: the queue after it and the element it produced. */
  function StepOp<T>(q: Queue<T>, op: Op<T>): (r: (Queue<T>, seq<T>))
    ensures op.Push? ==> r == (Enqueue(q, op.e, false, None).0, [])
    ensures op.Pop? && |q.entries| == 0 ==> r == (q, [])
    ensures op.Pop? && |q.entries| > 0 ==> r == (Dequeue(q).0, [q.entries[0].e])
  {
    match op
    case Push(e) => (Enqueue(q, e, false, None).0, [])
    case Pop =>
      var (q', o) := Dequeue(q);
      (q', if o.Some? then [o.value.0] else [])
  }

  /** Performs `ops` on `q`, returning the final queue and the elements the
      successful dequeues produced, in order (a dequeue of an empty queue
      produces nothing). */
  function Run<T>(q: Queue<T>, ops: seq<Op<T>>): (r: (Queue<T>, seq<T>))
    decreases |ops|
  {
    if |ops| == 0 then (q, [])
    else
      var step := StepOp(q, ops[0]);
      var rest := Run(step.0, ops[1..]);
      (rest.0, step.1 + rest.1)
  }

  lemma ElemsAppend<T>(a: seq<Entry<T>>, b: seq<Entry<T>>)
    ensures Elems(a + b) == Elems(a) + Elems(b)
  {
    var l, r := Elems(a + b), Elems(a) + Elems(b);
    forall i | 0 <= i < |l| ensures l[i] == r[i] {
      if i < |a| {
        assert (a + b)[i] == a[i];
      } else {
        assert (a + b)[i] == b[i - |a|];
      }
    }
  }

  /** Submission order is kept: what comes out, followed by what is still
      queued, is exactly what was queued at the start followed by everything
      pushed, in order. */
  lemma {:induction false} RunKeepsOrder<T>(q: Queue<T>, ops: seq<Op<T>>)
    ensures Run(q, ops).1 + Elems(Run(q, ops).0.entries) == Elems(q.entries) + Pushed(ops)
    decreases |ops|
  {
    if |ops| > 0 {
      var step := StepOp(q, ops[0]);
      var rest := Run(step.0, ops[1..]);
      var pushed := if ops[0].Push? then [ops[0].e] else [];
      RunKeepsOrder(step.0, ops[1..]);
      assert Run(q, ops) == (rest.0, step.1 + rest.1);
      assert Pushed(ops) == pushed + Pushed(ops[1..]);
      // one step moves the head out, or the pushed element in, and nothing else
      assert step.1 + Elems(step.0.entries) == Elems(q.entries) + pushed by {
        if ops[0].Push? {
          ElemsAppend(q.entries, [Entry(Enqueue(q, ops[0].e, false, None).1, ops[0].e)]);
        } else if |q.entries| > 0 {
          assert Elems(q.entries) == [q.entries[0].e] + Elems(q.entries[1..]);
        }
      }
      var A, B, C, D := step.1, rest.1, Elems(rest.0.entries), Pushed(ops[1..]);
      var E, Q := Elems(step.0.entries), Elems(q.entries);
      assert B + C == E + D;
      assert A + E == Q + pushed;
      SeqAssoc(A, B, C);
      SeqAssoc(A, E, D);
      SeqAssoc(Q, pushed, D);
    }
  }

  lemma SeqAssoc<X>(a: seq<X>, b: seq<X>, c: seq<X>)
    ensures a + (b + c) == (a + b) + c
  {
  }

  /** The scenario of the test for `dequeue`: a, b, c in; two out; d in;
      then c, d and finally nothing come out. */
  lemma DequeueScenario<T>(a: T, b: T, c: T, d: T)
    ensures var q3 := Enqueue(Enqueue(Enqueue(Empty<T>(), a, false, None).0, b, false, None).0, c, false, None).0;
            var (q4, o1) := Dequeue(q3);
            var (q5, o2) := Dequeue(q4);
            var q6 := Enqueue(q5, d, false, None).0;
            var (q7, o3) := Dequeue(q6);
            var (q8, o4) := Dequeue(q7);
            var (_, o5) := Dequeue(q8);
            o1.Some? && o1.value.0 == a && o2.Some? && o2.value.0 == b &&
            o3.Some? && o3.value.0 == c && o4.Some? && o4.value.0 == d && o5.None?
  {
  }
}
