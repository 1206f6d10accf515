/** The invariants the scheduler keeps: the concurrency ceiling, the
    running count, and each id in at most one of queue, running, finished
    and failed. Every transition of lib/index.js preserves them, so they
    hold after any sequence of calls, timer ticks and executor settlements. */
module SchedulerInvariants {
  import opened JsValues
  import opened Scheduler
  import Fifo
  import OrderedMap

  type Entries = seq<Fifo.Entry<Job>>

  function Queued(s: State): set<Id>
  {
    Fifo.IdSet(s.queue.entries)
  }

  /** Every id the scheduler knows about. */
  function Stores(s: State): set<Id>
  {
    Queued(s) + s.running + s.finished.Keys + s.failed.Keys
  }

  /** The ids in `ids` have been handed out by the queue's id generator. */
  predicate AllIssued(s: State, ids: set<Id>)
  {
    forall id | id in ids :: id in s.queue.issued
  }

  /** The ids of the queue, the running set and the two result maps are
      pairwise disjoint. */
  predicate Exclusive(s: State)
  {
    && Queued(s) !! s.running
    && Queued(s) !! s.finished.Keys
    && Queued(s) !! s.failed.Keys
    && s.running !! s.finished.Keys
    && s.running !! s.failed.Keys
    && s.finished.Keys !! s.failed.Keys
  }

  /** Every job of the queue has an executor it can be called with. */
  predicate QueueRunnable(entries: Entries, exec: Option<nat>)
  {
    forall i | 0 <= i < |entries| :: Runnable(entries[i].e.props, exec)
  }

  predicate FlightsRunnable(flights: map<Id, Flight>, exec: Option<nat>)
  {
    forall id | id in flights :: Runnable(flights[id].job.props, exec)
  }

  /** The counters: `numRunning` counts the running ids, never exceeds
      `maxConcurrent`, and the running ids are those with a flight record. */
  predicate Counts(s: State)
  {
    && s.cfg.maxConcurrent >= 1
    && s.cfg.retryDelay >= 0
    && s.numRunning == |s.running|
    && s.numRunning <= s.cfg.maxConcurrent
    && s.running == s.flights.Keys
  }

  predicate Valid(s: State)
  {
    && Counts(s)
    && Fifo.IdsDistinct(s.queue.entries)
    && Exclusive(s)
    && AllIssued(s, Stores(s))
    && QueueRunnable(s.queue.entries, s.cfg.exec)
    && FlightsRunnable(s.flights, s.cfg.exec)
    && OrderedMap.Valid(s.waiting)
  }

  // ---------------------------------------------------------------------
  // What the invariant buys
  // ---------------------------------------------------------------------

  /** Under the invariant the precedence of `qstat` never matters: each
      answer holds exactly when the id is in the corresponding store. */
  lemma QstatExact(s: State, id: Id)
    requires Valid(s)
    ensures Qstat(s, Str(id)) == Some(Waiting) <==> id in Queued(s)
    ensures Qstat(s, Str(id)) == Some(Running) <==> id in s.running
    ensures Qstat(s, Str(id)) == Some(Finished) <==> id in s.finished
    ensures Qstat(s, Str(id)) == Some(Failed) <==> id in s.failed
    ensures Qstat(s, Str(id)) == Some(Removed) <==> id !in Stores(s)
  {
    assert Fifo.Has(s.queue, id) <==> id in Queued(s);
  }

  /** A dispatched job always has a function to call (the source would
      throw a TypeError on `exec.bind` otherwise). */
  lemma DispatchInvokesFunction(s: State)
    requires Valid(s)
    ensures Dispatch(s).1.Some? ==> Dispatch(s).1.value.exec.Fn?
  {
    if Dispatch(s).1.Some? {
      assert Runnable(s.queue.entries[0].e.props, s.cfg.exec);
    }
  }

  // ---------------------------------------------------------------------
  // Building blocks: one store changes at a time
  // ---------------------------------------------------------------------

  lemma InitValid(opt: map<string, Value>)
    ensures Valid(Init(opt))
  {
    var s := Init(opt);
    assert Queued(s) == {};
  }

  /** A transition that touches only result values, the wait registry,
      the ticket counter or the dispatching flag keeps the invariant. */
  lemma SameJobsValid(s: State, t: State)
    requires Valid(s)
    requires t.cfg == s.cfg && t.queue == s.queue && t.numRunning == s.numRunning
    requires t.running == s.running && t.flights == s.flights
    requires t.finished.Keys == s.finished.Keys && t.failed.Keys == s.failed.Keys
    requires OrderedMap.Valid(t.waiting)
    ensures Valid(t)
  {
    SameJobsStores(s, t);
    assert Counts(t);
  }

  lemma SameJobsStores(s: State, t: State)
    requires Exclusive(s) && AllIssued(s, Stores(s))
    requires t.queue == s.queue && t.running == s.running
    requires t.finished.Keys == s.finished.Keys && t.failed.Keys == s.failed.Keys
    ensures Exclusive(t) && AllIssued(t, Stores(t))
  {
    assert Queued(t) == Queued(s);
    assert Stores(t) == Stores(s);
  }

  lemma NewQueueExclusive(s: State, q1: Fifo.Queue<Job>, added: set<Id>)
    requires Exclusive(s)
    requires Fifo.IdSet(q1.entries) <= Queued(s) + added
    requires added !! s.running && added !! s.finished.Keys && added !! s.failed.Keys
    ensures Exclusive(s.(queue := q1))
  {
  }

  lemma NewQueueIssued(s: State, q1: Fifo.Queue<Job>, added: set<Id>)
    requires AllIssued(s, Stores(s))
    requires Fifo.IdSet(q1.entries) <= Queued(s) + added
    requires forall x | x in added :: x in q1.issued
    requires forall x | x in s.queue.issued :: x in q1.issued
    ensures AllIssued(s.(queue := q1), Stores(s.(queue := q1)))
  {
    var t := s.(queue := q1);
    forall x | x in Stores(t) ensures x in t.queue.issued {
      if x !in added {
        assert x in Stores(s);
      }
    }
  }

  /** Replacing the queue keeps the invariant when the new queue's ids are
      distinct, each is either already queued or a member of `added` (ids
      in no other store), no issued id is forgotten, and every job in it is
      runnable. */
  lemma NewQueueValid(s: State, q1: Fifo.Queue<Job>, added: set<Id>)
    requires Valid(s)
    requires Fifo.IdsDistinct(q1.entries)
    requires Fifo.IdSet(q1.entries) <= Queued(s) + added
    requires added !! s.running && added !! s.finished.Keys && added !! s.failed.Keys
    requires forall x | x in added :: x in q1.issued
    requires forall x | x in s.queue.issued :: x in q1.issued
    requires QueueRunnable(q1.entries, s.cfg.exec)
    ensures Valid(s.(queue := q1))
  {
    NewQueueExclusive(s, q1, added);
    NewQueueIssued(s, q1, added);
  }

  /** Every job in the new queue is one of the old queue's or `j`. */
  lemma EnqueueRunnable(q: Fifo.Queue<Job>, j: Job, urgent: bool, argId: Option<Id>, exec: Option<nat>)
    requires QueueRunnable(q.entries, exec)
    requires Runnable(j.props, exec)
    ensures QueueRunnable(Fifo.Enqueue(q, j, urgent, argId).0.entries, exec)
  {
    var q1 := Fifo.Enqueue(q, j, urgent, argId).0;
    forall i | 0 <= i < |q1.entries| ensures Runnable(q1.entries[i].e.props, exec) {
      if urgent {
        if i > 0 { assert q1.entries[i] == q.entries[i - 1]; }
      } else {
        if i < |q.entries| { assert q1.entries[i] == q.entries[i]; }
      }
    }
  }

  /** Enqueueing a runnable job keeps the invariant, provided a caller's
      id is in no store (a generated id never is). */
  lemma EnqueueValid(s: State, j: Job, urgent: bool, argId: Option<Id>)
    requires Valid(s)
    requires Runnable(j.props, s.cfg.exec)
    requires argId.Some? ==> argId.value !in Stores(s) && argId.value in s.queue.issued
    ensures Valid(s.(queue := Fifo.Enqueue(s.queue, j, urgent, argId).0))
  {
    var (q1, id) := Fifo.Enqueue(s.queue, j, urgent, argId);
    Fifo.EnqueueIdSet(s.queue, j, urgent, argId);
    EnqueueRunnable(s.queue, j, urgent, argId, s.cfg.exec);
    assert id !in Stores(s);
    NewQueueValid(s, q1, {id});
  }

  /** Every job left after `del` was in the queue before. */
  lemma DelRunnable(q: Fifo.Queue<Job>, id: Id, exec: Option<nat>)
    requires QueueRunnable(q.entries, exec)
    ensures QueueRunnable(Fifo.Del(q, id).0.entries, exec)
  {
    var k := Fifo.FindIndex(q.entries, id);
    if k != -1 {
      Fifo.DelEntries(q, id);
      var rest := Fifo.Del(q, id).0.entries;
      forall i | 0 <= i < |rest| ensures Runnable(rest[i].e.props, exec) {
        Fifo.RemoveAt(q.entries, k, i);
      }
    }
  }

  /** The id a settled job leaves: out of `running` and the flight map. */
  function Release(s: State, id: Id): State
  {
    s.(running := s.running - {id}, numRunning := s.numRunning - 1, flights := s.flights - {id})
  }

  lemma ReleaseCount(s: State, id: Id)
    requires Counts(s) && id in s.flights
    ensures Counts(Release(s, id))
  {
    assert |Release(s, id).running| == |s.running| - 1;
  }

  lemma ReleaseFlights(s: State, id: Id)
    requires FlightsRunnable(s.flights, s.cfg.exec)
    ensures FlightsRunnable(Release(s, id).flights, s.cfg.exec)
  {
  }

  /** A released id is in no store any more, but it was issued. */
  lemma ReleaseLeavesStores(s: State, id: Id)
    requires Valid(s) && id in s.flights
    ensures id !in Stores(Release(s, id)) && id in Release(s, id).queue.issued
  {
    assert id in Stores(s);
  }

  lemma ReleaseValid(s: State, id: Id)
    requires Valid(s) && id in s.flights
    ensures Valid(Release(s, id))
  {
    var t := Release(s, id);
    ReleaseCount(s, id);
    ReleaseFlights(s, id);
    assert Queued(t) == Queued(s);
    assert Stores(t) <= Stores(s);
  }

  /** Marking a job running. */
  function Launch(s: State, id: Id, f: Flight): State
  {
    s.(numRunning := s.numRunning + 1, running := s.running + {id}, flights := s.flights[id := f])
  }

  lemma LaunchCount(s: State, id: Id, f: Flight)
    requires Counts(s) && id !in s.running
    requires s.numRunning < s.cfg.maxConcurrent
    ensures Counts(Launch(s, id, f))
  {
  }

  lemma LaunchExclusive(s: State, id: Id, f: Flight)
    requires Exclusive(s)
    requires id !in Queued(s) && id !in s.finished && id !in s.failed
    ensures Exclusive(Launch(s, id, f))
  {
  }

  lemma LaunchIssued(s: State, id: Id, f: Flight)
    requires AllIssued(s, Stores(s))
    requires id in s.queue.issued
    ensures AllIssued(Launch(s, id, f), Stores(Launch(s, id, f)))
  {
  }

  lemma LaunchFlights(s: State, id: Id, f: Flight)
    requires FlightsRunnable(s.flights, s.cfg.exec)
    requires Runnable(f.job.props, s.cfg.exec)
    ensures FlightsRunnable(Launch(s, id, f).flights, s.cfg.exec)
  {
    var t := Launch(s, id, f);
    forall x | x in t.flights ensures Runnable(t.flights[x].job.props, s.cfg.exec) {
      if x != id { assert t.flights[x] == s.flights[x]; }
    }
  }

  /** A job can be marked running when its id was issued, is in no store,
      its executor resolves, and there is room under the ceiling. */
  lemma LaunchValid(s: State, id: Id, f: Flight)
    requires Valid(s)
    requires id in s.queue.issued && id !in Queued(s) && id !in s.running
    requires id !in s.finished && id !in s.failed
    requires s.numRunning < s.cfg.maxConcurrent
    requires Runnable(f.job.props, s.cfg.exec)
    ensures Valid(Launch(s, id, f))
  {
    LaunchCount(s, id, f);
    LaunchExclusive(s, id, f);
    LaunchIssued(s, id, f);
    LaunchFlights(s, id, f);
  }

  /** Storing a result under an id. */
  function Store(s: State, id: Id, v: Value, failed: bool): State
  {
    if failed then s.(failed := s.failed[id := v]) else s.(finished := s.finished[id := v])
  }

  lemma StoreExclusive(s: State, id: Id, v: Value, failed: bool)
    requires Exclusive(s)
    requires id !in Queued(s) && id !in s.running && (if failed then id !in s.finished else id !in s.failed)
    ensures Exclusive(Store(s, id, v, failed))
  {
  }

  lemma StoreIssued(s: State, id: Id, v: Value, failed: bool)
    requires AllIssued(s, Stores(s))
    requires id in s.queue.issued
    ensures AllIssued(Store(s, id, v, failed), Stores(Store(s, id, v, failed)))
  {
  }

  /** A result can be stored under an id that is issued and in no other
      store. */
  lemma StoreValid(s: State, id: Id, v: Value, failed: bool)
    requires Valid(s)
    requires id in s.queue.issued
    requires id !in Queued(s) && id !in s.running && (if failed then id !in s.finished else id !in s.failed)
    ensures Valid(Store(s, id, v, failed))
  {
    StoreExclusive(s, id, v, failed);
    StoreIssued(s, id, v, failed);
  }

  // ---------------------------------------------------------------------
  // Preservation, one operation at a time
  // ---------------------------------------------------------------------

  lemma QsubPreservesValid(s: State, job: Value, urgent: bool)
    requires Valid(s)
    ensures Valid(Qsub(s, job, urgent).0)
  {
    if Qsub(s, job, urgent).1.Submitted? {
      EnqueueValid(s, Job(Normalize(job), 0), urgent, None);
    }
  }

  /** Every job left after a dequeue was in the queue before. */
  lemma DequeueRunnable(q: Fifo.Queue<Job>, exec: Option<nat>)
    requires QueueRunnable(q.entries, exec)
    ensures QueueRunnable(Fifo.Dequeue(q).0.entries, exec)
  {
    var q1 := Fifo.Dequeue(q).0;
    forall i | 0 <= i < |q1.entries| ensures Runnable(q1.entries[i].e.props, exec) {
      assert q1.entries[i] == q.entries[i + 1];
    }
  }

  lemma DispatchPreservesValid(s: State)
    requires Valid(s)
    ensures Valid(Dispatch(s).0)
  {
    if |s.queue.entries| > 0 && s.numRunning < s.cfg.maxConcurrent {
      var head := s.queue.entries[0];
      var q1 := Fifo.Dequeue(s.queue).0;
      Fifo.DequeueIdSet(s.queue);
      DequeueRunnable(s.queue, s.cfg.exec);
      NewQueueValid(s, q1, {});
      var s1 := s.(queue := q1);
      assert head.id in Queued(s);
      assert head.id in Stores(s);
      LaunchValid(s1, head.id, ResolveFlight(head.e, s.cfg));
      assert Dispatch(s).0 == Launch(s1, head.id, ResolveFlight(head.e, s.cfg));
    }
  }

  /** A failed job going round again: it is put back in the queue under
      its own id once that id has left `running`. */
  lemma RequeueValid(s: State, id: Id, j: Job, urgent: bool)
    requires Valid(s) && id in s.flights
    requires j.props == s.flights[id].job.props
    ensures Valid(Release(s, id).(queue := Fifo.Enqueue(Release(s, id).queue, j, urgent, Some(id)).0))
  {
    ReleaseValid(s, id);
    ReleaseLeavesStores(s, id);
    assert Runnable(j.props, s.cfg.exec);
    EnqueueValid(Release(s, id), j, urgent, Some(id));
  }

  /** A failed run that is retried. */
  lemma RetriedThenRelease(s: State, id: Id, err: Value, asked: bool)
    requires Valid(s) && id in s.flights
    requires !GivesUp(s.flights[id], asked)
    ensures Valid(Release(Record(s, id, Threw(err), asked), id))
  {
    var f := s.flights[id];
    var j := f.job.(retryCount := f.job.retryCount + 1);
    var q1 := Fifo.Enqueue(s.queue, j, !f.retryLater, Some(id)).0;
    assert Release(s, id).queue == s.queue;
    RequeueValid(s, id, j, !f.retryLater);
    RecordRetry(s, id, err, asked);
    assert Release(s.(queue := q1), id) == Release(s, id).(queue := q1);
  }

  lemma RecordRetry(s: State, id: Id, err: Value, asked: bool)
    requires id in s.flights && !GivesUp(s.flights[id], asked)
    ensures var f := s.flights[id];
            Record(s, id, Threw(err), asked)
            == s.(queue := Fifo.Enqueue(s.queue, f.job.(retryCount := f.job.retryCount + 1), !f.retryLater, Some(id)).0)
  {
  }

  /** A run whose result is stored, as finished or as failed. */
  lemma StoredThenRelease(s: State, id: Id, v: Value, failed: bool)
    requires Valid(s) && id in s.flights
    ensures Valid(Store(Release(s, id), id, v, failed))
  {
    ReleaseValid(s, id);
    ReleaseLeavesStores(s, id);
    StoreValid(Release(s, id), id, v, failed);
  }

  /** The outcome is recorded for a running id: the state stays valid once
      the id has left `running` and the flight map. */
  lemma RecordThenRelease(s: State, id: Id, outcome: Outcome, asked: bool)
    requires Valid(s) && id in s.flights
    ensures Valid(Release(Record(s, id, outcome, asked), id))
  {
    if outcome.Returned? {
      StoredThenRelease(s, id, outcome.v, false);
      assert Record(s, id, outcome, asked) == s.(finished := s.finished[id := outcome.v]);
    } else if GivesUp(s.flights[id], asked) {
      StoredThenRelease(s, id, outcome.err, true);
      assert Record(s, id, outcome, asked) == s.(failed := s.failed[id := outcome.err]);
    } else {
      RetriedThenRelease(s, id, outcome.err, asked);
    }
  }

  lemma GetResultPreservesValid(s: State, id: Value, keep: Value)
    requires Valid(s)
    ensures Valid(GetResult(s, id, keep).0)
  {
    SameJobsValid(s, GetResult(s, id, keep).0);
  }

  /** The "done" handler only consumes a result slot and drops registry
      entries: it changes no key set. */
  lemma OnDonePreservesValid(s: State, id: Id)
    requires Valid(s)
    ensures Valid(OnDone(s, id).0)
  {
    var t := OnDone(s, id).0;
    if t != s {
      GetResultPreservesValid(s, Str(id), Bool(false));
      SameJobsValid(GetResult(s, Str(id), Bool(false)).0, t);
    }
  }

  lemma CompletePreservesValid(s: State, id: Id, outcome: Outcome, asked: bool)
    requires Valid(s) && id in s.flights
    ensures Valid(Complete(s, id, outcome, asked).0)
  {
    RecordThenRelease(s, id, outcome, asked);
    OnDonePreservesValid(Release(Record(s, id, outcome, asked), id), id);
  }

  /** A run whose retry predicate threw only releases its id. */
  lemma AbandonPreservesValid(s: State, id: Id)
    requires Valid(s) && id in s.flights && AsksPredicate(s.flights[id])
    ensures Valid(Abandon(s, id).0)
  {
    ReleaseValid(s, id);
    OnDonePreservesValid(Release(s, id), id);
  }

  lemma QdelPreservesValid(s: State, id: Value)
    requires Valid(s)
    ensures Valid(Qdel(s, id).0)
  {
    if id.Str? && Fifo.Has(s.queue, id.s) {
      var q1 := Fifo.Del(s.queue, id.s).0;
      Fifo.DelIdSet(s.queue, id.s);
      DelRunnable(s.queue, id.s, s.cfg.exec);
      NewQueueValid(s, q1, {});
      SameJobsValid(s.(queue := q1), Qdel(s, id).0);
    }
  }

  lemma QwaitPreservesValid(s: State, id: Value, keep: Value)
    requires Valid(s)
    ensures Valid(Qwait(s, id, keep).0)
  {
    var st := Qstat(s, id);
    if st == Some(Failed) || st == Some(Finished) {
      GetResultPreservesValid(s, id, keep);
    } else if st != Some(Removed) {
      SameJobsValid(s, Qwait(s, id, keep).0);
    }
  }

  lemma ClearExclusive(s: State)
    ensures Exclusive(Clear(s).0)
  {
    assert Queued(Clear(s).0) == {};
  }

  lemma ClearIssued(s: State)
    requires AllIssued(s, Stores(s))
    ensures AllIssued(Clear(s).0, Stores(Clear(s).0))
  {
    assert Stores(Clear(s).0) <= Stores(s);
  }

  lemma ClearPreservesValid(s: State)
    requires Valid(s)
    ensures Valid(Clear(s).0)
  {
    ClearExclusive(s);
    ClearIssued(s);
  }

  lemma ClearResultsPreservesValid(s: State)
    requires Valid(s)
    ensures Valid(ClearResults(s))
  {
    SameJobsValid(s, ClearResults(s));
  }

  lemma StepPreservesValid(s: State, e: Event)
    requires Valid(s)
    ensures Valid(Step(s, e))
  {
    match e
    case Submit(job, urgent) => QsubPreservesValid(s, job, urgent);
    case Go => if s.dispatching { DispatchPreservesValid(s); }
    case Settle(id, outcome, asked) => if id in s.flights { CompletePreservesValid(s, id, outcome, asked); }
    case PredicateThrew(id) => if id in s.flights && AsksPredicate(s.flights[id]) { AbandonPreservesValid(s, id); }
    case Delete(id) => QdelPreservesValid(s, id);
    case Wait(id, keep) => QwaitPreservesValid(s, id, keep);
    case Read(id, keep) => GetResultPreservesValid(s, id, keep);
    case ClearAll => ClearPreservesValid(s);
    case ClearAllResults => ClearResultsPreservesValid(s);
    case StartDispatch => SameJobsValid(s, Start(s));
    case StopDispatch => SameJobsValid(s, Stop(s));
  }

  /** After any run of events the invariant still holds. */
  lemma {:induction false} AlwaysValid(s: State, es: seq<Event>)
    requires Valid(s)
    ensures Valid(Steps(s, es))
    decreases |es|
  {
    if |es| > 0 {
      StepPreservesValid(s, es[0]);
      AlwaysValid(Step(s, es[0]), es[1..]);
    }
  }

  /** `new SBS(opt)` followed by the events `es`. */
  function Run(opt: map<string, Value>, es: seq<Event>): State
  {
    Steps(Init(opt), es)
  }

  /** For a scheduler built by the constructor and then driven by any
      events: never more than maxConcurrent jobs run, and numRunning is the
      number of running ids. */
  lemma NeverOverCommitted(opt: map<string, Value>, es: seq<Event>)
    ensures Run(opt, es).numRunning <= Run(opt, es).cfg.maxConcurrent
    ensures Run(opt, es).numRunning == |Run(opt, es).running|
  {
    InitValid(opt);
    AlwaysValid(Init(opt), es);
  }
}
