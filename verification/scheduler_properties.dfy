/** Properties of the scheduler that relate several operations: the
    constructor's settings, what the status query answers after each
    operation, where a retried job goes, the retry limit, and what happens
    when the retry predicate throws. */
module SchedulerProperties {
  import opened JsValues
  import opened Scheduler
  import opened SchedulerInvariants
  import Sanitize
  import Fifo
  import OrderedMap

  // ---------------------------------------------------------------------
  // Construction
  // ---------------------------------------------------------------------

  /** `new SBS()` with no options: one job at a time, unbounded retries,
      no delay, no interval, no default executor, dispatching enabled. */
  lemma DefaultOptions()
    ensures Init(map[]).cfg.maxConcurrent == 1
    ensures Init(map[]).cfg.maxRetry == None
    ensures Init(map[]).cfg.retryDelay == 0 && Init(map[]).cfg.interval == 0
    ensures Init(map[]).cfg.exec == None && Init(map[]).cfg.name == ""
    ensures Init(map[]).dispatching
  {
  }

  /** A constructor given one numeric option sets it through
      `sanitizeNumber`, with that option's minimum and default. */
  lemma OneOption(name: string, v: Value)
    ensures Some(Init(map[name := v]).cfg.maxConcurrent) ==
            Sanitize.SanitizeNumber(if name == "maxConcurrent" then v else Undefined, 1, None, Some(1))
    ensures Init(map[name := v]).cfg.maxRetry ==
            Sanitize.SanitizeNumber(if name == "maxRetry" then v else Undefined, 1, None, None)
  {
    assert Prop(map[name := v], "maxConcurrent") == if name == "maxConcurrent" then v else Undefined;
    assert Prop(map[name := v], "maxRetry") == if name == "maxRetry" then v else Undefined;
  }

  /** The maxConcurrent values the constructor's tests expect
      (test/sbs.js): non-numbers and numbers below 1 give 1, others their
      floor. */
  lemma MaxConcurrentOption()
    ensures Init(map["maxConcurrent" := Str("hoge")]).cfg.maxConcurrent == 1
    ensures Init(map["maxConcurrent" := NaN]).cfg.maxConcurrent == 1
    ensures Init(map["maxConcurrent" := Obj(map[])]).cfg.maxConcurrent == 1
    ensures Init(map["maxConcurrent" := Fn(0)]).cfg.maxConcurrent == 1
    ensures Init(map["maxConcurrent" := Bool(false)]).cfg.maxConcurrent == 1
    ensures Init(map["maxConcurrent" := Num(-13.0)]).cfg.maxConcurrent == 1
    ensures Init(map["maxConcurrent" := Num(0.0)]).cfg.maxConcurrent == 1
    ensures Init(map["maxConcurrent" := Num(10.3)]).cfg.maxConcurrent == 10
    ensures Init(map["maxConcurrent" := Num(21.0)]).cfg.maxConcurrent == 21
  {
    Sanitize.MaxConcurrentExamples();
    OneOption("maxConcurrent", Str("hoge"));
    OneOption("maxConcurrent", NaN);
    OneOption("maxConcurrent", Obj(map[]));
    OneOption("maxConcurrent", Fn(0));
    OneOption("maxConcurrent", Bool(false));
    OneOption("maxConcurrent", Num(-13.0));
    OneOption("maxConcurrent", Num(0.0));
    OneOption("maxConcurrent", Num(10.3));
    OneOption("maxConcurrent", Num(21.0));
  }

  /** The maxRetry values the constructor's tests expect: non-numbers and
      numbers below 1 give null (unbounded), others their floor. */
  lemma MaxRetryOption()
    ensures Init(map["maxRetry" := Str("hoge")]).cfg.maxRetry == None
    ensures Init(map["maxRetry" := NaN]).cfg.maxRetry == None
    ensures Init(map["maxRetry" := Obj(map[])]).cfg.maxRetry == None
    ensures Init(map["maxRetry" := Fn(0)]).cfg.maxRetry == None
    ensures Init(map["maxRetry" := Bool(false)]).cfg.maxRetry == None
    ensures Init(map["maxRetry" := Num(-13.0)]).cfg.maxRetry == None
    ensures Init(map["maxRetry" := Num(0.0)]).cfg.maxRetry == None
    ensures Init(map["maxRetry" := Num(10.3)]).cfg.maxRetry == Some(10)
    ensures Init(map["maxRetry" := Num(21.0)]).cfg.maxRetry == Some(21)
  {
    Sanitize.MaxRetryExamples();
    OneOption("maxRetry", Str("hoge"));
    OneOption("maxRetry", NaN);
    OneOption("maxRetry", Obj(map[]));
    OneOption("maxRetry", Fn(0));
    OneOption("maxRetry", Bool(false));
    OneOption("maxRetry", Num(-13.0));
    OneOption("maxRetry", Num(0.0));
    OneOption("maxRetry", Num(10.3));
    OneOption("maxRetry", Num(21.0));
  }

  // ---------------------------------------------------------------------
  // The status query after each operation
  // ---------------------------------------------------------------------

  /** Reading a result never changes what `qstat` answers, for any id. */
  lemma GetResultKeepsStatus(s: State, id: Value, keep: Value, other: Value)
    ensures Qstat(GetResult(s, id, keep).0, other) == Qstat(s, other)
  {
    var t := GetResult(s, id, keep).0;
    assert t.queue == s.queue && t.running == s.running;
  }

  /** Blanking all results never changes what `qstat` answers. */
  lemma ClearResultsKeepsStatus(s: State, other: Value)
    ensures Qstat(ClearResults(s), other) == Qstat(s, other)
  {
  }

  /** A submitted job is waiting, under an id nobody used before. */
  lemma SubmittedIsWaiting(s: State, job: Value, urgent: bool)
    requires Valid(s)
    ensures var (t, r) := Qsub(s, job, urgent);
            r.Submitted? ==> Qstat(t, Str(r.id)) == Some(Waiting) && Qstat(s, Str(r.id)) == Some(Removed)
  {
    var (t, r) := Qsub(s, job, urgent);
    if r.Submitted? {
      var j := Job(Normalize(job), 0);
      Fifo.EnqueueIdSet(s.queue, j, urgent, None);
      assert r.id !in Stores(s);
      QstatExact(s, r.id);
      assert r.id in Fifo.IdSet(t.queue.entries);
    }
  }

  /** `qdel` succeeds only on a waiting id: a running, finished, failed or
      unknown id gives false and changes nothing. */
  lemma QdelOnlyWaiting(s: State, id: Id)
    requires Valid(s)
    ensures Qdel(s, Str(id)).2 <==> Qstat(s, Str(id)) == Some(Waiting)
    ensures id in s.running ==> Qdel(s, Str(id)) == (s, [], false)
  {
    QstatExact(s, id);
    assert Fifo.Has(s.queue, id) <==> id in Queued(s);
  }

  /** After a successful `qdel` the id reads as removed. */
  lemma DeletedIsRemoved(s: State, id: Id)
    requires Valid(s)
    requires Qdel(s, Str(id)).2
    ensures Qstat(Qdel(s, Str(id)).0, Str(id)) == Some(Removed)
  {
    var t := Qdel(s, Str(id)).0;
    QdelPreservesValid(s, Str(id));
    Fifo.DelIdSet(s.queue, id);
    QstatExact(s, id);
    QstatExact(t, id);
  }

  /** `size()` is the number of waiting jobs: one queue entry per id
      that `qstat` reports as waiting. */
  lemma SizeCountsWaiting(s: State)
    requires Valid(s)
    ensures Size(s) == |Queued(s)|
    ensures forall id :: id in Queued(s) <==> Qstat(s, Str(id)) == Some(Waiting)
  {
    Fifo.DistinctIdCount(s.queue.entries);
    forall id ensures id in Queued(s) <==> Qstat(s, Str(id)) == Some(Waiting) {
      QstatExact(s, id);
    }
  }

  /** `getRunning()` lists exactly the ids `qstat` reports as running, as
      many as `numRunning`, so never more than maxConcurrent. */
  lemma GetRunningIsRunning(s: State)
    requires Valid(s)
    ensures |GetRunning(s)| == s.numRunning <= s.cfg.maxConcurrent
    ensures forall id :: id in GetRunning(s) <==> Qstat(s, Str(id)) == Some(Running)
  {
    forall id ensures id in GetRunning(s) <==> Qstat(s, Str(id)) == Some(Running) {
      QstatExact(s, id);
    }
  }

  /** A stopped scheduler ignores "go"; a started one dispatches on it. */
  lemma StopHaltsDispatch(s: State)
    requires Steppable(s)
    ensures Step(Stop(s), Go) == Stop(s)
    ensures Step(Start(s), Go) == Dispatch(Start(s)).0
  {
  }

  // ---------------------------------------------------------------------
  // Where a retried job goes: the head of the queue, unless retryLater
  // (documented as "retry job will be pushed to the bottom of queue")
  // ---------------------------------------------------------------------

  /** Neither the options nor the job say `retryLater`, so the flight's
      retryLater is false. */
  lemma RetryLaterDefaultsToFalse(opt: map<string, Value>, job: Job)
    requires "retryLater" !in opt && "retryLater" !in job.props
    ensures !ResolveFlight(job, Init(opt).cfg).retryLater
  {
  }

  /** A failed run that is retried goes back under the same id with
      `retryCount` one higher: at the head of the queue, ahead of every job
      already waiting, unless retryLater was truthy, in which case at the
      tail. */
  lemma RetryRequeuesAtHead(s: State, id: Id, err: Value, asked: bool)
    requires OrderedMap.Valid(s.waiting) && id in s.flights
    requires !GivesUp(s.flights[id], asked)
    ensures var job := s.flights[id].job.(retryCount := s.flights[id].job.retryCount + 1);
            var q := Complete(s, id, Threw(err), asked).0.queue.entries;
            && (!s.flights[id].retryLater ==> q == [Fifo.Entry(id, job)] + s.queue.entries)
            && (s.flights[id].retryLater ==> q == s.queue.entries + [Fifo.Entry(id, job)])
  {
    var f := s.flights[id];
    var job := f.job.(retryCount := f.job.retryCount + 1);
    var q1 := Fifo.Enqueue(s.queue, job, !f.retryLater, Some(id)).0;
    assert Complete(s, id, Threw(err), asked).0.queue == q1;
    if f.retryLater {
      assert q1.entries == q1.entries[..|s.queue.entries|] + [q1.entries[|s.queue.entries|]];
    } else {
      assert q1.entries == [q1.entries[0]] + q1.entries[1..];
    }
  }

  /** The retried job is in the queue once its run is recorded. */
  lemma RetriedIsQueued(s: State, id: Id, err: Value, asked: bool)
    requires id in s.flights && !GivesUp(s.flights[id], asked)
    ensures Fifo.Has(Record(s, id, Threw(err), asked).queue, id)
    ensures Record(s, id, Threw(err), asked).failed == s.failed
    ensures Record(s, id, Threw(err), asked).waiting == s.waiting
  {
    var f := s.flights[id];
    var job := f.job.(retryCount := f.job.retryCount + 1);
    Fifo.EnqueueIdSet(s.queue, job, !f.retryLater, Some(id));
  }

  /** The retried job keeps its waiters: the "done" handler sees it
      waiting again and settles no one, and the registry is untouched. */
  lemma RetriedKeepsWaiters(s: State, id: Id, err: Value, asked: bool, key: Value)
    requires OrderedMap.Valid(s.waiting) && id in s.flights && id !in s.failed
    requires !GivesUp(s.flights[id], asked)
    ensures Complete(s, id, Threw(err), asked).1 == []
    ensures WaitersOf(Complete(s, id, Threw(err), asked).0, key) == WaitersOf(s, key)
    ensures Qstat(Complete(s, id, Threw(err), asked).0, Str(id)) == Some(Waiting)
  {
    RetriedIsQueued(s, id, err, asked);
    var s1 := Record(s, id, Threw(err), asked);
    var s2 := s1.(running := s1.running - {id}, numRunning := s1.numRunning - 1, flights := s1.flights - {id});
    assert Qstat(s2, Str(id)) == Some(Waiting);
    assert Complete(s, id, Threw(err), asked) == OnDone(s2, id);
    assert OnDone(s2, id) == (s2, []);
  }

  // ---------------------------------------------------------------------
  // Retry decision
  // ---------------------------------------------------------------------

  /** With `retry: true` and an effective maxRetry of K, a failed run is
      final exactly when the job has been retried K times already. */
  lemma RetryTrueGivesUpAtLimit(f: Flight, k: int, asked: bool)
    requires f.retry == RetryFlag(true) && f.maxRetry == Some(k)
    ensures GivesUp(f, asked) <==> f.job.retryCount >= k
  {
  }

  /** A job goes back to the queue only below its limit, so `retryCount`
      never exceeds the effective maxRetry. */
  lemma RequeuedWithinLimit(s: State, id: Id, err: Value, asked: bool)
    requires id in s.flights
    requires !GivesUp(s.flights[id], asked)
    ensures var f := s.flights[id];
            f.maxRetry.Some? ==> f.job.retryCount + 1 <= f.maxRetry.value
  {
  }

  /** A final settlement (success, or a failure that is not retried) tells
      every waiter of the job, in registration order, with the outcome:
      resolve with the value, reject with the error. The job's registry
      entry goes, the other entries stay, and the job reads as finished or
      failed. A job nobody waits for settles no one. */
  lemma CompleteSettlesWaiters(s: State, id: Id, outcome: Outcome, asked: bool)
    requires OrderedMap.Valid(s.waiting) && id in s.flights
    requires id !in s.failed && !Fifo.Has(s.queue, id)
    requires outcome.Returned? || GivesUp(s.flights[id], asked)
    ensures var (t, settled) := Complete(s, id, outcome, asked);
            && settled == SettleAll(WaitersOf(s, Str(id)),
                                    if outcome.Returned? then Resolve(outcome.v) else Reject(outcome.err))
            && !OrderedMap.Has(t.waiting, Str(id))
            && Qstat(t, Str(id)) == Some(if outcome.Returned? then Finished else Failed)
  {
    var s1 := Record(s, id, outcome, asked);
    var s2 := s1.(running := s1.running - {id}, numRunning := s1.numRunning - 1, flights := s1.flights - {id});
    assert s2.queue == s.queue && s2.waiting == s.waiting;
    var st := if outcome.Returned? then Finished else Failed;
    assert Qstat(s2, Str(id)) == Some(st);
    var (t, settled) := OnDone(s2, id);
    assert Complete(s, id, outcome, asked) == (t, settled);
    OrderedMap.HasIsKey(s.waiting, Str(id));
    OrderedMap.HasIsKey(t.waiting, Str(id));
  }

  /** A job nobody waits for that returns `v` reads as finished; the first
      `getResult` gives `v`, and a second one gives null unless
      `noAutoClear` is truthy. A final failure is read the same way from
      the failed map. */
  lemma ResultReadOnce(s: State, id: Id, outcome: Outcome, asked: bool)
    requires OrderedMap.Valid(s.waiting) && id in s.flights
    requires id !in s.failed && !Fifo.Has(s.queue, id)
    requires !OrderedMap.Has(s.waiting, Str(id))
    requires outcome.Returned? || GivesUp(s.flights[id], asked)
    ensures var t := Complete(s, id, outcome, asked).0;
            var v := if outcome.Returned? then outcome.v else outcome.err;
            var (t1, first) := GetResult(t, Str(id), Bool(false));
            && Qstat(t, Str(id)) == Some(if outcome.Returned? then Finished else Failed)
            && first == v
            && GetResult(t1, Str(id), Bool(false)).1 == (if Truthy(s.cfg.noAutoClear) then v else Null)
  {
  }

  /** When the retry predicate of a failed run throws, the job is lost: it
      reads as removed, nothing is stored for it, its waiters are told
      nothing yet stay registered, and a later `qwait` on it resolves with
      "removed" at once. */
  lemma PredicateThrowLosesJob(s: State, id: Id, keep: Value)
    requires Valid(s) && id in s.flights && AsksPredicate(s.flights[id])
    ensures var (t, settled) := Abandon(s, id);
            && settled == []
            && Qstat(t, Str(id)) == Some(Removed)
            && id !in t.finished && id !in t.failed
            && WaitersOf(t, Str(id)) == WaitersOf(s, Str(id))
            && Qwait(t, Str(id), keep) == (t, Settles(Resolve(RemovedValue)))
  {
    QstatExact(s, id);
  }

  /** A job alone in an idle scheduler, about to make its run with the
      given `retryCount`: the job has no own `retry` or `maxRetry`, and the
      scheduler was built with `retry: true` and maxRetry K. */
  predicate Lone(s: State, id: Id, props: map<string, Value>, k: nat, limit: int)
  {
    && Steppable(s)
    && s.cfg.maxConcurrent >= 1 && s.numRunning == 0
    && s.queue.entries == [Fifo.Entry(id, Job(props, k))]
    && s.running == {}
    && id !in s.finished && id !in s.failed
    && s.dispatching
    && "retry" !in props && "maxRetry" !in props
    && s.cfg.retry == Bool(true) && s.cfg.maxRetry == Some(limit)
  }

  /** One run that throws: a "go" dispatches the job, then its executor
      rejects and the predicate answer is irrelevant. */
  function FailingRun(id: Id, err: Value): seq<Event>
  {
    [Go, Settle(id, Threw(err), false)]
  }

  function FailingRuns(id: Id, err: Value, n: nat): (es: seq<Event>)
    ensures |es| == 2 * n
  {
    if n == 0 then [] else FailingRun(id, err) + FailingRuns(id, err, n - 1)
  }

  /** The flight `_dispatch` builds for the lone job. */
  lemma LoneDispatch(s: State, id: Id, props: map<string, Value>, k: nat, limit: int)
    requires Lone(s, id, props, k, limit)
    ensures var t := Step(s, Go);
            && Steppable(t) && t.cfg == s.cfg && t.dispatching
            && t.numRunning == 1
            && t.queue.entries == [] && t.running == {id} && id in t.flights
            && t.flights[id].job == Job(props, k)
            && t.flights[id].retry == RetryFlag(true) && t.flights[id].maxRetry == Some(limit)
            && id !in t.finished && id !in t.failed
  {
    assert Prop(props, "maxRetry") == Undefined;
  }

  /** What the settlement of the lone job's failing run leaves behind. */
  lemma LoneSettle(t: State, id: Id, props: map<string, Value>, k: nat, limit: int, err: Value)
    requires Steppable(t) && t.numRunning == 1
    requires t.queue.entries == [] && t.running == {id} && id in t.flights
    requires t.flights[id].job == Job(props, k)
    requires t.flights[id].retry == RetryFlag(true) && t.flights[id].maxRetry == Some(limit)
    requires id !in t.finished && id !in t.failed
    ensures var u := Step(t, Settle(id, Threw(err), false));
            && Steppable(u) && u.cfg == t.cfg && u.dispatching == t.dispatching
            && u.numRunning == 0 && u.running == {} && id !in u.finished
            && (k >= limit ==> id in u.failed && u.queue.entries == [])
            && (k < limit ==> u.queue.entries == [Fifo.Entry(id, Job(props, k + 1))] && id !in u.failed)
  {
    var r := Record(t, id, Threw(err), false);
    if k < limit {
      assert r.queue == Fifo.Enqueue(t.queue, Job(props, k + 1), !t.flights[id].retryLater, Some(id)).0;
    }
  }

  /** One failing run of a lone job below its limit puts it back, alone,
      with `retryCount` one higher. */
  lemma OneFailingRun(s: State, id: Id, props: map<string, Value>, k: nat, limit: int, err: Value)
    requires Lone(s, id, props, k, limit)
    ensures k < limit ==> Lone(Steps(s, FailingRun(id, err)), id, props, k + 1, limit)
    ensures k >= limit ==> id in Steps(s, FailingRun(id, err)).failed
  {
    LoneDispatch(s, id, props, k, limit);
    var t := Step(s, Go);
    LoneSettle(t, id, props, k, limit, err);
    var es := FailingRun(id, err);
    assert es[1..] == [Settle(id, Threw(err), false)];
    assert Steps(s, es) == Steps(t, es[1..]);
    assert Steps(t, es[1..]) == Step(t, Settle(id, Threw(err), false));
  }

  /** Running `a` then `b` is running `a + b`. */
  lemma {:induction false} StepsAppend(s: State, a: seq<Event>, b: seq<Event>)
    requires Steppable(s)
    ensures Steps(s, a + b) == Steps(Steps(s, a), b)
    decreases |a|
  {
    if |a| == 0 {
      assert a + b == b;
    } else {
      assert (a + b)[0] == a[0];
      assert (a + b)[1..] == a[1..] + b;
      StepsAppend(Step(s, a[0]), a[1..], b);
    }
  }

  /** Below the limit, each failing run puts the job back with one more
      retry counted, so after n runs it is still waiting. */
  lemma {:induction false} StillWaitingAfter(s: State, id: Id, props: map<string, Value>, k: nat, limit: int, err: Value, n: nat)
    requires Lone(s, id, props, k, limit)
    requires k + n <= limit
    ensures Lone(Steps(s, FailingRuns(id, err, n)), id, props, k + n, limit)
    decreases n
  {
    if n == 0 {
      assert FailingRuns(id, err, n) == [];
    } else {
      OneFailingRun(s, id, props, k, limit, err);
      StepsAppend(s, FailingRun(id, err), FailingRuns(id, err, n - 1));
      var s1 := Steps(s, FailingRun(id, err));
      StillWaitingAfter(s1, id, props, k + 1, limit, err, n - 1);
      assert k + 1 + (n - 1) == k + n;
      assert Lone(Steps(s1, FailingRuns(id, err, n - 1)), id, props, k + n, limit);
      assert FailingRuns(id, err, n) == FailingRun(id, err) + FailingRuns(id, err, n - 1);
      assert Steps(s, FailingRuns(id, err, n)) == Steps(s1, FailingRuns(id, err, n - 1));
    }
  }

  /** The run made with `retryCount` equal to the limit is the last one:
      the job then reads as failed. */
  lemma {:induction false} FailedAfter(s: State, id: Id, props: map<string, Value>, k: nat, limit: int, err: Value)
    requires Lone(s, id, props, k, limit)
    requires k <= limit
    ensures id in Steps(s, FailingRuns(id, err, limit - k + 1)).failed
    decreases limit - k
  {
    OneFailingRun(s, id, props, k, limit, err);
    StepsAppend(s, FailingRun(id, err), FailingRuns(id, err, limit - k));
    var s1 := Steps(s, FailingRun(id, err));
    if k < limit {
      FailedAfter(s1, id, props, k + 1, limit, err);
    }
  }

  /** With `retry: true` and `maxRetry: K`, an executor that always throws
      is run K + 1 times: after each of the first K runs the job is waiting
      again (and not failed), after run K + 1 it is failed. */
  lemma AlwaysFailingRunsLimitPlusOne(s: State, id: Id, props: map<string, Value>, limit: nat, err: Value, n: nat)
    requires Lone(s, id, props, 0, limit)
    ensures n <= limit ==> Qstat(Steps(s, FailingRuns(id, err, n)), Str(id)) == Some(Waiting)
    ensures Qstat(Steps(s, FailingRuns(id, err, limit + 1)), Str(id)) == Some(Failed)
  {
    if n <= limit {
      StillWaitingAfter(s, id, props, 0, limit, err, n);
      var t := Steps(s, FailingRuns(id, err, n));
      assert t.queue.entries[0].id == id;
    }
    FailedAfter(s, id, props, 0, limit, err);
  }
}
