/** The scheduler of lib/index.js (class `SBS`) as a state record and pure
    transitions. Every point where the source awaits something (the
    executor, the retry predicate, the retry delay, the "go" timer) is a
    boundary between two transitions, and what the awaited thing produced is
    an input of the later one. */
module Scheduler {
  import opened JsValues
  import Sanitize
  import Fifo
  import OrderedMap

  type Id = Fifo.Id

  /** The retry setting once normalised: a function is asked, anything
      else is a constant answer given by its truthiness. */
  datatype RetryPolicy = RetryPredicate(fn: nat) | RetryFlag(on: bool)

  /** Scheduler-level settings, fixed by the constructor. `retry`,
      `retryLater` and `noAutoClear` are kept as given. */
  datatype Config = Config(
    maxConcurrent: int,
    exec: Option<nat>,
    retry: Value,
    retryLater: Value,
    maxRetry: Option<int>,      // None: unbounded (null)
    retryDelay: int,
    interval: int,
    noAutoClear: Value,
    name: string)

  /** A queued job in canonical shape: the job object's own properties
      (`exec`, `args`, `retry`, `retryLater`, `maxRetry`, `retryDelay`,
      `name`, ...) and the `retryCount` the scheduler maintains. */
  datatype Job = Job(props: map<string, Value>, retryCount: nat)

  /** A running job together with the settings `_dispatch` resolved for it
      before invoking the executor. */
  datatype Flight = Flight(
    job: Job,
    retry: RetryPolicy,
    maxRetry: Option<int>,
    retryDelay: int,
    retryLater: bool)

  /** What `_dispatch` calls: the executor, with `args` bound when the job
      has an own `args` property. */
  datatype Invocation = Invocation(exec: Value, arg: Option<Value>)

  /** A registration made by `qwait`: the promise is known by its ticket,
      and the record carries the caller's `keepResult`. */
  datatype Waiter = Waiter(ticket: nat, keepResult: Value)

  /** How a waiter's promise was settled. */
  datatype Settlement = Resolve(v: Value) | Reject(v: Value)

  datatype Settled = Settled(w: Waiter, how: Settlement)

  /** The sentinel a removed job's waiters resolve with. */
  const RemovedValue := Str("removed")

  datatype Status = Failed | Waiting | Running | Finished | Removed

  datatype SubmitResult = Submitted(id: Id) | Declined | TypeError

  datatype WaitAnswer = Settles(how: Settlement) | Pending(w: Waiter)

  /** What the executor did: returned (or resolved) a value, or threw (or
      rejected) an error. */
  datatype Outcome = Returned(v: Value) | Threw(err: Value)

  datatype State = State(
    cfg: Config,
    queue: Fifo.Queue<Job>,
    numRunning: int,
    running: set<Id>,
    flights: map<Id, Flight>,
    finished: map<Id, Value>,
    failed: map<Id, Value>,
    waiting: OrderedMap.Map<Value, seq<Waiter>>,
    dispatching: bool,            // the "go" listener is attached
    nextTicket: nat)

  // ---------------------------------------------------------------------
  // Construction
  // ---------------------------------------------------------------------

  /** The retry setting as `_dispatch` uses it: a function is asked about
      each error; any other value is wrapped as `() => retryFlag`, whose
      answer is the value's truthiness whatever the error. */
  function PolicyOf(v: Value): (p: RetryPolicy)
    ensures p.RetryPredicate? <==> v.Fn?
    ensures forall asked: bool :: RetryAnswer(p, asked) == (if v.Fn? then asked else Truthy(v))
  {
    if v.Fn? then RetryPredicate(v.ref) else RetryFlag(Truthy(v))
  }

  /** `new SBS(opt)`, for an options object with own properties `opt`. */
  function Init(opt: map<string, Value>): (s: State)
    // each numeric setting is its option, sanitised
    ensures Some(s.cfg.maxConcurrent) == Sanitize.SanitizeNumber(Prop(opt, "maxConcurrent"), 1, None, Some(1))
    ensures s.cfg.maxRetry == Sanitize.SanitizeNumber(Prop(opt, "maxRetry"), 1, None, None)
    ensures Some(s.cfg.retryDelay) == Sanitize.SanitizeNumber(Prop(opt, "retryDelay"), 1, None, Some(0))
    ensures Some(s.cfg.interval) == Sanitize.SanitizeNumber(Prop(opt, "interval"), 1, None, Some(0))
    ensures s.cfg.maxConcurrent >= 1
    ensures s.cfg.maxRetry.Some? ==> s.cfg.maxRetry.value >= 1
    ensures s.cfg.retryDelay >= 0 && s.cfg.interval >= 0
    // the default executor is `opt.exec` when that is a function
    ensures s.cfg.exec.Some? <==> Prop(opt, "exec").Fn?
    ensures s.cfg.exec.Some? ==> Prop(opt, "exec") == Fn(s.cfg.exec.value)
    // retry, retryLater and noAutoClear are kept as given; name must be a string
    ensures s.cfg.retry == Prop(opt, "retry") && s.cfg.retryLater == Prop(opt, "retryLater")
    ensures s.cfg.noAutoClear == Prop(opt, "noAutoClear")
    ensures Prop(opt, "name").Str? ==> s.cfg.name == Prop(opt, "name").s
    ensures !Prop(opt, "name").Str? ==> s.cfg.name == ""
    ensures s.dispatching <==> !Truthy(Prop(opt, "noAutoStart"))
    ensures |s.queue.entries| == 0 && s.numRunning == 0 && s.running == {}
    ensures s.finished == map[] && s.failed == map[] && OrderedMap.Keys(s.waiting) == {}
  {
    Sanitize.SanitizedSettingInRange(Prop(opt, "maxConcurrent"), 1, None, 1);
    var maxRetry := Sanitize.SanitizeNumber(Prop(opt, "maxRetry"), 1, None, None);
    var exec := Prop(opt, "exec");
    var name := Prop(opt, "name");
    var cfg := Config(
      maxConcurrent := Sanitize.SanitizeNumber(Prop(opt, "maxConcurrent"), 1, None, Some(1)).value,
      exec := if exec.Fn? then Some(exec.ref) else None,
      retry := Prop(opt, "retry"),
      retryLater := Prop(opt, "retryLater"),
      maxRetry := maxRetry,
      retryDelay := SanitizeOrZero(Prop(opt, "retryDelay")),
      interval := SanitizeOrZero(Prop(opt, "interval")),
      noAutoClear := Prop(opt, "noAutoClear"),
      name := if name.Str? then name.s else "");
    State(cfg, Fifo.Empty(), 0, {}, map[], map[], map[], OrderedMap.Empty(),
          !Truthy(Prop(opt, "noAutoStart")), 0)
  }

  /** `sanitizeNumber(v, 1, null, d)` for a default `d >= 0`: 0 stands for
      "no delay", every other result is at least 1. */
  function SanitizeWithDefault(v: Value, d: int): (r: int)
    ensures r == d || r >= 1
    ensures Sanitize.SanitizeNumber(v, 1, None, Some(d)) == Some(r)
  {
    var o := Sanitize.SanitizeNumber(v, 1, None, Some(d));
    if o.Some? then o.value else d
  }

  function SanitizeOrZero(v: Value): (r: int)
    ensures r >= 0
  {
    SanitizeWithDefault(v, 0)
  }

  // ---------------------------------------------------------------------
  // Queries
  // ---------------------------------------------------------------------

  /** `qstat(id)`: None (null) for a non-string id; otherwise the first of
      failed, waiting, running, finished that holds, else removed. */
  function Qstat(s: State, id: Value): (r: Option<Status>)
    ensures r.None? <==> !id.Str?
    ensures r == Some(Failed) <==> id.Str? && id.s in s.failed
    ensures r == Some(Waiting) <==> id.Str? && id.s !in s.failed && Fifo.Has(s.queue, id.s)
    ensures r == Some(Running) <==>
              id.Str? && id.s !in s.failed && !Fifo.Has(s.queue, id.s) && id.s in s.running
    ensures r == Some(Finished) <==>
              id.Str? && id.s !in s.failed && !Fifo.Has(s.queue, id.s) && id.s !in s.running && id.s in s.finished
  {
    if !id.Str? then None
    else if id.s in s.failed then Some(Failed)
    else if Fifo.Has(s.queue, id.s) then Some(Waiting)
    else if id.s in s.running then Some(Running)
    else if id.s in s.finished then Some(Finished)
    else Some(Removed)
  }

  /** Whether reading a result blanks its slot. */
  predicate Consumes(s: State, keepResult: Value)
  {
    !(Truthy(s.cfg.noAutoClear) || Truthy(keepResult))
  }

  /** `getResult(id, keepResult)`: the failed slot if the key exists, else
      the finished slot, else null. Unless noAutoClear or keepResult is
      truthy the slot read is set to null; the key stays. */
  function GetResult(s: State, id: Value, keepResult: Value): (r: (State, Value))
    ensures id.Str? && id.s in s.failed ==> r.1 == s.failed[id.s]
    ensures id.Str? && id.s !in s.failed && id.s in s.finished ==> r.1 == s.finished[id.s]
    ensures !(id.Str? && (id.s in s.failed || id.s in s.finished)) ==> r == (s, Null)
    // only the slot read can change, and only to null
    ensures r.0.failed.Keys == s.failed.Keys && r.0.finished.Keys == s.finished.Keys
    ensures forall k | k in s.failed && id != Str(k) :: r.0.failed[k] == s.failed[k]
    ensures forall k | k in s.finished && (id != Str(k) || k in s.failed) ::
              r.0.finished[k] == s.finished[k]
    ensures id.Str? && id.s in s.failed ==>
              r.0.failed[id.s] == (if Consumes(s, keepResult) then Null else s.failed[id.s])
    ensures id.Str? && id.s !in s.failed && id.s in s.finished ==>
              r.0.finished[id.s] == (if Consumes(s, keepResult) then Null else s.finished[id.s])
    ensures r.0 == s.(failed := r.0.failed, finished := r.0.finished)
  {
    if id.Str? && id.s in s.failed then
      var rt := s.failed[id.s];
      (if Consumes(s, keepResult) then s.(failed := s.failed[id.s := Null]) else s, rt)
    else if id.Str? && id.s in s.finished then
      var rt := s.finished[id.s];
      (if Consumes(s, keepResult) then s.(finished := s.finished[id.s := Null]) else s, rt)
    else
      (s, Null)
  }

  /** `size()`: with nothing queued no id reads as waiting; otherwise the
      head's id reads as waiting (or failed, which `qstat` checks first). */
  function Size(s: State): (n: nat)
    ensures n == |s.queue.entries|
    ensures n == 0 ==> forall id :: Qstat(s, Str(id)) != Some(Waiting)
    ensures n > 0 ==> Qstat(s, Str(s.queue.entries[0].id)) in {Some(Failed), Some(Waiting)}
  {
    assert Fifo.Size(s.queue) > 0 ==> Fifo.Has(s.queue, s.queue.entries[0].id);
    Fifo.Size(s.queue)
  }

  /** `getRunning()`, as a set (the source returns it in insertion order).
      A running id never reads as finished or removed: `qstat` looks at
      the running set before the finished map. */
  function GetRunning(s: State): (r: set<Id>)
    ensures forall id | id in r :: Qstat(s, Str(id)) in {Some(Failed), Some(Waiting), Some(Running)}
  {
    s.running
  }

  // ---------------------------------------------------------------------
  // Submission
  // ---------------------------------------------------------------------

  /** The job shape `qsub` stores: a bare function becomes `{exec}`, a value
      with neither own `exec` nor own `args` becomes `{args}`, and an object
      with either is kept as it is. */
  function Normalize(job: Value): (props: map<string, Value>)
    // a function is stored as {exec}, a bare argument as {args}, and an
    // object naming either keeps its own keys (retryCount is reset later)
    ensures job.Fn? ==> props.Keys == {"exec"}
    ensures !job.Fn? && !(job.Obj? && ("exec" in job.props || "args" in job.props)) ==> props.Keys == {"args"}
    ensures job.Obj? && ("exec" in job.props || "args" in job.props) ==> props.Keys == job.props.Keys - {"retryCount"}
    // the stored job always names an executor or an argument
    ensures "exec" in props || "args" in props
    // retryCount belongs to the scheduler, whatever the caller put there
    ensures "retryCount" !in props
    ensures "exec" in props ==> props["exec"] == (if job.Fn? then job else PropOf(job, "exec"))
    ensures "args" in props ==>
              props["args"] == (if job.Obj? && ("exec" in job.props || "args" in job.props) then PropOf(job, "args") else job)
    // an object that already names exec or args keeps all its settings
    ensures job.Obj? && ("exec" in job.props || "args" in job.props) ==>
              forall k | k in job.props && k != "retryCount" :: k in props && props[k] == job.props[k]
  {
    if job.Fn? then map["exec" := job]
    else if !(job.Obj? && ("exec" in job.props || "args" in job.props)) then map["args" := job]
    else job.props - {"retryCount"}
  }

  /** An executor is resolvable for the job: its own `exec` is a function,
      or it has none and the scheduler has a default. */
  predicate Runnable(props: map<string, Value>, exec: Option<nat>)
  {
    if "exec" in props then props["exec"].Fn? else exec.Some?
  }

  /** What `qsub` accepts is exactly what `_dispatch` can later run: the
      stored job has a callable executor iff `qsub` does not decline it. */
  lemma NormalizeRunnable(s: State, job: Value, urgent: bool)
    requires !job.Undefined? && !job.Null?
    ensures Runnable(Normalize(job), s.cfg.exec) <==> !Qsub(s, job, urgent).1.Declined?
  {
  }

  /** `qsub(job, urgent)`. Null and undefined jobs make the property reads
      throw a TypeError. A job is declined (null) when no executor can be
      found, or when it has an own `exec` that is not a function. Otherwise
      one job is enqueued with `retryCount` 0 under a fresh id. */
  function Qsub(s: State, job: Value, urgent: bool): (r: (State, SubmitResult))
    ensures r.1.TypeError? <==> job.Undefined? || job.Null?
    ensures r.1.Declined? <==>
              !job.Undefined? && !job.Null? &&
              ((s.cfg.exec.None? && !job.Fn? && !PropOf(job, "exec").Fn?) ||
               (job.Obj? && "exec" in job.props && !job.props["exec"].Fn?))
    ensures !r.1.Submitted? ==> r.0 == s
    ensures r.1.Submitted? ==>
              && r.1.id !in s.queue.issued
              && r.0 == s.(queue := Fifo.Enqueue(s.queue, Job(Normalize(job), 0), urgent, None).0)
              && Fifo.Enqueue(s.queue, Job(Normalize(job), 0), urgent, None).1 == r.1.id
              && Runnable(Normalize(job), s.cfg.exec)
  {
    if job.Undefined? || job.Null? then (s, TypeError)
    else if s.cfg.exec.None? && !job.Fn? && !PropOf(job, "exec").Fn? then (s, Declined)
    else if job.Obj? && "exec" in job.props && !job.props["exec"].Fn? then (s, Declined)
    else
      var (q, id) := Fifo.Enqueue(s.queue, Job(Normalize(job), 0), urgent, None);
      (s.(queue := q), Submitted(id))
  }

  // ---------------------------------------------------------------------
  // Wait registry
  // ---------------------------------------------------------------------

  /** The same settlement for every waiter of a list, in registration order. */
  function SettleAll(ws: seq<Waiter>, how: Settlement): (r: seq<Settled>)
    ensures |r| == |ws|
    ensures forall i | 0 <= i < |ws| :: r[i] == Settled(ws[i], how)
  {
    if |ws| == 0 then [] else [Settled(ws[0], how)] + SettleAll(ws[1..], how)
  }

  function WaitersOf(s: State, key: Value): (ws: seq<Waiter>)
  {
    if OrderedMap.Has(s.waiting, key) then OrderedMap.Get(s.waiting, key) else []
  }

  /** `qdel(id)`: true iff the id was queued; then it leaves the queue and
      every waiter registered for it resolves with "removed". */
  function Qdel(s: State, id: Value): (r: (State, seq<Settled>, bool))
    requires OrderedMap.Valid(s.waiting)
    ensures r.2 <==> id.Str? && Fifo.Has(s.queue, id.s)
    ensures !r.2 ==> r.0 == s && r.1 == []
    ensures r.2 ==> && r.0.queue == Fifo.Del(s.queue, id.s).0
                    && r.1 == SettleAll(WaitersOf(s, id), Resolve(RemovedValue))
                    && OrderedMap.Keys(r.0.waiting) == OrderedMap.Keys(s.waiting) - {id}
                    && (forall k | k != id :: WaitersOf(r.0, k) == WaitersOf(s, k))
                    // the other entries keep their relative order
                    && r.0.waiting == OrderedMap.Delete(s.waiting, id)
                    && r.0 == s.(queue := r.0.queue, waiting := r.0.waiting)
    ensures OrderedMap.Valid(r.0.waiting)
  {
    if !id.Str? then (s, [], false)
    else
      var (q, rt) := Fifo.Del(s.queue, id.s);
      if !rt then (s, [], false)
      else if OrderedMap.Has(s.waiting, id) then
        var ws := OrderedMap.Get(s.waiting, id);
        (s.(queue := q, waiting := OrderedMap.Delete(s.waiting, id)), SettleAll(ws, Resolve(RemovedValue)), true)
      else
        OrderedMap.HasIsKey(s.waiting, id);
        (s.(queue := q), [], true)
  }

  /** `qwait(id, keepResult)`: a failed job rejects with its result, a
      finished one resolves with it, a removed or unknown one resolves with
      "removed" (all immediately); a waiting or running job, and any
      non-string id, gets a registered waiter. */
  function Qwait(s: State, id: Value, keepResult: Value): (r: (State, WaitAnswer))
    requires OrderedMap.Valid(s.waiting)
    ensures Qstat(s, id) == Some(Failed) ==>
              r == (GetResult(s, id, keepResult).0, Settles(Reject(s.failed[id.s])))
    ensures Qstat(s, id) == Some(Finished) ==>
              r == (GetResult(s, id, keepResult).0, Settles(Resolve(s.finished[id.s])))
    ensures Qstat(s, id) == Some(Removed) ==> r == (s, Settles(Resolve(RemovedValue)))
    ensures Qstat(s, id) in {None, Some(Waiting), Some(Running)} ==>
              && r.1 == Pending(Waiter(s.nextTicket, keepResult))
              && WaitersOf(r.0, id) == WaitersOf(s, id) + [r.1.w]
              && OrderedMap.Keys(r.0.waiting) == OrderedMap.Keys(s.waiting) + {id}
              && (forall k | k != id :: WaitersOf(r.0, k) == WaitersOf(s, k))
              // an existing entry keeps its place, a new one goes last
              && r.0.waiting == OrderedMap.Set(s.waiting, id, WaitersOf(s, id) + [r.1.w])
              && r.0 == s.(waiting := r.0.waiting, nextTicket := s.nextTicket + 1)
    ensures OrderedMap.Valid(r.0.waiting)
  {
    var state := Qstat(s, id);
    if state == Some(Failed) then
      var (s1, v) := GetResult(s, id, keepResult);
      (s1, Settles(Reject(v)))
    else if state == Some(Finished) then
      var (s1, v) := GetResult(s, id, keepResult);
      (s1, Settles(Resolve(v)))
    else if state == Some(Removed) then
      (s, Settles(Resolve(RemovedValue)))
    else
      var w := Waiter(s.nextTicket, keepResult);
      var p := WaitersOf(s, id) + [w];
      var waiting := OrderedMap.Set(s.waiting, id, p);
      OrderedMap.HasIsKey(s.waiting, id);
      assert forall k | k != id :: WaitersOf(s.(waiting := waiting), k) == WaitersOf(s, k) by {
        forall k | k != id ensures WaitersOf(s.(waiting := waiting), k) == WaitersOf(s, k) {
          OrderedMap.HasIsKey(s.waiting, k);
          OrderedMap.HasIsKey(waiting, k);
        }
      }
      (s.(waiting := waiting, nextTicket := s.nextTicket + 1), Pending(w))
  }

  /** The properties of a registered waiter record that the source reads:
      the record is `{ resolve, reject, keepResult }`. */
  function WaiterProp(w: Waiter, name: string): Value
  {
    if name == "keepResult" then w.keepResult else Undefined
  }

  /** `p.some((e) => e.keepResults)`: the settlement handler asks for a
      property named `keepResults`, which the records do not have. */
  predicate AnyKeepResults(p: seq<Waiter>)
  {
    exists i | 0 <= i < |p| :: Truthy(WaiterProp(p[i], "keepResults"))
  }

  /** The `"done"` handler for `id`: when the id has waiters and is now
      finished or failed, read the result once for all of them, drop the
      registry entry, and resolve (finished) or reject (failed) every waiter
      with it. A job going round again (waiting) keeps its waiters. */
  function OnDone(s: State, id: Id): (r: (State, seq<Settled>))
    requires OrderedMap.Valid(s.waiting)
    ensures OrderedMap.Valid(r.0.waiting)
    ensures Qstat(s, Str(id)) !in {Some(Finished), Some(Failed)} || !OrderedMap.Has(s.waiting, Str(id)) ==>
              r == (s, [])
    ensures Qstat(s, Str(id)) in {Some(Finished), Some(Failed)} && OrderedMap.Has(s.waiting, Str(id)) ==>
              && OrderedMap.Keys(r.0.waiting) == OrderedMap.Keys(s.waiting) - {Str(id)}
              && r.0.waiting == OrderedMap.Delete(s.waiting, Str(id))
              && r.0 == GetResult(s, Str(id), Bool(false)).0.(waiting := r.0.waiting)
              && r.1 == SettleAll(OrderedMap.Get(s.waiting, Str(id)),
                                  if id in s.failed then Reject(s.failed[id]) else Resolve(s.finished[id]))
    ensures forall k | k != Str(id) && OrderedMap.Has(s.waiting, k) ::
              OrderedMap.Has(r.0.waiting, k) && OrderedMap.Get(r.0.waiting, k) == OrderedMap.Get(s.waiting, k)
    // only result values and the registry change
    ensures r.0 == s.(finished := r.0.finished, failed := r.0.failed, waiting := r.0.waiting)
    ensures r.0.finished.Keys == s.finished.Keys && r.0.failed.Keys == s.failed.Keys
  {
    var key := Str(id);
    if !OrderedMap.Has(s.waiting, key) then (s, [])
    else
      var state := Qstat(s, key);
      if state != Some(Finished) && state != Some(Failed) then (s, [])
      else
        var p := OrderedMap.Get(s.waiting, key);
        var keepResults := AnyKeepResults(p);
        NoWaiterKeepsResults(p);
        var (s1, result) := GetResult(s, key, Bool(keepResults));
        var s2 := s1.(waiting := OrderedMap.Delete(s1.waiting, key));
        (s2, SettleAll(p, if state == Some(Finished) then Resolve(result) else Reject(result)))
  }

  /** No waiter record has a truthy `keepResults`, whatever `keepResult`
      its caller passed. */
  lemma NoWaiterKeepsResults(p: seq<Waiter>)
    ensures !AnyKeepResults(p)
  {
  }

  /** For each registry entry, in map order, whose key is not a running id,
      every waiter resolves with "removed". */
  function ClearSettlements(entries: seq<(Value, seq<Waiter>)>, running: set<Id>): (r: seq<Settled>)
  {
    if |entries| == 0 then []
    else
      var (k, v) := entries[0];
      (if k.Str? && k.s in running then [] else SettleAll(v, Resolve(RemovedValue)))
      + ClearSettlements(entries[1..], running)
  }

  /** `clear()`: stop dispatching, empty the queue, the result maps and the
      whole wait registry, resolving with "removed" the waiters of every id
      that is not running. Jobs already running are not touched. */
  function Clear(s: State): (r: (State, seq<Settled>))
    ensures !r.0.dispatching
    ensures |r.0.queue.entries| == 0 && r.0.queue.issued == s.queue.issued
    ensures r.0.finished == map[] && r.0.failed == map[]
    ensures OrderedMap.Keys(r.0.waiting) == {} && OrderedMap.Valid(r.0.waiting)
    ensures r.0.running == s.running && r.0.flights == s.flights && r.0.numRunning == s.numRunning
    ensures r.0.cfg == s.cfg && r.0.nextTicket == s.nextTicket
    ensures r.1 == ClearSettlements(s.waiting.entries, s.running)
  {
    var s' := s.(dispatching := false,
                 queue := Fifo.Clear(s.queue),
                 finished := map[],
                 failed := map[],
                 waiting := OrderedMap.Clear(s.waiting));
    (s', ClearSettlements(s.waiting.entries, s.running))
  }

  /** `clearResults()`: every stored value becomes null, both key sets stay. */
  function ClearResults(s: State): (r: State)
    ensures r.finished.Keys == s.finished.Keys && r.failed.Keys == s.failed.Keys
    ensures forall k | k in r.finished :: r.finished[k] == Null
    ensures forall k | k in r.failed :: r.failed[k] == Null
    ensures r == s.(finished := r.finished, failed := r.failed)
  {
    s.(failed := map k | k in s.failed :: Null, finished := map k | k in s.finished :: Null)
  }

  /** `start()`: attach the "go" listener (at most once); no job is
      touched. */
  function Start(s: State): (r: State)
    ensures r.dispatching && r == s.(dispatching := true)
    ensures forall id :: Qstat(r, id) == Qstat(s, id)
  {
    s.(dispatching := true)
  }

  /** `stop()`: detach the "go" listener; running jobs carry on and no
      job is touched. */
  function Stop(s: State): (r: State)
    ensures !r.dispatching && r == s.(dispatching := false)
    ensures forall id :: Qstat(r, id) == Qstat(s, id)
  {
    s.(dispatching := false)
  }

  // ---------------------------------------------------------------------
  // Dispatch and completion
  // ---------------------------------------------------------------------

  /** The executor `_dispatch` calls for a job. */
  function ResolveInvocation(props: map<string, Value>, exec: Option<nat>): (inv: Invocation)
    ensures Runnable(props, exec) ==> inv.exec.Fn?
    ensures "exec" in props ==> inv.exec == props["exec"]
    ensures "exec" !in props && exec.Some? ==> inv.exec == Fn(exec.value)
    ensures inv.arg.Some? <==> "args" in props
    ensures inv.arg.Some? ==> inv.arg.value == props["args"]
  {
    var e := if "exec" in props then props["exec"] else if exec.Some? then Fn(exec.value) else Null;
    Invocation(e, if "args" in props then Some(props["args"]) else None)
  }

  /** The job-level settings, each overriding the scheduler's: `retry` and
      `retryLater` when the job has them as own properties, `maxRetry` and
      `retryDelay` when the job's value survives `sanitizeNumber`. */
  function ResolveFlight(job: Job, cfg: Config): (f: Flight)
    requires cfg.retryDelay >= 0
    ensures f.job == job
    // the job's limit, when it overrides the scheduler's, is at least 1
    ensures f.maxRetry == cfg.maxRetry || (f.maxRetry.Some? && f.maxRetry.value >= 1)
    ensures f.retryDelay == cfg.retryDelay || f.retryDelay >= 1
  {
    Flight(
      job,
      PolicyOf(if "retry" in job.props then job.props["retry"] else cfg.retry),
      Sanitize.SanitizeNumber(Prop(job.props, "maxRetry"), 1, None, cfg.maxRetry),
      SanitizeWithDefault(Prop(job.props, "retryDelay"), cfg.retryDelay),
      Truthy(if "retryLater" in job.props then job.props["retryLater"] else cfg.retryLater))
  }

  /** What each job-level setting does to the flight: an own `retry` or
      `retryLater` replaces the scheduler's, whatever its value; a
      `maxRetry` or `retryDelay` replaces the scheduler's only when it is a
      number whose floor is at least 1, and a smaller number, a missing
      property or any value that is neither a number nor a string leaves
      the scheduler's in force. */
  lemma FlightSettings(job: Job, cfg: Config)
    requires cfg.retryDelay >= 0
    ensures var f := ResolveFlight(job, cfg);
            var mr := Prop(job.props, "maxRetry");
            var rd := Prop(job.props, "retryDelay");
            && ("retry" !in job.props ==> f.retry == PolicyOf(cfg.retry))
            && ("retry" in job.props ==> f.retry == PolicyOf(job.props["retry"]))
            && ("retryLater" !in job.props ==> f.retryLater == Truthy(cfg.retryLater))
            && ("retryLater" in job.props ==> f.retryLater == Truthy(job.props["retryLater"]))
            && (mr.Num? && mr.x.Floor >= 1 ==> f.maxRetry == Some(mr.x.Floor))
            && (mr.Num? && mr.x.Floor < 1 ==> f.maxRetry == cfg.maxRetry)
            && (!mr.Num? && !mr.Str? ==> f.maxRetry == cfg.maxRetry)
            && (rd.Num? && rd.x.Floor >= 1 ==> f.retryDelay == rd.x.Floor)
            && (rd.Num? && rd.x.Floor < 1 ==> f.retryDelay == cfg.retryDelay)
            && (!rd.Num? && !rd.Str? ==> f.retryDelay == cfg.retryDelay)
  {
  }

  /** The first half of `_dispatch`, up to the call of the executor:
      nothing happens when the queue is empty or `numRunning` has reached
      `maxConcurrent`; otherwise the head job is dequeued, its id marked
      running and `numRunning` incremented. */
  function Dispatch(s: State): (r: (State, Option<Invocation>))
    requires s.cfg.retryDelay >= 0
    ensures |s.queue.entries| == 0 || s.numRunning >= s.cfg.maxConcurrent ==> r == (s, None)
    ensures |s.queue.entries| > 0 && s.numRunning < s.cfg.maxConcurrent ==>
              var head := s.queue.entries[0];
              && r.1 == Some(ResolveInvocation(head.e.props, s.cfg.exec))
              && r.0.queue.entries == s.queue.entries[1..]
              && r.0.queue.issued == s.queue.issued
              && r.0.numRunning == s.numRunning + 1
              && r.0.running == s.running + {head.id}
              && r.0.flights == s.flights[head.id := ResolveFlight(head.e, s.cfg)]
              && r.0 == s.(queue := r.0.queue, numRunning := r.0.numRunning,
                           running := r.0.running, flights := r.0.flights)
    ensures r.0.numRunning <= s.numRunning + 1
    ensures s.numRunning <= s.cfg.maxConcurrent ==> r.0.numRunning <= s.cfg.maxConcurrent
  {
    if Fifo.Size(s.queue) <= 0 then (s, None)
    else if s.numRunning >= s.cfg.maxConcurrent then (s, None)
    else
      var (q, out) := Fifo.Dequeue(s.queue);
      var (job, id) := out.value;
      var s' := s.(queue := q,
                   numRunning := s.numRunning + 1,
                   running := s.running + {id},
                   flights := s.flights[id := ResolveFlight(job, s.cfg)]);
      (s', Some(ResolveInvocation(job.props, s.cfg.exec)))
  }

  /** What the retry setting answers for this error: a predicate's answer
      is the input `asked`, a constant is its own truthiness. */
  function RetryAnswer(p: RetryPolicy, asked: bool): bool
  {
    match p
    case RetryPredicate(_) => asked
    case RetryFlag(on) => on
  }

  /** Whether the limit of the flight is reached. */
  predicate AtLimit(f: Flight)
  {
    f.maxRetry.Some? && f.job.retryCount >= f.maxRetry.value
  }

  /** A failed run becomes final when the effective maxRetry is set and the
      job has been retried that often, or when the retry setting says no. */
  function GivesUp(f: Flight, asked: bool): (r: bool)
    // at the limit the retry setting is not consulted
    ensures AtLimit(f) ==> r
    // a falsy constant never retries; a truthy one retries below the limit
    ensures f.retry.RetryFlag? ==> (r <==> AtLimit(f) || !f.retry.on)
    // below the limit a predicate decides: it is retried iff the predicate says yes
    ensures f.retry.RetryPredicate? && !AtLimit(f) ==> (r <==> !asked)
  {
    (f.maxRetry.Some? && f.job.retryCount >= f.maxRetry.value) || !RetryAnswer(f.retry, asked)
  }

  /** The state change of the `try`/`catch` part of `_dispatch`. */
  function Record(s: State, id: Id, outcome: Outcome, asked: bool): (r: State)
    requires id in s.flights
    // success: the value is stored under the id, nothing else changes
    ensures outcome.Returned? ==>
              && id in r.finished && r.finished[id] == outcome.v
              && r.finished.Keys == s.finished.Keys + {id}
              && (forall k | k in s.finished && k != id :: r.finished[k] == s.finished[k])
              && r == s.(finished := r.finished)
    // a final failure: the error is stored under the id, nothing else changes
    ensures outcome.Threw? && GivesUp(s.flights[id], asked) ==>
              && id in r.failed && r.failed[id] == outcome.err
              && r.failed.Keys == s.failed.Keys + {id}
              && (forall k | k in s.failed && k != id :: r.failed[k] == s.failed[k])
              && r == s.(failed := r.failed)
    // a retry: the job is queued again under its id with one more retry
    // counted, at the head unless retryLater; nothing else changes
    ensures outcome.Threw? && !GivesUp(s.flights[id], asked) ==>
              var f := s.flights[id];
              var e := Fifo.Entry(id, f.job.(retryCount := f.job.retryCount + 1));
              && Fifo.IdSet(r.queue.entries) == Fifo.IdSet(s.queue.entries) + {id}
              && (!f.retryLater ==> r.queue.entries == [e] + s.queue.entries)
              && (f.retryLater ==> r.queue.entries == s.queue.entries + [e])
              && r == s.(queue := r.queue)
  {
    var f := s.flights[id];
    match outcome
    case Returned(v) => s.(finished := s.finished[id := v])
    case Threw(err) =>
      if GivesUp(f, asked) then
        s.(failed := s.failed[id := err])
      else
        var job := f.job.(retryCount := f.job.retryCount + 1);
        var q := Fifo.Enqueue(s.queue, job, !f.retryLater, Some(id)).0;
        Fifo.EnqueueIdSet(s.queue, job, !f.retryLater, Some(id));
        assert !f.retryLater ==> q.entries == [q.entries[0]] + q.entries[1..];
        assert f.retryLater ==> q.entries == q.entries[..|s.queue.entries|] + [q.entries[|s.queue.entries|]];
        s.(queue := q)
  }

  /** The second half of `_dispatch`, after the executor settled: record
      the outcome (finished, failed, or back in the queue under the same id
      with `retryCount` one higher), then the `finally` block: the id leaves
      `running`, `numRunning` drops by one, and the "done" handler runs. The
      retry predicate's answer and the delay are inputs; the delay only
      postpones the re-enqueue and leaves no trace in the state. */
  function Complete(s: State, id: Id, outcome: Outcome, asked: bool): (r: (State, seq<Settled>))
    requires id in s.flights
    requires OrderedMap.Valid(s.waiting)
    ensures OrderedMap.Valid(r.0.waiting)
    ensures r.0.numRunning == s.numRunning - 1
    ensures r.0.running == s.running - {id}
    ensures r.0.flights == s.flights - {id}
    ensures r.0.cfg == s.cfg && r.0.dispatching == s.dispatching && r.0.nextTicket == s.nextTicket
    ensures r.0.queue == Record(s, id, outcome, asked).queue
    ensures r.0.finished.Keys == Record(s, id, outcome, asked).finished.Keys
    ensures r.0.failed.Keys == Record(s, id, outcome, asked).failed.Keys
    // with nobody waiting the "done" handler does nothing: the outcome
    // stays stored as recorded and no waiter is settled
    ensures !OrderedMap.Has(s.waiting, Str(id)) ==>
              && r.1 == []
              && r.0 == Record(s, id, outcome, asked).(running := s.running - {id},
                                                      numRunning := s.numRunning - 1,
                                                      flights := s.flights - {id})
    ensures outcome.Returned? && !OrderedMap.Has(s.waiting, Str(id)) ==>
              id in r.0.finished && r.0.finished[id] == outcome.v
    ensures outcome.Threw? && GivesUp(s.flights[id], asked) && !OrderedMap.Has(s.waiting, Str(id)) ==>
              id in r.0.failed && r.0.failed[id] == outcome.err
  {
    var s1 := Record(s, id, outcome, asked);
    var s2 := s1.(running := s1.running - {id}, numRunning := s1.numRunning - 1, flights := s1.flights - {id});
    OnDone(s2, id)
  }

  /** The retry predicate is consulted for a failed run: the flight's retry
      setting is a function and the limit is not reached. */
  predicate AsksPredicate(f: Flight)
  {
    f.retry.RetryPredicate? && !AtLimit(f)
  }

  /** The second half of `_dispatch` when the retry predicate itself throws
      or rejects: the `catch` block records nothing, the `finally` block
      still releases the id, and the "done" handler runs. A job that is in
      no other store reads as removed afterwards, and its waiters are
      neither told nor dropped. */
  function Abandon(s: State, id: Id): (r: (State, seq<Settled>))
    requires id in s.flights && AsksPredicate(s.flights[id])
    requires OrderedMap.Valid(s.waiting)
    ensures OrderedMap.Valid(r.0.waiting)
    ensures r.0.numRunning == s.numRunning - 1
    ensures r.0.running == s.running - {id}
    ensures r.0.flights == s.flights - {id}
    ensures r.0.cfg == s.cfg && r.0.dispatching == s.dispatching && r.0.nextTicket == s.nextTicket
    ensures r.0.queue == s.queue
    ensures r.0.finished.Keys == s.finished.Keys && r.0.failed.Keys == s.failed.Keys
    ensures id !in s.finished && id !in s.failed && !Fifo.Has(s.queue, id) ==>
              && Qstat(r.0, Str(id)) == Some(Removed)
              && r.1 == []
              && r.0 == s.(running := r.0.running, numRunning := r.0.numRunning, flights := r.0.flights)
  {
    OnDone(s.(running := s.running - {id}, numRunning := s.numRunning - 1, flights := s.flights - {id}), id)
  }

  // ---------------------------------------------------------------------
  // The environment's moves
  // ---------------------------------------------------------------------

  /** What `Step` needs of a state: the constructor establishes it and
      every step keeps it. */
  predicate Steppable(s: State)
  {
    OrderedMap.Valid(s.waiting) && s.cfg.retryDelay >= 0
  }

  /** Everything that can happen to a scheduler: calls of its public
      operations, a "go" signal (timer or event), a running job's executor
      settling, and the retry predicate of a failed run throwing. */
  datatype Event =
    | Submit(job: Value, urgent: bool)
    | Go
    | Settle(running: Id, outcome: Outcome, asked: bool)
    | PredicateThrew(running: Id)
    | Delete(id: Value)
    | Wait(id: Value, keepResult: Value)
    | Read(id: Value, keepResult: Value)
    | ClearAll
    | ClearAllResults
    | StartDispatch
    | StopDispatch

  /** The state after `e`. A "go" reaches `_dispatch` only while the
      listener is attached; only a running job's executor can settle. */
  function Step(s: State, e: Event): (r: State)
    requires Steppable(s)
    // the settings never change and the registry stays a valid map
    ensures Steppable(r) && r.cfg == s.cfg
  {
    match e
    case Submit(job, urgent) => Qsub(s, job, urgent).0
    case Go => if s.dispatching then Dispatch(s).0 else s
    case Settle(id, outcome, asked) => if id in s.flights then Complete(s, id, outcome, asked).0 else s
    case PredicateThrew(id) => if id in s.flights && AsksPredicate(s.flights[id]) then Abandon(s, id).0 else s
    case Delete(id) => Qdel(s, id).0
    case Wait(id, keep) => Qwait(s, id, keep).0
    case Read(id, keep) => GetResult(s, id, keep).0
    case ClearAll => Clear(s).0
    case ClearAllResults => ClearResults(s)
    case StartDispatch => Start(s)
    case StopDispatch => Stop(s)
  }

  /** The state after a whole run of events. */
  function Steps(s: State, es: seq<Event>): (r: State)
    requires Steppable(s)
    ensures Steppable(r) && r.cfg == s.cfg
    decreases |es|
  {
    if |es| == 0 then s else Steps(Step(s, es[0]), es[1..])
  }
}
