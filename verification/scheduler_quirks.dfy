/** Two consequences of lib/index.js that its own comments and names do
    not lead a caller to expect: a waiter's keepResult is never read, and
    `clear` forgets the waiters of running jobs. The model keeps both as the
    code has them; the lemmas here pin down what actually happens. */
module SchedulerQuirks {
  import opened JsValues
  import opened Scheduler
  import Fifo
  import OrderedMap

  // ---------------------------------------------------------------------
  // keepResult is recorded, keepResults is read
  // ---------------------------------------------------------------------

  /** When a finished job that has waiters settles, the "done" handler
      blanks the stored result unless noAutoClear is set, whatever
      `keepResult` each waiter passed to `qwait`; every waiter still gets
      the value. A direct `qwait` or `getResult` with a truthy keepResult
      would have left the value in place. */
  lemma SettlementIgnoresKeepResult(s: State, id: Id)
    requires OrderedMap.Valid(s.waiting)
    requires Qstat(s, Str(id)) == Some(Finished) && OrderedMap.Has(s.waiting, Str(id))
    ensures OnDone(s, id).0.finished[id] == (if Truthy(s.cfg.noAutoClear) then s.finished[id] else Null)
    ensures OnDone(s, id).1 == SettleAll(WaitersOf(s, Str(id)), Resolve(s.finished[id]))
    ensures forall i | 0 <= i < |WaitersOf(s, Str(id))| && Truthy(WaitersOf(s, Str(id))[i].keepResult) ::
              GetResult(s, Str(id), WaitersOf(s, Str(id))[i].keepResult).0.finished[id] == s.finished[id]
  {
    var t := GetResult(s, Str(id), Bool(false)).0;
    assert OnDone(s, id).0.finished == t.finished;
  }

  /** The same for a failed job: its error is blanked once its waiters are
      rejected with it. */
  lemma FailureSettlementIgnoresKeepResult(s: State, id: Id)
    requires OrderedMap.Valid(s.waiting)
    requires Qstat(s, Str(id)) == Some(Failed) && OrderedMap.Has(s.waiting, Str(id))
    ensures OnDone(s, id).0.failed[id] == (if Truthy(s.cfg.noAutoClear) then s.failed[id] else Null)
    ensures OnDone(s, id).1 == SettleAll(WaitersOf(s, Str(id)), Reject(s.failed[id]))
  {
    var t := GetResult(s, Str(id), Bool(false)).0;
    assert OnDone(s, id).0.failed == t.failed;
  }

  /** End to end: a caller waits on a running job with `keepResult: true`;
      the job returns `v`. The caller's waiter resolves with `v`, but the
      stored result is gone: reading it afterwards, again with keepResult,
      gives null. */
  lemma KeepResultWaiterStillLosesResult(s: State, id: Id, v: Value, asked: bool)
    requires OrderedMap.Valid(s.waiting)
    requires id in s.flights && Qstat(s, Str(id)) == Some(Running)
    requires !Truthy(s.cfg.noAutoClear)
    ensures var (t, ans) := Qwait(s, Str(id), Bool(true));
            var (u, settled) := Complete(t, id, Returned(v), asked);
            && ans == Pending(Waiter(s.nextTicket, Bool(true)))
            && Settled(Waiter(s.nextTicket, Bool(true)), Resolve(v)) in settled
            && Qstat(u, Str(id)) == Some(Finished)
            && GetResult(u, Str(id), Bool(true)).1 == Null
  {
    var (t, ans) := Qwait(s, Str(id), Bool(true));
    var w := Waiter(s.nextTicket, Bool(true));
    var ws := WaitersOf(t, Str(id));
    assert ws == WaitersOf(s, Str(id)) + [w];
    assert OrderedMap.Has(t.waiting, Str(id)) by {
      OrderedMap.HasIsKey(t.waiting, Str(id));
    }
    var s1 := Record(t, id, Returned(v), asked);
    var s2 := s1.(running := s1.running - {id}, numRunning := s1.numRunning - 1, flights := s1.flights - {id});
    assert s2.queue == s.queue && s2.failed == s.failed;
    assert Qstat(s2, Str(id)) == Some(Finished);
    assert s2.finished[id] == v;
    assert WaitersOf(s2, Str(id)) == ws;
    var (u, settled) := OnDone(s2, id);
    assert settled == SettleAll(ws, Resolve(v));
    assert settled[|ws| - 1] == Settled(w, Resolve(v));
    assert u.finished[id] == Null;
  }

  // ---------------------------------------------------------------------
  // clear() forgets the waiters of running jobs
  // ---------------------------------------------------------------------

  /** Every settlement `clear` makes resolves with "removed" a waiter of a
      registry entry whose key is not a running id. */
  lemma {:induction false} ClearSettlementsFrom(entries: seq<(Value, seq<Waiter>)>, running: set<Id>, x: Settled)
    requires x in ClearSettlements(entries, running)
    ensures x.how == Resolve(RemovedValue)
    ensures exists i | 0 <= i < |entries| :: !(entries[i].0.Str? && entries[i].0.s in running) && x.w in entries[i].1
    decreases |entries|
  {
    var (k, v) := entries[0];
    var head := if k.Str? && k.s in running then [] else SettleAll(v, Resolve(RemovedValue));
    assert ClearSettlements(entries, running) == head + ClearSettlements(entries[1..], running);
    if x in head {
      var j :| 0 <= j < |head| && head[j] == x;
      assert entries[0].1[j] == x.w;
    } else {
      ClearSettlementsFrom(entries[1..], running, x);
      var i :| 0 <= i < |entries[1..]| && !(entries[1..][i].0.Str? && entries[1..][i].0.s in running) && x.w in entries[1..][i].1;
      assert entries[i + 1] == entries[1..][i];
    }
  }

  /** ... and every waiter of such an entry gets that settlement. */
  lemma {:induction false} ClearSettlementsCover(entries: seq<(Value, seq<Waiter>)>, running: set<Id>, i: nat, w: Waiter)
    requires i < |entries| && !(entries[i].0.Str? && entries[i].0.s in running) && w in entries[i].1
    ensures Settled(w, Resolve(RemovedValue)) in ClearSettlements(entries, running)
    decreases i
  {
    var (k, v) := entries[0];
    var head := if k.Str? && k.s in running then [] else SettleAll(v, Resolve(RemovedValue));
    assert ClearSettlements(entries, running) == head + ClearSettlements(entries[1..], running);
    if i == 0 {
      var j :| 0 <= j < |v| && v[j] == w;
      assert head[j] == Settled(w, Resolve(RemovedValue));
    } else {
      assert entries[1..][i - 1] == entries[i];
      ClearSettlementsCover(entries[1..], running, i - 1, w);
    }
  }

  /** `clear` resolves the waiters of every id that is not running with
      "removed". */
  lemma ClearResolvesIdleWaiters(s: State, key: Value, w: Waiter)
    requires OrderedMap.Valid(s.waiting)
    requires !(key.Str? && key.s in s.running)
    requires w in WaitersOf(s, key)
    ensures Settled(w, Resolve(RemovedValue)) in Clear(s).1
  {
    var i := OrderedMap.IndexOf(s.waiting.entries, key);
    ClearSettlementsCover(s.waiting.entries, s.running, i, w);
  }

  /** The waiters of a running job are skipped by `clear` (no settlement
      comes from its registry entry), and `clear` then empties the whole
      registry, so when the job later settles the "done" handler finds no
      one to tell: those waiters never settle. */
  lemma ClearStrandsRunningWaiters(s: State, id: Id, outcome: Outcome, asked: bool)
    requires OrderedMap.Valid(s.waiting)
    requires id in s.running && id in s.flights
    ensures forall x | x in Clear(s).1 ::
              exists i | 0 <= i < |s.waiting.entries| :: s.waiting.entries[i].0 != Str(id) && x.w in s.waiting.entries[i].1
    ensures WaitersOf(Clear(s).0, Str(id)) == []
    ensures Complete(Clear(s).0, id, outcome, asked).1 == []
  {
    forall x | x in Clear(s).1
      ensures exists i | 0 <= i < |s.waiting.entries| :: s.waiting.entries[i].0 != Str(id) && x.w in s.waiting.entries[i].1
    {
      ClearSettlementsFrom(s.waiting.entries, s.running, x);
    }
    var c := Clear(s).0;
    OrderedMap.HasIsKey(c.waiting, Str(id));
    var s1 := Record(c, id, outcome, asked);
    var s2 := s1.(running := s1.running - {id}, numRunning := s1.numRunning - 1, flights := s1.flights - {id});
    assert s2.waiting == c.waiting;
    assert !OrderedMap.Has(s2.waiting, Str(id));
  }
}
