/**
 * The bounded worker pool (src/lib/in_parallel.ts). Workers share `next` and `failed`; between two awaits a worker
 * runs alone, so each step below is one piece of such a segment and every interleaving of segments is a trace here.
 */
module InParallel {
  import opened Wrappers

  /** What a rejected promise carries. */
  type Thrown = string

  /** A worker at its loop test, awaiting an item, or returned. */
  datatype Worker = Ready | Awaiting(item: nat) | Returned

  /** `started` and `settled` record, in time order, the items begun and the items whose promise settled. */
  datatype Pool = Pool(
    next: nat,
    failed: Option<Thrown>,
    workers: seq<Worker>,
    started: seq<nat>,
    settled: seq<(nat, Option<Thrown>)>)

  /** `Array.from({ length: Math.min(limit, items.length) })`; a limit of zero or less makes no worker. */
  function WorkerCount(n: nat, limit: int): nat {
    if limit <= 0 then 0 else if limit < n then limit else n
  }

  function Start(n: nat, limit: int): Pool {
    Pool(0, None, seq(WorkerCount(n, limit), _ => Ready), [], [])
  }

  // ---- Steps. ----

  /** The loop test passes: take the next item and call `fn`. */
  predicate CanTake(n: nat, p: Pool, w: nat) {
    w < |p.workers| && p.workers[w].Ready? && p.failed.None? && p.next < n
  }

  function Take(n: nat, p: Pool, w: nat): Pool
    requires CanTake(n, p, w)
  {
    p.(next := p.next + 1, workers := p.workers[w := Awaiting(p.next)], started := p.started + [p.next])
  }

  /** The loop test fails: the worker returns. */
  predicate CanReturn(n: nat, p: Pool, w: nat) {
    w < |p.workers| && p.workers[w].Ready? && (p.failed.Some? || p.next >= n)
  }

  function Return(n: nat, p: Pool, w: nat): Pool
    requires CanReturn(n, p, w)
  {
    p.(workers := p.workers[w := Returned])
  }

  predicate CanSettle(p: Pool, w: nat) {
    w < |p.workers| && p.workers[w].Awaiting?
  }

  /** The awaited promise settles; only the first error is kept. */
  function Settle(p: Pool, w: nat, error: Option<Thrown>): Pool
    requires CanSettle(p, w)
  {
    p.(failed := if p.failed.None? then error else p.failed,
       workers := p.workers[w := Ready],
       settled := p.settled + [(p.workers[w].item, error)])
  }

  ghost predicate Step(n: nat, p: Pool, q: Pool) {
    exists w :: StepOf(n, p, q, w)
  }

  ghost predicate CanStep(n: nat, p: Pool) {
    exists q :: Step(n, p, q)
  }

  ghost predicate StepOf(n: nat, p: Pool, q: Pool, w: nat) {
    || (CanTake(n, p, w) && q == Take(n, p, w))
    || (CanReturn(n, p, w) && q == Return(n, p, w))
    || (CanSettle(p, w) && exists error :: q == Settle(p, w, error))
  }

  ghost predicate IsRun(n: nat, limit: int, run: seq<Pool>) {
    && |run| > 0
    && run[0] == Start(n, limit)
    && forall i :: 0 <= i < |run| - 1 ==> Step(n, run[i], run[i + 1])
  }

  // ---- Counting. ----

  /** Workers at the loop test, awaiting, or awaiting one given item. */
  function Running(ws: seq<Worker>): nat {
    if |ws| == 0 then 0 else (if ws[0].Awaiting? then 1 else 0) + Running(ws[1..])
  }

  function NotReturned(ws: seq<Worker>): nat {
    if |ws| == 0 then 0 else (if ws[0].Returned? then 0 else 1) + NotReturned(ws[1..])
  }

  function RunningOf(ws: seq<Worker>, item: nat): nat {
    if |ws| == 0 then 0 else (if ws[0] == Awaiting(item) then 1 else 0) + RunningOf(ws[1..], item)
  }

  function SettledOf(settled: seq<(nat, Option<Thrown>)>, item: nat): nat {
    if |settled| == 0 then 0
    else SettledOf(settled[..|settled| - 1], item) + if settled[|settled| - 1].0 == item then 1 else 0
  }

  function FirstError(settled: seq<(nat, Option<Thrown>)>): Option<Thrown> {
    if |settled| == 0 then None
    else
      var before := FirstError(settled[..|settled| - 1]);
      if before.Some? then before else settled[|settled| - 1].1
  }

  lemma {:induction false} UpdateCounts(ws: seq<Worker>, w: nat, x: Worker, item: nat)
    requires w < |ws|
    ensures Running(ws[w := x]) == Running(ws) - (if ws[w].Awaiting? then 1 else 0) + (if x.Awaiting? then 1 else 0)
    ensures NotReturned(ws[w := x]) ==
              NotReturned(ws) - (if ws[w].Returned? then 0 else 1) + (if x.Returned? then 0 else 1)
    ensures RunningOf(ws[w := x], item) ==
              RunningOf(ws, item) - (if ws[w] == Awaiting(item) then 1 else 0) + (if x == Awaiting(item) then 1 else 0)
  {
    if w == 0 {
      assert ws[w := x][1..] == ws[1..];
    } else {
      UpdateCounts(ws[1..], w - 1, x, item);
      assert ws[w := x][1..] == ws[1..][w - 1 := x];
    }
  }

  lemma {:induction false} CountBounds(ws: seq<Worker>)
    ensures Running(ws) <= NotReturned(ws) <= |ws|
    ensures NotReturned(ws) == 0 <==> forall w :: 0 <= w < |ws| ==> ws[w].Returned?
  {
    if |ws| > 0 {
      CountBounds(ws[1..]);
      assert ws == [ws[0]] + ws[1..];
    }
  }

  // ---- What every reachable state satisfies. ----

  /**
   * Items are started in order, each once; each started item is either awaited by exactly one worker or has settled
   * exactly once; `failed` is the first error in time; a worker returned only because of an error or no items left.
   */
  ghost predicate Inv(n: nat, limit: int, p: Pool) {
    && |p.workers| == WorkerCount(n, limit)
    && p.next <= n
    && |p.started| == p.next
    && (forall i :: 0 <= i < |p.started| ==> p.started[i] == i)
    && (forall item: nat :: RunningOf(p.workers, item) + SettledOf(p.settled, item) == if item < p.next then 1 else 0)
    && p.failed == FirstError(p.settled)
    && ((exists w :: 0 <= w < |p.workers| && p.workers[w].Returned?) ==> p.failed.Some? || p.next == n)
  }

  lemma {:induction false} NoneRunning(k: nat, item: nat)
    ensures RunningOf(seq(k, _ => Ready), item) == 0 && Running(seq(k, _ => Ready)) == 0
              && NotReturned(seq(k, _ => Ready)) == k
  {
    if k > 0 {
      NoneRunning(k - 1, item);
      assert seq(k, _ => Ready)[1..] == seq(k - 1, _ => Ready);
    }
  }

  lemma StartInv(n: nat, limit: int)
    ensures Inv(n, limit, Start(n, limit))
  {
    forall item: nat
      ensures RunningOf(Start(n, limit).workers, item) == 0
    {
      NoneRunning(WorkerCount(n, limit), item);
    }
  }

  lemma StepKeepsInv(n: nat, limit: int, p: Pool, q: Pool, w: nat)
    requires Inv(n, limit, p) && StepOf(n, p, q, w)
    ensures Inv(n, limit, q)
  {
    if CanTake(n, p, w) && q == Take(n, p, w) {
      forall item: nat
        ensures RunningOf(q.workers, item) + SettledOf(q.settled, item) == if item < q.next then 1 else 0
      {
        UpdateCounts(p.workers, w, Awaiting(p.next), item);
      }
    } else if CanReturn(n, p, w) && q == Return(n, p, w) {
      forall item: nat
        ensures RunningOf(q.workers, item) == RunningOf(p.workers, item)
      {
        UpdateCounts(p.workers, w, Returned, item);
      }
    } else {
      var error :| q == Settle(p, w, error);
      assert q.settled[..|q.settled| - 1] == p.settled;
      forall item: nat
        ensures RunningOf(q.workers, item) + SettledOf(q.settled, item) ==
                  RunningOf(p.workers, item) + SettledOf(p.settled, item)
      {
        UpdateCounts(p.workers, w, Ready, item);
      }
      assert forall v :: 0 <= v < |q.workers| && q.workers[v].Returned? ==> p.workers[v].Returned?;
    }
  }

  lemma {:induction false} RunKeepsInv(n: nat, limit: int, run: seq<Pool>, i: nat)
    requires IsRun(n, limit, run) && i < |run|
    ensures Inv(n, limit, run[i])
  {
    if i == 0 {
      StartInv(n, limit);
    } else {
      RunKeepsInv(n, limit, run, i - 1);
      assert Step(n, run[i - 1], run[i]);
      var w :| StepOf(n, run[i - 1], run[i], w);
      StepKeepsInv(n, limit, run[i - 1], run[i], w);
    }
  }

  /** At every moment at most `min(limit, n)` items are being worked on. */
  lemma AtMostLimitRunning(n: nat, limit: int, run: seq<Pool>, i: nat)
    requires IsRun(n, limit, run) && i < |run|
    ensures Running(run[i].workers) <= if limit <= 0 then 0 else if limit < n then limit else n
  {
    RunKeepsInv(n, limit, run, i);
    CountBounds(run[i].workers);
  }

  /** The first `k` of `count` workers have taken an item each, and nothing else has happened. */
  function Busy(k: nat, count: nat): Pool {
    Pool(k, None, seq(count, w requires 0 <= w < count => if w < k then Awaiting(w) else Ready), seq(k, i => i), [])
  }

  lemma {:induction false} BusyRunning(k: nat, ws: seq<Worker>)
    requires k <= |ws| && forall w :: 0 <= w < |ws| ==> (ws[w].Awaiting? <==> w < k)
    ensures Running(ws) == k
  {
    if |ws| > 0 {
      BusyRunning(if k > 0 then k - 1 else 0, ws[1..]);
    }
  }

  lemma {:induction false} AllTakeOne(n: nat, limit: int, k: nat) returns (run: seq<Pool>)
    requires k <= WorkerCount(n, limit)
    ensures IsRun(n, limit, run) && run[|run| - 1] == Busy(k, WorkerCount(n, limit))
  {
    var count := WorkerCount(n, limit);
    if k == 0 {
      assert Start(n, limit) == Busy(0, count);
      run := [Start(n, limit)];
    } else {
      var before := AllTakeOne(n, limit, k - 1);
      var p, q := Busy(k - 1, count), Busy(k, count);
      assert q.workers == p.workers[k - 1 := Awaiting(k - 1)] && q.started == p.started + [k - 1];
      assert StepOf(n, p, q, k - 1);
      run := before + [q];
      forall i | 0 <= i < |run| - 1 ensures Step(n, run[i], run[i + 1]) {
        if i == |before| - 1 {
          assert run[i] == p && run[i + 1] == q;
        } else {
          assert Step(n, before[i], before[i + 1]);
        }
      }
    }
  }

  /** And for every `n` and `limit` some run has exactly `min(limit, n)` items being worked on at once. */
  lemma LimitIsReached(n: nat, limit: int) returns (run: seq<Pool>)
    ensures IsRun(n, limit, run)
    ensures Running(run[|run| - 1].workers) == if limit <= 0 then 0 else if limit < n then limit else n
  {
    run := AllTakeOne(n, limit, WorkerCount(n, limit));
    BusyRunning(WorkerCount(n, limit), run[|run| - 1].workers);
  }

  /** No item starts twice, and what has started is exactly the items below `next`, each running or settled once. */
  lemma StartedPartition(n: nat, limit: int, run: seq<Pool>, i: nat, item: nat)
    requires IsRun(n, limit, run) && i < |run|
    ensures item in run[i].started <==> item < run[i].next
    ensures forall a, b :: 0 <= a < b < |run[i].started| ==> run[i].started[a] != run[i].started[b]
    ensures RunningOf(run[i].workers, item) + SettledOf(run[i].settled, item) == if item in run[i].started then 1 else 0
  {
    RunKeepsInv(n, limit, run, i);
    if item < run[i].next {
      assert run[i].started[item] == item;
    }
  }

  /** Nothing starts after the first failure, and the error kept never changes. */
  lemma {:induction false} NothingStartsAfterFailure(n: nat, limit: int, run: seq<Pool>, i: nat, j: nat)
    requires IsRun(n, limit, run) && i <= j < |run|
    requires run[i].failed.Some?
    ensures run[j].started == run[i].started && run[j].failed == run[i].failed
    decreases j - i
  {
    if i < j {
      assert Step(n, run[i], run[i + 1]);
      var w :| StepOf(n, run[i], run[i + 1], w);
      NothingStartsAfterFailure(n, limit, run, i + 1, j);
    }
  }

  // ---- How a run ends. ----

  ghost predicate AllReturned(p: Pool) {
    forall w :: 0 <= w < |p.workers| ==> p.workers[w].Returned?
  }

  lemma {:induction false} NoneAwaiting(ws: seq<Worker>, item: nat)
    requires forall w :: 0 <= w < |ws| ==> ws[w].Returned?
    ensures RunningOf(ws, item) == 0
  {
    if |ws| > 0 {
      NoneAwaiting(ws[1..], item);
    }
  }

  /**
   * When every worker has returned, every started item has settled exactly once, and either no error occurred and
   * (given at least one worker) all n items ran, or the result is the first error in time.
   */
  lemma EndResult(n: nat, limit: int, run: seq<Pool>)
    requires IsRun(n, limit, run)
    requires AllReturned(run[|run| - 1])
    ensures var p := run[|run| - 1];
            && (forall item: nat :: SettledOf(p.settled, item) == if item in p.started then 1 else 0)
            && p.failed == FirstError(p.settled)
            && (p.failed.None? && limit >= 1 ==>
                 forall item: nat :: SettledOf(p.settled, item) == if item < n then 1 else 0)
  {
    var p := run[|run| - 1];
    RunKeepsInv(n, limit, run, |run| - 1);
    forall item: nat
      ensures SettledOf(p.settled, item) == (if item in p.started then 1 else 0)
                && (item in p.started <==> item < p.next)
    {
      NoneAwaiting(p.workers, item);
      StartedPartition(n, limit, run, |run| - 1, item);
    }
    if p.failed.None? && limit >= 1 && n > 0 {
      assert p.workers[0].Returned?;
    }
  }

  /** Without an error every item runs exactly when there is a worker to run it or nothing to do. */
  lemma AllRunUnlessNoWorker(n: nat, limit: int, run: seq<Pool>)
    requires IsRun(n, limit, run)
    requires AllReturned(run[|run| - 1]) && run[|run| - 1].failed.None?
    ensures run[|run| - 1].next == n <==> limit >= 1 || n == 0
  {
    var p := run[|run| - 1];
    RunKeepsInv(n, limit, run, |run| - 1);
    if limit >= 1 && n > 0 {
      assert p.workers[0].Returned?;
    }
    StepNeedsWorker(n, limit, run);
  }

  lemma StepNeedsWorker(n: nat, limit: int, run: seq<Pool>)
    requires IsRun(n, limit, run)
    ensures |run| > 1 ==> limit >= 1 && n >= 1
  {
    if |run| > 1 {
      assert Step(n, run[0], run[1]);
      var w :| StepOf(n, run[0], run[1], w);
    }
  }

  // ---- Every run ends. ----

  /**
   * What is still to happen: a start and a settle per unstarted item, a settle per running one, a return per worker.
   */
  function Remaining(n: nat, p: Pool): int {
    2 * (n - p.next) + Running(p.workers) + NotReturned(p.workers)
  }

  lemma StepDecreases(n: nat, p: Pool, q: Pool, w: nat)
    requires StepOf(n, p, q, w)
    ensures Remaining(n, q) == Remaining(n, p) - 1
  {
    if CanTake(n, p, w) && q == Take(n, p, w) {
      UpdateCounts(p.workers, w, Awaiting(p.next), 0);
    } else if CanReturn(n, p, w) && q == Return(n, p, w) {
      UpdateCounts(p.workers, w, Returned, 0);
    } else {
      UpdateCounts(p.workers, w, Ready, 0);
    }
  }

  lemma {:induction false} RunLength(n: nat, limit: int, run: seq<Pool>, i: nat)
    requires IsRun(n, limit, run) && i < |run|
    ensures Remaining(n, run[i]) == 2 * n + WorkerCount(n, limit) - i
  {
    if i == 0 {
      NoneRunning(WorkerCount(n, limit), 0);
    } else {
      RunLength(n, limit, run, i - 1);
      assert Step(n, run[i - 1], run[i]);
      var w :| StepOf(n, run[i - 1], run[i], w);
      StepDecreases(n, run[i - 1], run[i], w);
    }
  }

  /**
   * No schedule takes more than `2n + workers` steps, and a state where some worker has not returned can always step.
   */
  lemma NeverStuckNeverForever(n: nat, limit: int, run: seq<Pool>)
    requires IsRun(n, limit, run)
    ensures |run| - 1 <= 2 * n + WorkerCount(n, limit)
    ensures AllReturned(run[|run| - 1]) <==> !CanStep(n, run[|run| - 1])
  {
    var p := run[|run| - 1];
    RunLength(n, limit, run, |run| - 1);
    RunKeepsInv(n, limit, run, |run| - 1);
    if !AllReturned(p) {
      var w :| 0 <= w < |p.workers| && !p.workers[w].Returned?;
      if p.workers[w].Awaiting? {
        assert StepOf(n, p, Settle(p, w, None), w);
        assert Step(n, p, Settle(p, w, None));
      } else if CanTake(n, p, w) {
        assert StepOf(n, p, Take(n, p, w), w);
        assert Step(n, p, Take(n, p, w));
      } else {
        assert StepOf(n, p, Return(n, p, w), w);
        assert Step(n, p, Return(n, p, w));
      }
    }
  }

  // ---- The pool as it runs, under any schedule. ----

  class WorkerPool {
    const n: nat
    var next: nat
    var failed: Option<Thrown>
    var workers: seq<Worker>
    ghost var started: seq<nat>
    ghost var settled: seq<(nat, Option<Thrown>)>

    ghost function State(): Pool
      reads this
    {
      Pool(next, failed, workers, started, settled)
    }

    constructor (n: nat, limit: int)
      ensures this.n == n && State() == Start(n, limit)
    {
      this.n := n;
      next, failed, started, settled := 0, None, [], [];
      workers := seq(WorkerCount(n, limit), _ => Ready);
    }

    /**
     * What worker `w` does until its next await: if it was awaiting, its promise settles with `error`; then it goes
     * round its loop, taking one more item or returning.
     */
    method Segment(w: nat, error: Option<Thrown>)
      requires w < |workers| && !workers[w].Returned?
      modifies this
      ensures var p := old(State());
              var q := if p.workers[w].Awaiting? then Settle(p, w, error) else p;
              State() == if CanTake(n, q, w) then Take(n, q, w) else Return(n, q, w)
      ensures |workers| == old(|workers|)
    {
      if workers[w].Awaiting? {
        settled := settled + [(workers[w].item, error)];
        if failed.None? {
          failed := error;
        }
        workers := workers[w := Ready];
      }
      if failed.None? && next < n {
        started := started + [next];
        workers := workers[w := Awaiting(next)];
        next := next + 1;
      } else {
        workers := workers[w := Returned];
      }
    }

    /**
     * Run to completion. The k-th segment is the one `schedule` picks; if it begins with a promise settling, that one
     * settles as `fate(k)` says. The result is the first error in time, if any; otherwise every item has run exactly
     * once, unless there was no worker to run it.
     */
    method Run(limit: int, schedule: (nat, Pool) -> nat, fate: nat -> Option<Thrown>) returns (result: Option<Thrown>)
      requires State() == Start(n, limit)
      requires forall k, p: Pool :: !AllReturned(p) ==>
                 schedule(k, p) < |p.workers| && !p.workers[schedule(k, p)].Returned?
      modifies this
      ensures AllReturned(State()) && result == failed == FirstError(settled)
      ensures forall item: nat :: SettledOf(settled, item) == if item in started then 1 else 0
      ensures result.None? && limit >= 1 ==> forall item: nat :: SettledOf(settled, item) == if item < n then 1 else 0
      ensures limit <= 0 ==> result.None? && started == []
    {
      ghost var run := [State()];
      var k := 0;
      while exists w :: 0 <= w < |workers| && !workers[w].Returned?
        invariant IsRun(n, limit, run) && run[|run| - 1] == State()
        decreases 2 * n + WorkerCount(n, limit) - |run|
      {
        var w := schedule(k, Pool(next, failed, workers, [], []));
        ghost var p := State();
        assert !AllReturned(Pool(next, failed, workers, [], []));
        Segment(w, fate(k));
        ghost var q := if p.workers[w].Awaiting? then Settle(p, w, fate(k)) else p;
        if p.workers[w].Awaiting? {
          assert StepOf(n, p, q, w);
          assert Step(n, p, q);
          run := run + [q];
        }
        assert StepOf(n, q, State(), w);
        assert Step(n, q, State());
        run := run + [State()];
        NeverStuckNeverForever(n, limit, run);
        k := k + 1;
      }
      EndResult(n, limit, run);
      StepNeedsWorker(n, limit, run);
      result := failed;
    }
  }
}
