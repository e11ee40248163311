/** Whole runs of the restore engine. */
module RestoreRuns {
  import opened Options
  import opened RestoreModel
  import opened RestoreMachine
  import opened RestoreSafety

  // ---- liveness ----------------------------------------------------------------

  /** No deadlock: until the listing thread has returned, some thread can take a step. */
  lemma SomeStepEnabled(job: Job, l: Listing, dst0: Bucket, s: State)
    requires Inv(job, l, dst0, s) && !s.main.Returned?
    ensures MainEnabled(s) || exists i: nat :: WorkerEnabled(s, i)
  {
    TotalIdle(s.workers, |Visited(l)|);
    if s.mutex.Some? && s.mutex.value.CopyThread? {
      assert WorkerEnabled(s, s.mutex.value.id);
    } else if i: nat :| i in s.workers && !s.workers[i].pc.Done? {
      SlotHeld(s.workers, |Visited(l)|, i);
      assert WorkerEnabled(s, i) || s.mutex == Some(ListingThread);
    }
  }

  /** A goroutine that still has to give something back is counted. */
  lemma {:induction false} SlotHeld(workers: map<nat, Worker>, n: nat, i: nat)
    requires i in workers && i < n
    ensures Share(workers[i]).slots <= Total(workers, n).slots
    ensures Share(workers[i]).live <= Total(workers, n).live
  {
    if i < n - 1 { SlotHeld(workers, n - 1, i); }
  }

  function MainSteps(main: MainPc): nat {
    match main
    case Scan(_, _) => 8
    case SkipWant(_, _) => 7
    case Acquire(_, _) => 7
    case SkipLocked(_, _) => 6
    case Fetch(_) => 4
    case ErrWant => 3
    case ErrLocked => 2
    case Wait => 1
    case Returned => 0
  }

  /** Unlisted pages, unvisited objects and unfinished goroutines bound the steps left. */
  function StepsLeft(l: Listing, s: State): int {
    12 * (|Visited(l)| - s.pos) + 5 * Pages(s.unread) + MainSteps(s.main) + Total(s.workers, |Visited(l)|).steps
  }

  lemma MainProgress(job: Job, l: Listing, s: State)
    requires AtHand(Visited(l), ListingFails(l), s.main, s.pos) && Serves(job, Upcoming(s.main), s.unread)
    requires MainEnabled(s) && s.pos !in s.workers
    ensures StepsLeft(l, MainNext(job, s)) < StepsLeft(l, s)
  {
    if s.main.Acquire? {
      TotalUpdate(s.workers, |Visited(l)|, s.pos, Worker(s.main.page[0], Copying));
    }
  }

  lemma WorkerProgress(job: Job, l: Listing, s: State, i: nat)
    requires WorkerEnabled(s, i) && i < |Visited(l)|
    ensures StepsLeft(l, WorkerNext(job, s, i)) < StepsLeft(l, s)
  {
    var t := WorkerNext(job, s, i);
    assert t.workers == s.workers[i := t.workers[i]];
    TotalUpdate(s.workers, |Visited(l)|, i, t.workers[i]);
    WorkerHoldings(job, s, i);
    hide WorkerNext, WorkerEnabled, Share, Total, Visited, Pages;
  }

  lemma NextPreserves(job: Job, l: Listing, dst0: Bucket, s: State, t: State)
    requires Env(job, l) && Inv(job, l, dst0, s) && Next(job, s, t)
    ensures Inv(job, l, dst0, t) && 0 <= StepsLeft(l, t) < StepsLeft(l, s)
  {
    if MainEnabled(s) && t == MainNext(job, s) {
      MainPreserves(job, l, dst0, s);
      Head(job, l, s.main, s.pos, s.unread);
      MainProgress(job, l, s);
    } else {
      var i: nat :| WorkerEnabled(s, i) && t == WorkerNext(job, s, i);
      WorkerPreserves(job, l, dst0, s, i);
      WorkerProgress(job, l, s, i);
    }
  }

  // ---- runs -----------------------------------------------------------------------

  /** Any interleaving, complete or not. */
  ghost predicate IsRun(job: Job, l: Listing, dst0: Bucket, run: seq<State>) {
    && |run| > 0
    && run[0] == Init(l, dst0)
    && forall k :: 0 <= k < |run| - 1 ==> Next(job, run[k], run[k + 1])
  }

  ghost predicate IsFinishedRun(job: Job, l: Listing, dst0: Bucket, run: seq<State>) {
    IsRun(job, l, dst0, run) && run[|run| - 1].main.Returned?
  }

  /** The invariant holds in every reachable state. */
  lemma {:induction false} RunInv(job: Job, l: Listing, dst0: Bucket, run: seq<State>, k: nat)
    requires Env(job, l) && IsRun(job, l, dst0, run) && k < |run|
    ensures Inv(job, l, dst0, run[k])
  {
    if k == 0 {
      InitInv(job, l, dst0);
    } else {
      RunInv(job, l, dst0, run, k - 1);
      NextPreserves(job, l, dst0, run[k - 1], run[k]);
    }
  }

  lemma RunWorkersOk(job: Job, l: Listing, dst0: Bucket, run: seq<State>, k: nat)
    requires Env(job, l) && IsRun(job, l, dst0, run) && k < |run|
    ensures WorkersOk(job, Visited(l), dst0, run[k])
  {
    RunInv(job, l, dst0, run, k);
  }

  /** Every step uses up measure, so the length of a run is bounded by the listing alone. */
  lemma {:induction false} RunBounded(job: Job, l: Listing, dst0: Bucket, run: seq<State>, k: nat)
    requires Env(job, l) && IsRun(job, l, dst0, run) && k < |run|
    ensures 0 <= StepsLeft(l, run[k]) <= 12 * |Visited(l)| + 5 * Pages(l) + 4 - k
  {
    if k == 0 {
      TotalNone(|Visited(l)|);
    } else {
      RunBounded(job, l, dst0, run, k - 1);
      RunInv(job, l, dst0, run, k - 1);
      NextPreserves(job, l, dst0, run[k - 1], run[k]);
    }
  }

  /** When the listing thread has returned, nobody is left to act. */
  lemma QuietAfterReturn(job: Job, l: Listing, dst0: Bucket, s: State)
    requires Inv(job, l, dst0, s) && s.main.Returned?
    ensures forall i :: i in s.workers ==> s.workers[i].pc.Done?
    ensures forall t :: !Next(job, s, t)
  {
    TotalIdle(s.workers, |Visited(l)|);
    assert CountsOk(job, l, dst0, s) && WorkersOk(job, Visited(l), dst0, s);
    hide Inv, WorkerNext, MainNext, Total;
  }

  /** Safety and liveness of the worker pool over every interleaving: at most four goroutines hold
      a slot; once the listing thread has returned nobody is left to write; until then a step is
      enabled; and the number of steps is bounded by the listing alone. */
  lemma PoolSafeAndLive(job: Job, l: Listing, dst0: Bucket, run: seq<State>, k: nat)
    requires Env(job, l) && IsRun(job, l, dst0, run) && k < |run|
    ensures Total(run[k].workers, |Visited(l)|).slots <= 4
    ensures run[k].main.Returned? ==>
      (forall i :: i in run[k].workers ==> run[k].workers[i].pc.Done?) && (forall t :: !Next(job, run[k], t))
    ensures !run[k].main.Returned? ==> exists t :: Next(job, run[k], t)
    ensures |run| <= 12 * |Visited(l)| + 5 * Pages(l) + 5
  {
    RunInv(job, l, dst0, run, k);
    RunBounded(job, l, dst0, run, |run| - 1);
    var s := run[k];
    assert CountsOk(job, l, dst0, s);
    hide Inv, WorkerNext, MainNext, Total, IsRun;
    if s.main.Returned? {
      QuietAfterReturn(job, l, dst0, s);
    } else {
      SomeStepEnabled(job, l, dst0, s);
      if MainEnabled(s) {
        assert Next(job, s, MainNext(job, s));
      } else {
        var i: nat :| WorkerEnabled(s, i);
        assert Next(job, s, WorkerNext(job, s, i));
      }
    }
  }

  /** Whatever was scheduled so far, going on reaches the end. */
  lemma Finish(job: Job, l: Listing, dst0: Bucket, run: seq<State>) returns (full: seq<State>)
    requires Env(job, l) && IsRun(job, l, dst0, run)
    ensures run <= full && IsFinishedRun(job, l, dst0, full)
    decreases 12 * |Visited(l)| + 5 * Pages(l) + 5 - |run|
  {
    full := run;
    var k := |run| - 1;
    PoolSafeAndLive(job, l, dst0, run, k);
    if !run[k].main.Returned? {
      var t :| Next(job, run[k], t);
      PoolSafeAndLive(job, l, dst0, run + [t], k + 1);
      full := Finish(job, l, dst0, run + [t]);
    }
  }

  lemma FinishedRunExists(job: Job, l: Listing, dst0: Bucket) returns (run: seq<State>)
    requires Env(job, l)
    ensures IsFinishedRun(job, l, dst0, run)
  {
    run := Finish(job, l, dst0, [Init(l, dst0)]);
  }
}
