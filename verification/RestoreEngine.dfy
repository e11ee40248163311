/** copyRestoreTree as it is written: shared variables updated step by step by whichever thread the
    scheduler picks. */
module RestoreEngine {
  import opened Options
  import opened RestoreModel
  import opened RestoreMachine
  import opened RestoreSafety
  import opened RestoreRuns
  import opened RestoreRefinement

  class Engine {
    const job: Job
    var main: MainPc
    var pos: nat
    var workers: map<nat, Worker>
    var slots: nat            // tokens in the semaphore channel
    var wg: nat               // WaitGroup counter
    var mutex: Option<Agent>
    var dst: Bucket
    var copied: nat
    var skipped: nat
    var bytesCopied: nat
    var errs: seq<RunError>
    ghost var unread: Listing // what the lister has yet to serve

    ghost function View(): State
      reads this
    {
      State(main, pos, unread, workers, slots, wg, mutex, dst, copied, skipped, bytesCopied, errs)
    }

    constructor (job: Job, ghost l: Listing, dst: Bucket)
      ensures this.job == job && View() == Init(l, dst)
    {
      this.job := job;
      main, pos, workers, slots, wg, mutex := Fetch(""), 0, map[], 0, 0, None;
      this.dst, copied, skipped, bytesCopied, errs := dst, 0, 0, 0, [];
      unread := l;
    }

    method AddErr(e: RunError)
      modifies this`errs
      ensures errs == AppendBounded(old(errs), e)
      ensures old(errs) <= errs && (|old(errs)| < ERROR_CAP ==> errs == old(errs) + [e])
      ensures |old(errs)| <= ERROR_CAP ==> |errs| <= ERROR_CAP
    {
      if |errs| >= ERROR_CAP { return; }
      errs := errs + [e];
    }

    predicate ListingReady()
      reads this
      ensures ListingReady() == MainEnabled(View())
    {
      match main
      case SkipWant(_, _) => mutex.None?
      case ErrWant => mutex.None?
      case Acquire(page, _) => slots < RESTORE_CONCURRENCY && page != []
      case SkipLocked(page, _) => page != []
      case Wait => wg == 0
      case Returned => false
      case _ => true
    }

    predicate CopyReady(i: nat)
      reads this
      ensures CopyReady(i) == WorkerEnabled(View(), i)
    {
      i in workers &&
      match workers[i].pc
      case WantLock(_) => mutex.None?
      case Releasing(_) => slots > 0
      case Finishing(_) => wg > 0
      case Done(_) => false
      case _ => true
    }

    /** One step of the listing loop. */
    method ListingStep()
      requires ListingReady()
      modifies this
      ensures View() == MainNext(job, old(View()))
    {
      match main {
        case Fetch(token) =>
          var answer := job.lister(token);
          if answer.ListFailed? {
            main, unread := ErrWant, End;
          } else {
            main := Scan(answer.objects, NextToken(answer.truncated, answer.next));
            unread := if unread.Chunk? then unread.rest else End;
          }
        case Scan(page, cont) =>
          if page == [] {
            main := if cont.Some? then Fetch(cont.value) else Wait;
          } else if !job.eligible(page[0]) {
            main, pos := Scan(page[1..], cont), pos + 1;
          } else if Skips(job, dst, page[0]) {
            main := SkipWant(page, cont);
          } else {
            main, wg := Acquire(page, cont), wg + 1;
          }
        case SkipWant(page, cont) =>
          main, mutex := SkipLocked(page, cont), Some(ListingThread);
        case SkipLocked(page, cont) =>
          skipped, mutex := skipped + 1, None;
          main, pos := Scan(page[1..], cont), pos + 1;
        case Acquire(page, cont) =>
          slots := slots + 1;
          workers := workers[pos := Worker(page[0], Copying)];
          main, pos := Scan(page[1..], cont), pos + 1;
        case ErrWant =>
          main, mutex := ErrLocked, Some(ListingThread);
        case ErrLocked =>
          AddErr(ListError);
          main, mutex := Wait, None;
        case Wait =>
          main := Returned;
      }
    }

    /** One step of the goroutine that copies the object at position i. */
    method CopyStep(i: nat)
      requires CopyReady(i)
      modifies this
      ensures View() == WorkerNext(job, old(View()), i)
    {
      var o := workers[i].obj;
      match workers[i].pc {
        case Copying =>
          if job.copyOk(o) { dst := dst[job.target(o) := job.content(o)]; }
        case WantLock(_) =>
          mutex := Some(CopyThread(i));
        case Locked(ok) =>
          if ok {
            copied := copied + 1;
            bytesCopied := bytesCopied + o.size;
          } else {
            AddErr(CopyError(i));
          }
          mutex := None;
        case Releasing(_) =>
          slots := slots - 1;
        case Finishing(_) =>
          wg := wg - 1;
      }
      workers := workers[i := Worker(o, PcAfter(job, workers[i]))];
    }

    /** One step of a thread the scheduler picks, from a state where some thread can move. */
    method AnyStep()
      requires exists t :: Next(job, View(), t)
      modifies this
      ensures Next(job, old(View()), View())
    {
      assert ListingReady() || exists i: nat :: CopyReady(i) by {
        var t :| Next(job, View(), t);
        if !MainEnabled(View()) {
          var i: nat :| WorkerEnabled(View(), i) && t == WorkerNext(job, View(), i);
          assert CopyReady(i);
        }
      }
      if {
        case ListingReady() =>
          ListingStep();
        case i: nat :| i in workers && CopyReady(i) =>
          ghost var s := View();
          CopyStep(i);
          assert WorkerEnabled(s, i) && View() == WorkerNext(job, s, i);
      }
    }
  }

  /** Every schedule of the threads ends, without getting stuck, in the sequential restore. */
  method CopyRestoreTree(job: Job, ghost l: Listing, dst0: Bucket)
    returns (dst: Bucket, copied: nat, skipped: nat, bytesCopied: nat, errs: seq<RunError>)
    requires Env(job, l)
    ensures var r := RestoreAll(job, Visited(l), dst0);
      && dst == r.dst && copied == r.copied && skipped == r.skipped && bytesCopied == r.bytes
      && |errs| == Min(ERROR_CAP, r.failed + if ListingFails(l) then 1 else 0)
  {
    var e := new Engine(job, l, dst0);
    ghost var run := [e.View()];
    PoolSafeAndLive(job, l, dst0, run, 0);
    while !e.main.Returned?
      invariant e.job == job && IsRun(job, l, dst0, run) && run[|run| - 1] == e.View()
      invariant |run| <= 12 * |Visited(l)| + 5 * Pages(l) + 5
      decreases 12 * |Visited(l)| + 5 * Pages(l) + 5 - |run|
    {
      PoolSafeAndLive(job, l, dst0, run, |run| - 1);
      e.AnyStep();
      run := run + [e.View()];
      PoolSafeAndLive(job, l, dst0, run, 0);
    }
    RunRefinesSequential(job, l, dst0, run);
    return e.dst, e.copied, e.skipped, e.bytesCopied, e.errs;
  }
}
