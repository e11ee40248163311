/** The invariant of the restore engine: what every step of every thread keeps. */
module RestoreSafety {
  import opened Options
  import opened RestoreModel
  import opened RestoreMachine

  // ---- the invariant ---------------------------------------------------------

  /** What the listing thread still holds of the current page. */
  function PageOf(main: MainPc): seq<Obj> {
    match main
    case Scan(page, _) => page
    case SkipWant(page, _) => page
    case SkipLocked(page, _) => page
    case Acquire(page, _) => page
    case _ => []
  }

  /** The token it will list next, None once it has stopped listing. */
  function Upcoming(main: MainPc): Option<string> {
    match main
    case Fetch(token) => Some(token)
    case Scan(_, cont) => cont
    case SkipWant(_, cont) => cont
    case SkipLocked(_, cont) => cont
    case Acquire(_, cont) => cont
    case _ => None
  }

  predicate Finished(main: MainPc) { main.Wait? || main.Returned? }

  predicate Attempted(job: Job, dst0: Bucket, o: Obj) {
    job.eligible(o) && !Skips(job, dst0, o)
  }

  /** The listing thread stands at `pos` in the listing and will read exactly the rest of it. */
  ghost predicate ListingOk(job: Job, l: Listing, main: MainPc, pos: nat, unread: Listing) {
    && pos <= |Visited(l)|
    && Visited(l)[pos..] == PageOf(main) + Visited(unread)
    && Serves(job, Upcoming(main), unread)
    && (main.ErrWant? || main.ErrLocked? ==> ListingFails(l))
    && (!main.ErrWant? && !main.ErrLocked? && !Finished(main) ==> ListingFails(l) == ListingFails(unread))
  }

  /** Goroutines exist for exactly the attempted objects gone by, each with the outcome its drivers give. */
  ghost predicate WorkersOk(job: Job, objs: seq<Obj>, dst0: Bucket, s: State) {
    && s.pos <= |objs|
    && (forall i :: i in s.workers ==>
          && i < s.pos && s.workers[i].obj == objs[i] && Attempted(job, dst0, objs[i])
          && (!s.workers[i].pc.Copying? ==> s.workers[i].pc.ok == job.copyOk(objs[i])))
    && (forall i: nat :: i < s.pos && Attempted(job, dst0, objs[i]) ==> i in s.workers)
  }

  /** The decision on the object at hand agrees with the destination before the run. */
  ghost predicate DecisionOk(job: Job, dst0: Bucket, main: MainPc) {
    && (main.SkipWant? || main.SkipLocked? ==>
          main.page != [] && job.eligible(main.page[0]) && Skips(job, dst0, main.page[0]))
    && (main.Acquire? ==> main.page != [] && Attempted(job, dst0, main.page[0]))
  }

  /** The mutex is held by exactly the thread inside a critical section. */
  ghost predicate MutexOk(s: State) {
    && (s.mutex == Some(ListingThread) <==> s.main.SkipLocked? || s.main.ErrLocked?)
    && (forall i: nat :: s.mutex == Some(CopyThread(i)) <==> i in s.workers && s.workers[i].pc.Locked?)
  }

  function SkipCount(job: Job, dst0: Bucket, objs: seq<Obj>, n: nat): nat
    requires n <= |objs|
  {
    if n == 0 then 0
    else SkipCount(job, dst0, objs, n - 1) + if FateOf(job, dst0, objs[n - 1]).Skipped? then 1 else 0
  }

  function ListErrors(l: Listing, main: MainPc): nat {
    if Finished(main) && ListingFails(l) then 1 else 0
  }

  /** Semaphore and WaitGroup count the goroutines, and the shared counters what they recorded. */
  predicate Balanced(s: State, total: Tally, skips: nat, listErrors: nat) {
    && s.slots == total.slots <= RESTORE_CONCURRENCY
    && s.wg == total.live + (if s.main.Acquire? then 1 else 0)
    && (s.main.Returned? ==> s.wg == 0)
    && s.copied == total.copied
    && s.bytes == total.bytes
    && s.skipped == skips
    && |s.errs| == Min(ERROR_CAP, total.failed + listErrors)
  }

  ghost predicate CountsOk(job: Job, l: Listing, dst0: Bucket, s: State) {
    && s.pos <= |Visited(l)|
    && Balanced(s, Total(s.workers, |Visited(l)|), SkipCount(job, dst0, Visited(l), s.pos), ListErrors(l, s.main))
  }

  function Min(a: nat, b: nat): nat { if a < b then a else b }

  /** Every message in the bounded error list is real. */
  ghost predicate ErrorsOk(job: Job, l: Listing, s: State) {
    forall e :: e in s.errs ==>
      match e
      case ListError => ListingFails(l)
      case CopyError(i) => i in s.workers && Share(s.workers[i]).failed == 1
  }

  ghost predicate Inv(job: Job, l: Listing, dst0: Bucket, s: State) {
    && ListingOk(job, l, s.main, s.pos, s.unread)
    && WorkersOk(job, Visited(l), dst0, s)
    && DecisionOk(job, dst0, s.main)
    && MutexOk(s)
    && CountsOk(job, l, dst0, s)
    && s.dst == Overlay(job, dst0, s.workers, |Visited(l)|)
    && ErrorsOk(job, l, s)
  }

  /** What is assumed of the environment: a listing that ends and maps to distinct targets. */
  ghost predicate Env(job: Job, l: Listing) {
    Serves(job, Some(""), l) && DistinctTargets(job, Visited(l))
  }

  lemma {:induction false} OverlayNone(job: Job, dst0: Bucket, n: nat)
    ensures Overlay(job, dst0, map[], n) == dst0
  {
    if n > 0 { OverlayNone(job, dst0, n - 1); }
  }

  lemma InitCounts(job: Job, l: Listing, dst0: Bucket)
    ensures CountsOk(job, l, dst0, Init(l, dst0))
  {
    hide Total, Visited, ListingFails;
    TotalNone(|Visited(l)|);
  }

  lemma InitInv(job: Job, l: Listing, dst0: Bucket)
    requires Env(job, l)
    ensures Inv(job, l, dst0, Init(l, dst0))
  {
    hide Total, Overlay, Serves, DistinctTargets;
    OverlayNone(job, dst0, |Visited(l)|);
    InitCounts(job, l, dst0);
    assert Visited(l)[0..] == Visited(l);
    hide CountsOk;
  }

  // ---- preservation ------------------------------------------------------------

  /** What a step of the listing thread needs to know of the listing. */
  ghost predicate AtHand(objs: seq<Obj>, fails: bool, main: MainPc, pos: nat) {
    && (PageOf(main) != [] ==> pos < |objs| && objs[pos] == PageOf(main)[0])
    && (main.Scan? && main.page == [] && main.cont.None? ==> pos == |objs| && !fails)
    && (main.ErrWant? || main.ErrLocked? ==> fails)
  }

  /** The object at hand is the one at `pos` of the listing. */
  lemma Head(job: Job, l: Listing, main: MainPc, pos: nat, unread: Listing)
    requires ListingOk(job, l, main, pos, unread)
    ensures AtHand(Visited(l), ListingFails(l), main, pos)
    ensures PageOf(main) != [] ==> Visited(l)[pos + 1..] == PageOf(main)[1..] + Visited(unread)
  {
    var page, objs := PageOf(main), Visited(l);
    if page != [] {
      assert objs[pos..][0] == page[0];
      assert objs[pos + 1..] == objs[pos..][1..];
    }
  }

  lemma FetchKeepsListing(job: Job, l: Listing, s: State)
    requires ListingOk(job, l, s.main, s.pos, s.unread) && s.main.Fetch?
    ensures var t := MainNext(job, s); ListingOk(job, l, t.main, t.pos, t.unread)
  {
    assert PageOf(s.main) + Visited(s.unread) == Visited(s.unread);
  }

  lemma ScanMoves(job: Job, s: State)
    requires s.main.Scan?
    ensures var t := MainNext(job, s);
      && t.unread == s.unread && Upcoming(t.main) == Upcoming(s.main)
      && (if s.main.page != [] && !job.eligible(s.main.page[0])
          then t.pos == s.pos + 1 && PageOf(t.main) == s.main.page[1..]
          else t.pos == s.pos && PageOf(t.main) == s.main.page)
      && !t.main.ErrWant? && !t.main.ErrLocked?
  {
    hide Skips;
  }

  /** Any other step stays where it is in the listing or goes one object on. */
  lemma MainMoves(job: Job, s: State)
    requires MainEnabled(s) && !s.main.Fetch?
    ensures var t := MainNext(job, s);
      && t.unread == s.unread
      && Upcoming(t.main) == Upcoming(s.main)
      && ((t.pos == s.pos && PageOf(t.main) == PageOf(s.main))
          || (PageOf(s.main) != [] && t.pos == s.pos + 1 && PageOf(t.main) == PageOf(s.main)[1..]))
      && !t.main.ErrWant? && (t.main.ErrLocked? ==> s.main.ErrWant?)
      && (s.main.ErrLocked? || s.main.ErrWant? || Finished(s.main) ==> t.main.ErrLocked? || Finished(t.main))
  {
    hide Skips;
    if s.main.Scan? {
      ScanMoves(job, s);
    }
  }

  lemma MainKeepsListing(job: Job, l: Listing, s: State)
    requires ListingOk(job, l, s.main, s.pos, s.unread) && MainEnabled(s)
    ensures var t := MainNext(job, s); ListingOk(job, l, t.main, t.pos, t.unread)
  {
    if s.main.Fetch? {
      FetchKeepsListing(job, l, s);
    } else {
      hide MainNext, Visited, Serves, ListingFails;
      Head(job, l, s.main, s.pos, s.unread);
      MainMoves(job, s);
      assert ListingOk(job, l, MainNext(job, s).main, MainNext(job, s).pos, MainNext(job, s).unread);
    }
  }

  /** While the object at hand is undecided, its target is as it was before the run. */
  lemma StatSeesStart(job: Job, l: Listing, dst0: Bucket, s: State)
    requires Env(job, l) && Inv(job, l, dst0, s) && s.pos < |Visited(l)|
    ensures Skips(job, s.dst, Visited(l)[s.pos]) == Skips(job, dst0, Visited(l)[s.pos])
  {
    var objs := Visited(l);
    OverlayElsewhere(job, objs, dst0, s.workers, |objs|, s.pos);
  }

  /** The next step of the listing thread leaves the object at hand behind. */
  predicate Passes(job: Job, s: State) {
    || s.main.Acquire?
    || s.main.SkipLocked?
    || (s.main.Scan? && s.main.page != [] && !job.eligible(s.main.page[0]))
  }

  /** The listing thread starts one goroutine for each object it passes, or none. */
  lemma MainWorkers(job: Job, s: State)
    requires MainEnabled(s)
    ensures var t := MainNext(job, s);
      && t.workers == (if s.main.Acquire? then s.workers[s.pos := Worker(s.main.page[0], Copying)] else s.workers)
      && (t.pos == s.pos || t.pos == s.pos + 1)
      && (t.pos == s.pos + 1 <==> Passes(job, s))
  {
    hide Skips;
  }

  lemma MainMutex(job: Job, s: State)
    requires MainEnabled(s)
    ensures var t := MainNext(job, s);
      && t.mutex == (if s.main.SkipWant? || s.main.ErrWant? then Some(ListingThread)
                     else if s.main.SkipLocked? || s.main.ErrLocked? then None else s.mutex)
      && (t.main.SkipLocked? || t.main.ErrLocked? <==> s.main.SkipWant? || s.main.ErrWant?)
  {
    hide Skips;
  }

  lemma MainKeepsDecision(job: Job, objs: seq<Obj>, fails: bool, dst0: Bucket, s: State)
    requires AtHand(objs, fails, s.main, s.pos) && DecisionOk(job, dst0, s.main) && MainEnabled(s)
    requires s.pos < |objs| ==> Skips(job, s.dst, objs[s.pos]) == Skips(job, dst0, objs[s.pos])
    ensures DecisionOk(job, dst0, MainNext(job, s).main)
  {
    hide Skips;
  }

  lemma MainKeepsWorkers(job: Job, objs: seq<Obj>, fails: bool, dst0: Bucket, s: State)
    requires AtHand(objs, fails, s.main, s.pos) && WorkersOk(job, objs, dst0, s) && DecisionOk(job, dst0, s.main)
    requires MainEnabled(s)
    requires s.pos < |objs| ==> Skips(job, s.dst, objs[s.pos]) == Skips(job, dst0, objs[s.pos])
    ensures var t := MainNext(job, s);
      WorkersOk(job, objs, dst0, t) && DecisionOk(job, dst0, t.main)
  {
    MainKeepsDecision(job, objs, fails, dst0, s);
    MainWorkers(job, s);
    hide MainNext, Skips;
  }

  lemma MainKeepsMutex(job: Job, s: State, objs: seq<Obj>, dst0: Bucket)
    requires MutexOk(s) && WorkersOk(job, objs, dst0, s) && MainEnabled(s)
    ensures MutexOk(MainNext(job, s))
  {
    var t := MainNext(job, s);
    assert s.pos !in s.workers;
    MainWorkers(job, s);
    MainMutex(job, s);
    hide MainNext, WorkersOk;
    forall i: nat ensures i in s.workers && s.workers[i].pc.Locked? <==> i in t.workers && t.workers[i].pc.Locked? {}
  }

  lemma MainBalances(job: Job, s: State, total: Tally, skips: nat, listErrors: nat)
    requires MainEnabled(s) && Balanced(s, total, skips, listErrors)
    ensures Balanced(MainNext(job, s),
              if s.main.Acquire? then total.Plus(Share(Worker(s.main.page[0], Copying))) else total,
              skips + (if s.main.SkipLocked? then 1 else 0),
              listErrors + (if s.main.ErrLocked? then 1 else 0))
  {
  }

  lemma MainCountsErrors(job: Job, l: Listing, s: State)
    requires AtHand(Visited(l), ListingFails(l), s.main, s.pos) && MainEnabled(s)
    ensures ListErrors(l, MainNext(job, s).main) == ListErrors(l, s.main) + (if s.main.ErrLocked? then 1 else 0)
  {
    hide Visited, Skips;
  }

  /** The skip counter moves with the listing position. */
  lemma MainCountsSkips(job: Job, objs: seq<Obj>, fails: bool, dst0: Bucket, s: State)
    requires AtHand(objs, fails, s.main, s.pos) && DecisionOk(job, dst0, s.main) && MainEnabled(s)
    requires s.pos <= |objs|
    ensures var t := MainNext(job, s);
      && t.pos <= |objs|
      && SkipCount(job, dst0, objs, t.pos)
         == SkipCount(job, dst0, objs, s.pos) + (if s.main.SkipLocked? then 1 else 0)
  {
    hide Skips;
    var t := MainNext(job, s);
    assert t.pos == s.pos || t.pos == s.pos + 1;
  }

  lemma MainKeepsCounts(job: Job, l: Listing, dst0: Bucket, s: State)
    requires AtHand(Visited(l), ListingFails(l), s.main, s.pos) && DecisionOk(job, dst0, s.main)
    requires CountsOk(job, l, dst0, s) && MainEnabled(s) && s.pos !in s.workers
    ensures CountsOk(job, l, dst0, MainNext(job, s))
  {
    var n, t := |Visited(l)|, MainNext(job, s);
    MainWorkers(job, s);
    assert s.main.Acquire? ==> s.pos < n;
    hide MainNext;
    MainCountsErrors(job, l, s);
    MainCountsSkips(job, Visited(l), ListingFails(l), dst0, s);
    MainBalances(job, s, Total(s.workers, n), SkipCount(job, dst0, Visited(l), s.pos), ListErrors(l, s.main));
    hide Visited, Total, SkipCount, ListErrors, Share, Balanced, AtHand, DecisionOk;
    if s.main.Acquire? {
      TotalAdd(s.workers, n, s.pos, Worker(s.main.page[0], Copying));
    }
  }

  lemma MainKeepsDst(job: Job, objs: seq<Obj>, fails: bool, dst0: Bucket, s: State)
    requires DistinctTargets(job, objs) && NamedByPosition(objs, s.workers)
    requires AtHand(objs, fails, s.main, s.pos) && s.pos !in s.workers && MainEnabled(s)
    requires s.dst == Overlay(job, dst0, s.workers, |objs|)
    ensures MainNext(job, s).dst == Overlay(job, dst0, MainNext(job, s).workers, |objs|)
  {
    if s.main.Acquire? {
      OverlayUpdate(job, objs, dst0, s.workers, |objs|, s.pos, Worker(s.main.page[0], Copying));
    }
  }

  lemma MainKeepsErrors(job: Job, l: Listing, s: State)
    requires ErrorsOk(job, l, s) && MainEnabled(s) && s.pos !in s.workers && (s.main.ErrLocked? ==> ListingFails(l))
    ensures ErrorsOk(job, l, MainNext(job, s))
  {
  }

  lemma MainPreserves(job: Job, l: Listing, dst0: Bucket, s: State)
    requires Env(job, l) && Inv(job, l, dst0, s) && MainEnabled(s)
    ensures Inv(job, l, dst0, MainNext(job, s))
  {
    var objs, fails := Visited(l), ListingFails(l);
    Head(job, l, s.main, s.pos, s.unread);
    if s.pos < |objs| { StatSeesStart(job, l, dst0, s); }
    MainKeepsListing(job, l, s);
    MainKeepsWorkers(job, objs, fails, dst0, s);
    MainKeepsMutex(job, s, objs, dst0);
    MainKeepsCounts(job, l, dst0, s);
    MainKeepsDst(job, objs, fails, dst0, s);
    MainKeepsErrors(job, l, s);
  }

  ghost predicate NamedByPosition(objs: seq<Obj>, workers: map<nat, Worker>) {
    forall j :: j in workers ==> j < |objs| && workers[j].obj == objs[j]
  }

  lemma WorkerKeepsWorkers(job: Job, objs: seq<Obj>, dst0: Bucket, s: State, i: nat)
    requires WorkersOk(job, objs, dst0, s) && WorkerEnabled(s, i)
    ensures WorkersOk(job, objs, dst0, WorkerNext(job, s, i))
  {
    hide Attempted;
    var t := WorkerNext(job, s, i);
    assert t.pos == s.pos && t.workers == s.workers[i := Worker(s.workers[i].obj, PcAfter(job, s.workers[i]))];
  }

  lemma WorkerKeepsMutex(job: Job, s: State, i: nat)
    requires MutexOk(s) && WorkerEnabled(s, i)
    ensures MutexOk(WorkerNext(job, s, i))
  {
    var t := WorkerNext(job, s, i);
    assert t.main == s.main && t.workers == s.workers[i := Worker(s.workers[i].obj, PcAfter(job, s.workers[i]))];
  }

  /** What a goroutine holds it gives back, and nothing of the listing thread moves. */
  lemma WorkerHoldings(job: Job, s: State, i: nat)
    requires WorkerEnabled(s, i)
    ensures var t := WorkerNext(job, s, i);
      var before, after := Share(s.workers[i]), Share(t.workers[i]);
      && t.main == s.main && t.pos == s.pos && t.unread == s.unread && t.skipped == s.skipped
      && before.slots >= after.slots && t.slots + before.slots == s.slots + after.slots
      && before.live >= after.live && t.wg + before.live == s.wg + after.live
      && after.steps < before.steps
  {
  }

  /** What a goroutine records is in the counters. */
  lemma WorkerRecords(job: Job, s: State, i: nat)
    requires WorkerEnabled(s, i)
    ensures var t := WorkerNext(job, s, i);
      var before, after := Share(s.workers[i]), Share(t.workers[i]);
      && t.copied + before.copied == s.copied + after.copied
      && t.bytes + before.bytes == s.bytes + after.bytes
      && before.failed <= after.failed <= before.failed + 1
      && |t.errs| == (if |s.errs| < ERROR_CAP && before.failed < after.failed then |s.errs| + 1 else |s.errs|)
  {
  }

  lemma WorkerBalances(job: Job, s: State, i: nat, total: Tally, after: Tally, skips: nat, listErrors: nat)
    requires WorkerEnabled(s, i) && Balanced(s, total, skips, listErrors)
    requires after.Plus(Share(s.workers[i])) == total.Plus(Share(WorkerNext(job, s, i).workers[i]))
    ensures Balanced(WorkerNext(job, s, i), after, skips, listErrors)
  {
    WorkerHoldings(job, s, i);
    WorkerRecords(job, s, i);
    hide WorkerNext, WorkerEnabled, Share;
  }

  lemma WorkerKeepsCounts(job: Job, l: Listing, dst0: Bucket, s: State, i: nat)
    requires CountsOk(job, l, dst0, s) && WorkerEnabled(s, i) && i < |Visited(l)|
    ensures CountsOk(job, l, dst0, WorkerNext(job, s, i))
  {
    var n, t := |Visited(l)|, WorkerNext(job, s, i);
    assert t.workers == s.workers[i := t.workers[i]];
    TotalUpdate(s.workers, n, i, t.workers[i]);
    WorkerBalances(job, s, i, Total(s.workers, n), Total(t.workers, n), s.skipped, ListErrors(l, s.main));
  }

  /** A landed write is visible: writing it again changes nothing. */
  lemma {:induction false} LandedStays(
    job: Job, objs: seq<Obj>, dst0: Bucket, workers: map<nat, Worker>, n: nat, i: nat)
    requires DistinctTargets(job, objs) && i < n <= |objs| && i in workers && Landed(workers[i])
    requires forall j :: j in workers ==> j < |objs| && workers[j].obj == objs[j]
    ensures var d := Overlay(job, dst0, workers, n);
      d == d[job.target(objs[i]) := job.content(objs[i])]
  {
    if i < n - 1 { LandedStays(job, objs, dst0, workers, n - 1, i); }
  }

  /** Only the copy step writes, and it writes its own target. */
  lemma WorkerKeepsDst(job: Job, objs: seq<Obj>, dst0: Bucket, s: State, i: nat)
    requires DistinctTargets(job, objs) && NamedByPosition(objs, s.workers) && WorkerEnabled(s, i)
    requires s.dst == Overlay(job, dst0, s.workers, |objs|)
    ensures WorkerNext(job, s, i).dst == Overlay(job, dst0, WorkerNext(job, s, i).workers, |objs|)
  {
    var t := WorkerNext(job, s, i);
    var w := t.workers[i];
    assert t.workers == s.workers[i := w];
    OverlayUpdate(job, objs, dst0, s.workers, |objs|, i, w);
    if Landed(s.workers[i]) { LandedStays(job, objs, dst0, s.workers, |objs|, i); }
  }

  lemma WorkerKeepsErrors(job: Job, l: Listing, s: State, i: nat)
    requires ErrorsOk(job, l, s) && WorkerEnabled(s, i)
    ensures ErrorsOk(job, l, WorkerNext(job, s, i))
  {
  }

  lemma WorkerPreserves(job: Job, l: Listing, dst0: Bucket, s: State, i: nat)
    requires Env(job, l) && Inv(job, l, dst0, s) && WorkerEnabled(s, i)
    ensures Inv(job, l, dst0, WorkerNext(job, s, i))
  {
    WorkerKeepsWorkers(job, Visited(l), dst0, s, i);
    WorkerKeepsMutex(job, s, i);
    WorkerKeepsCounts(job, l, dst0, s, i);
    WorkerKeepsDst(job, Visited(l), dst0, s, i);
    WorkerKeepsErrors(job, l, s, i);
  }
}
