/** The restore engine as it really runs: a listing thread and one goroutine per copied object,
    interleaved in any order, sharing a 4-slot semaphore, a WaitGroup and a mutex. */
module RestoreMachine {
  import opened Options
  import opened RestoreModel

  /** Program counter of a copy goroutine; `ok` is the outcome of its copy. */
  datatype Pc =
    | Copying            // before copyRestoreObject returns
    | WantLock(ok: bool) // about to take the mutex
    | Locked(ok: bool)   // holds the mutex, counters not yet updated
    | Releasing(ok: bool) // about to give its semaphore slot back
    | Finishing(ok: bool) // about to call wg.Done
    | Done(ok: bool)

  datatype Worker = Worker(obj: Obj, pc: Pc)

  /** Program counter of the listing thread; `page` is what is left of the current page,
      `cont` the token to list next, None on the last page. */
  datatype MainPc =
    | Fetch(token: string)
    | Scan(page: seq<Obj>, cont: Option<string>)
    | SkipWant(page: seq<Obj>, cont: Option<string>)
    | SkipLocked(page: seq<Obj>, cont: Option<string>)
    | Acquire(page: seq<Obj>, cont: Option<string>) // after wg.Add, waiting for a slot
    | ErrWant
    | ErrLocked
    | Wait
    | Returned

  datatype Agent = ListingThread | CopyThread(id: nat)

  /** Error messages; a failed copy is named by the position of its object. */
  datatype RunError = ListError | CopyError(id: nat)

  /** `unread` is the part of the listing not fetched yet and `pos` the number of objects gone by;
      goroutines are named by the position of their object. */
  datatype State = State(
    main: MainPc, pos: nat, unread: Listing, workers: map<nat, Worker>,
    slots: nat, wg: nat, mutex: Option<Agent>,
    dst: Bucket, copied: nat, skipped: nat, bytes: nat, errs: seq<RunError>)

  function Init(l: Listing, dst0: Bucket): State {
    State(Fetch(""), 0, l, map[], 0, 0, None, dst0, 0, 0, 0, [])
  }

  function AppendBounded(errs: seq<RunError>, e: RunError): seq<RunError> {
    if |errs| >= ERROR_CAP then errs else errs + [e]
  }

  /** A whole series of messages, one after the other. */
  function AppendAll(errs: seq<RunError>, messages: seq<RunError>): seq<RunError>
    decreases messages
  {
    if messages == [] then errs else AppendAll(AppendBounded(errs, messages[0]), messages[1..])
  }

  /** Of any series of messages the first ten are kept, in order. */
  lemma {:induction false} EarliestKept(errs: seq<RunError>, messages: seq<RunError>)
    requires |errs| <= 10
    ensures var all := errs + messages;
      AppendAll(errs, messages) == if |all| <= 10 then all else all[..10]
    decreases messages
  {
    if messages != [] {
      EarliestKept(AppendBounded(errs, messages[0]), messages[1..]);
      assert errs + messages == (errs + [messages[0]]) + messages[1..];
    } else {
      assert errs + messages == errs;
    }
  }

  // ---- steps ----------------------------------------------------------------

  predicate MainEnabled(s: State) {
    match s.main
    case SkipWant(_, _) => s.mutex.None?
    case ErrWant => s.mutex.None?
    case Acquire(page, _) => s.slots < RESTORE_CONCURRENCY && page != []
    case SkipLocked(page, _) => page != []
    case Wait => s.wg == 0
    case Returned => false
    case _ => true
  }

  function MainNext(job: Job, s: State): State
    requires MainEnabled(s)
  {
    match s.main
    case Fetch(token) =>
      (match job.lister(token)
       case ListFailed => s.(main := ErrWant, unread := End)
       case Page(objects, truncated, next) =>
         s.(main := Scan(objects, NextToken(truncated, next)),
            unread := if s.unread.Chunk? then s.unread.rest else End))
    case Scan(page, cont) =>
      if page == [] then
        s.(main := if cont.Some? then Fetch(cont.value) else Wait)
      else if !job.eligible(page[0]) then
        s.(main := Scan(page[1..], cont), pos := s.pos + 1)
      else if Skips(job, s.dst, page[0]) then
        s.(main := SkipWant(page, cont))
      else
        s.(main := Acquire(page, cont), wg := s.wg + 1)
    case SkipWant(page, cont) => s.(main := SkipLocked(page, cont), mutex := Some(ListingThread))
    case SkipLocked(page, cont) =>
      s.(main := Scan(page[1..], cont), pos := s.pos + 1, skipped := s.skipped + 1, mutex := None)
    case Acquire(page, cont) =>
      s.(main := Scan(page[1..], cont), pos := s.pos + 1, slots := s.slots + 1,
         workers := s.workers[s.pos := Worker(page[0], Copying)])
    case ErrWant => s.(main := ErrLocked, mutex := Some(ListingThread))
    case ErrLocked => s.(main := Wait, mutex := None, errs := AppendBounded(s.errs, ListError))
    case Wait => s.(main := Returned)
  }

  predicate WorkerEnabled(s: State, i: nat) {
    i in s.workers &&
    match s.workers[i].pc
    case WantLock(_) => s.mutex.None?
    case Releasing(_) => s.slots > 0
    case Finishing(_) => s.wg > 0
    case Done(_) => false
    case _ => true
  }

  function WorkerNext(job: Job, s: State, i: nat): State
    requires WorkerEnabled(s, i)
  {
    var o := s.workers[i].obj;
    var t := s.(workers := s.workers[i := Worker(o, PcAfter(job, s.workers[i]))]);
    match s.workers[i].pc
    case Copying => if job.copyOk(o) then t.(dst := s.dst[job.target(o) := job.content(o)]) else t
    case WantLock(_) => t.(mutex := Some(CopyThread(i)))
    case Locked(ok) =>
      if ok then t.(mutex := None, copied := s.copied + 1, bytes := s.bytes + o.size)
      else t.(mutex := None, errs := AppendBounded(s.errs, CopyError(i)))
    case Releasing(_) => t.(slots := s.slots - 1)
    case Finishing(_) => t.(wg := s.wg - 1)
  }

  function PcAfter(job: Job, w: Worker): Pc {
    match w.pc
    case Copying => WantLock(job.copyOk(w.obj))
    case WantLock(ok) => Locked(ok)
    case Locked(ok) => Releasing(ok)
    case Releasing(ok) => Finishing(ok)
    case Finishing(ok) => Done(ok)
    case Done(ok) => Done(ok)
  }

  /** One atomic step of any thread. */
  ghost predicate Next(job: Job, s: State, t: State) {
    || (MainEnabled(s) && t == MainNext(job, s))
    || (exists i: nat :: WorkerEnabled(s, i) && t == WorkerNext(job, s, i))
  }

  // ---- tallies over goroutines ---------------------------------------------------

  /** What the goroutines hold and have recorded. */
  datatype Tally = Tally(slots: nat, live: nat, copied: nat, bytes: nat, failed: nat, steps: nat) {
    function Plus(t: Tally): Tally {
      Tally(slots + t.slots, live + t.live, copied + t.copied, bytes + t.bytes, failed + t.failed, steps + t.steps)
    }
  }

  const NOTHING := Tally(0, 0, 0, 0, 0, 0)

  function Share(w: Worker): Tally {
    match w.pc
    case Copying => Tally(1, 1, 0, 0, 0, 5)
    case WantLock(_) => Tally(1, 1, 0, 0, 0, 4)
    case Locked(_) => Tally(1, 1, 0, 0, 0, 3)
    case Releasing(ok) => if ok then Tally(1, 1, 1, w.obj.size, 0, 2) else Tally(1, 1, 0, 0, 1, 2)
    case Finishing(ok) => if ok then Tally(0, 1, 1, w.obj.size, 0, 1) else Tally(0, 1, 0, 0, 1, 1)
    case Done(ok) => if ok then Tally(0, 0, 1, w.obj.size, 0, 0) else Tally(0, 0, 0, 0, 1, 0)
  }

  function ShareAt(workers: map<nat, Worker>, i: nat): Tally {
    if i in workers then Share(workers[i]) else NOTHING
  }

  function Total(workers: map<nat, Worker>, n: nat): Tally {
    if n == 0 then NOTHING else Total(workers, n - 1).Plus(ShareAt(workers, n - 1))
  }

  predicate Landed(w: Worker) { !w.pc.Copying? && w.pc.ok }

  lemma {:induction false} TotalElsewhere(workers: map<nat, Worker>, n: nat, i: nat, w: Worker)
    requires i >= n
    ensures Total(workers[i := w], n) == Total(workers, n)
  {
    hide Share;
    if n > 0 { TotalElsewhere(workers, n - 1, i, w); }
  }

  lemma PlusExchange(t: Tally, u: Tally, a: Tally, given: Tally, taken: Tally)
    requires t.Plus(given) == u.Plus(taken)
    ensures t.Plus(a).Plus(given) == u.Plus(a).Plus(taken)
  {
  }

  lemma PlusSwap(t: Tally, a: Tally, b: Tally)
    ensures t.Plus(a).Plus(b) == t.Plus(b).Plus(a)
  {
  }

  lemma {:induction false} TotalUpdate(workers: map<nat, Worker>, n: nat, i: nat, w: Worker)
    requires i < n
    ensures Total(workers[i := w], n).Plus(ShareAt(workers, i)) == Total(workers, n).Plus(Share(w))
  {
    hide Share, Tally.Plus;
    var after := workers[i := w];
    if i == n - 1 {
      TotalElsewhere(workers, n - 1, i, w);
      PlusSwap(Total(workers, n - 1), Share(w), ShareAt(workers, i));
    } else {
      TotalUpdate(workers, n - 1, i, w);
      assert ShareAt(after, n - 1) == ShareAt(workers, n - 1);
      PlusExchange(Total(after, n - 1), Total(workers, n - 1), ShareAt(workers, n - 1), ShareAt(workers, i), Share(w));
    }
  }

  lemma TotalAdd(workers: map<nat, Worker>, n: nat, i: nat, w: Worker)
    requires i < n && i !in workers
    ensures Total(workers[i := w], n) == Total(workers, n).Plus(Share(w))
  {
    TotalUpdate(workers, n, i, w);
  }

  lemma {:induction false} TotalNone(n: nat)
    ensures Total(map[], n) == NOTHING
  {
    if n > 0 { TotalNone(n - 1); }
  }

  /** Nobody live means everybody is done and every slot is free. */
  lemma {:induction false} TotalIdle(workers: map<nat, Worker>, n: nat)
    ensures Total(workers, n).live == 0 <==> forall i :: i in workers && i < n ==> workers[i].pc.Done?
    ensures Total(workers, n).slots <= Total(workers, n).live
  {
    if n > 0 { TotalIdle(workers, n - 1); }
  }

  /** The destination the landed writes amount to, written in listing order. */
  function Overlay(job: Job, dst0: Bucket, workers: map<nat, Worker>, n: nat): Bucket {
    if n == 0 then dst0
    else
      var d := Overlay(job, dst0, workers, n - 1);
      if n - 1 in workers && Landed(workers[n - 1])
      then d[job.target(workers[n - 1].obj) := job.content(workers[n - 1].obj)] else d
  }

  /** Writes to different targets commute, so a write landing late equals the same write in its place. */
  lemma {:induction false} OverlayUpdate(
    job: Job, objs: seq<Obj>, dst0: Bucket, workers: map<nat, Worker>, n: nat, i: nat, w: Worker)
    requires DistinctTargets(job, objs) && n <= |objs|
    requires forall j :: j in workers && j < n ==> workers[j].obj == objs[j]
    requires i < n && w.obj == objs[i] && i in workers ==> !Landed(workers[i]) || Landed(w)
    requires i < |objs| && w.obj == objs[i]
    ensures var before := Overlay(job, dst0, workers, n);
      Overlay(job, dst0, workers[i := w], n)
      == if i < n && Landed(w) then before[job.target(w.obj) := job.content(w.obj)] else before
  {
    if n > 0 {
      OverlayUpdate(job, objs, dst0, workers, n - 1, i, w);
      if i < n - 1 {
        assert job.target(objs[i]) != job.target(objs[n - 1]);
      }
    }
  }

  /** A key nobody below n targets is as it was. */
  lemma {:induction false} OverlayElsewhere(
    job: Job, objs: seq<Obj>, dst0: Bucket, workers: map<nat, Worker>, n: nat, k: nat)
    requires DistinctTargets(job, objs) && n <= |objs| && k < |objs|
    requires forall j :: j in workers && j < n ==> workers[j].obj == objs[j]
    requires k in workers && k < n ==> !Landed(workers[k])
    ensures var d, key := Overlay(job, dst0, workers, n), job.target(objs[k]);
      (key in d <==> key in dst0) && (key in d ==> d[key] == dst0[key])
  {
    if n > 0 {
      OverlayElsewhere(job, objs, dst0, workers, n - 1, k);
    }
  }
}
