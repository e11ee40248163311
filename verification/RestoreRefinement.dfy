/** Every interleaving of the restore engine computes the sequential restore. */
module RestoreRefinement {
  import opened Options
  import opened RestoreModel
  import opened RestoreRequest
  import opened RestoreMachine
  import opened RestoreSafety
  import opened RestoreRuns

  /** The sequential restore of one object more, its skip decision read off the start. */
  lemma RestoreNext(job: Job, objs: seq<Obj>, dst0: Bucket, n: nat)
    requires n < |objs| && DistinctTargets(job, objs)
    ensures RestoreAll(job, objs[..n + 1], dst0) == RestoreOne(job, RestoreAll(job, objs[..n], dst0), objs[n])
    ensures Skips(job, RestoreAll(job, objs[..n], dst0).dst, objs[n]) == Skips(job, dst0, objs[n])
  {
    FateStable(job, objs, dst0, n);
    assert objs[..n + 1][..n] == objs[..n];
  }

  /** What a settled goroutine recorded and wrote is the fate of its object. */
  lemma SettledOne(job: Job, objs: seq<Obj>, dst0: Bucket, s: State, n: nat)
    requires n < s.pos && WorkersOk(job, objs, dst0, s) && (n in s.workers ==> s.workers[n].pc.Done?)
    ensures var o, d, fate := objs[n], Overlay(job, dst0, s.workers, n), FateOf(job, dst0, objs[n]);
      && ShareAt(s.workers, n) == (if fate.Copied? then Tally(0, 0, 1, o.size, 0, 0)
                                   else if fate.Failed? then Tally(0, 0, 0, 0, 1, 0) else NOTHING)
      && Overlay(job, dst0, s.workers, n + 1) == if fate.Copied? then d[job.target(o) := job.content(o)] else d
  {
    hide Skips;
    assert Attempted(job, dst0, objs[n]) <==> n in s.workers;
  }

  /** The goroutines of the first n objects add up to the sequential restore of those objects. */
  ghost predicate AddsUp(job: Job, objs: seq<Obj>, dst0: Bucket, s: State, n: nat)
    requires n <= |objs|
  {
    var total := Total(s.workers, n);
    RestoreAll(job, objs[..n], dst0)
    == Summary(Overlay(job, dst0, s.workers, n), total.copied, SkipCount(job, dst0, objs, n), total.bytes, total.failed)
  }

  lemma SettledNext(job: Job, objs: seq<Obj>, dst0: Bucket, s: State, n: nat)
    requires DistinctTargets(job, objs) && n < s.pos <= |objs| && WorkersOk(job, objs, dst0, s)
    requires (n in s.workers ==> s.workers[n].pc.Done?) && AddsUp(job, objs, dst0, s, n)
    ensures AddsUp(job, objs, dst0, s, n + 1)
  {
    hide WorkersOk, ShareAt, Skips, DistinctTargets, Overlay, RestoreAll;
    SettledOne(job, objs, dst0, s, n);
    RestoreNext(job, objs, dst0, n);
  }

  /** They do once they are all done, whatever order they ran in. */
  lemma {:induction false} Settled(job: Job, objs: seq<Obj>, dst0: Bucket, s: State, n: nat)
    requires DistinctTargets(job, objs) && n <= s.pos <= |objs| && WorkersOk(job, objs, dst0, s)
    requires forall i :: i in s.workers ==> s.workers[i].pc.Done?
    ensures AddsUp(job, objs, dst0, s, n)
  {
    if n > 0 {
      hide AddsUp, WorkersOk, DistinctTargets;
      Settled(job, objs, dst0, s, n - 1);
      SettledNext(job, objs, dst0, s, n - 1);
    }
  }

  /** What copyRestoreTree leaves and returns, in terms of the sequential restore. */
  ghost predicate Refines(job: Job, l: Listing, dst0: Bucket, s: State) {
    var r := RestoreAll(job, Visited(l), dst0);
    && s.dst == r.dst
    && s.copied == r.copied && s.skipped == r.skipped && s.bytes == r.bytes
    && |s.errs| == Min(ERROR_CAP, r.failed + if ListingFails(l) then 1 else 0)
  }

  lemma FinalState(job: Job, l: Listing, dst0: Bucket, s: State)
    requires Env(job, l) && Inv(job, l, dst0, s) && s.main.Returned?
    ensures Refines(job, l, dst0, s)
  {
    var objs := Visited(l);
    TotalIdle(s.workers, |objs|);
    assert s.pos == |objs| by {
      assert |objs[s.pos..]| == |PageOf(s.main) + Visited(s.unread)| == 0;
    }
    Settled(job, objs, dst0, s, |objs|);
    assert objs[..|objs|] == objs;
  }

  /** For every interleaving. */
  lemma RunRefinesSequential(job: Job, l: Listing, dst0: Bucket, run: seq<State>)
    requires Env(job, l) && IsFinishedRun(job, l, dst0, run)
    ensures Refines(job, l, dst0, run[|run| - 1])
  {
    RunInv(job, l, dst0, run, |run| - 1);
    FinalState(job, l, dst0, run[|run| - 1]);
  }

  /** runRestore: success is reported exactly when no listing call and no copy failed; the counters and the
      failures account for every eligible object that was visited, and bytes for the copied ones. */
  lemma SuccessAndConservation(job: Job, l: Listing, dst0: Bucket, run: seq<State>)
    requires Env(job, l) && IsFinishedRun(job, l, dst0, run)
    ensures var s, r := run[|run| - 1], RestoreAll(job, Visited(l), dst0);
      && (s.errs == [] <==> !ListingFails(l) && r.failed == 0)
      && s.copied + s.skipped + r.failed == EligibleCount(job, Visited(l))
      && s.copied == FateCount(job, dst0, Visited(l), Copied)
      && s.bytes == CopiedBytes(job, dst0, Visited(l))
  {
    RunRefinesSequential(job, l, dst0, run);
    FateTotals(job, Visited(l), dst0);
  }

  // ---- in terms of the request ---------------------------------------------------------

  ghost predicate RequestEnv(req: Request, l: Listing) {
    Serves(JobOf(req), Some(""), l) && WellListed(req, Visited(l))
  }

  /** The object must be written: it is eligible, the skip-existing check did not find it, and its
      copy went through. */
  ghost predicate Writes(req: Request, dst0: Bucket, o: Obj, key: string) {
    && Eligible(req, o) && DstKey(req, o) == key
    && (req.overwrite || key !in dst0 || req.statFails(key))
    && CopySucceeds(req.answers(o.key))
  }

  /** The destination after any finished run, key by key. */
  lemma RestoredDestination(req: Request, l: Listing, dst0: Bucket, run: seq<State>, key: string)
    requires RequestEnv(req, l) && IsFinishedRun(JobOf(req), l, dst0, run)
    ensures var final := run[|run| - 1].dst;
      && (forall o :: o in Visited(l) && Writes(req, dst0, o, key) ==> key in final && final[key] == req.source(o.key))
      && ((forall o :: o in Visited(l) ==> !Writes(req, dst0, o, key)) ==>
            (key in final <==> key in dst0) && (key in final ==> final[key] == dst0[key]))
  {
    var job, objs := JobOf(req), Visited(l);
    TargetsDistinct(req, objs);
    RunRefinesSequential(job, l, dst0, run);
    RestoreAllMeaning(job, objs, dst0, key);
    forall o | o in objs
      ensures Writes(req, dst0, o, key) <==> DstKey(req, o) == key && FateOf(job, dst0, o).Copied?
    {
    }
  }

  /** With overwriting off, the documentation promises that an existing key is left alone. The code
      keeps that promise exactly when StatObject does not err on the key: any stat error, transient
      ones included, is taken for absence. */
  lemma ExistingKeyKeptIff(req: Request, l: Listing, dst0: Bucket, run: seq<State>, o: Obj)
    requires RequestEnv(req, l) && IsFinishedRun(JobOf(req), l, dst0, run) && !req.overwrite
    requires o in Visited(l) && Eligible(req, o) && CopySucceeds(req.answers(o.key))
    requires DstKey(req, o) in dst0 && dst0[DstKey(req, o)] != req.source(o.key)
    ensures var final, key := run[|run| - 1].dst, DstKey(req, o);
      key in final && (final[key] == dst0[key] <==> !req.statFails(key))
  {
    RestoredDestination(req, l, dst0, run, DstKey(req, o));
    if !req.statFails(DstKey(req, o)) {
      forall p | p in Visited(l) ensures !Writes(req, dst0, p, DstKey(req, o)) {}
    } else {
      assert Writes(req, dst0, o, DstKey(req, o));
    }
  }

  /** Such a run: a restore without overwriting replaces the content of the existing key "a", whose
      stat fails. */
  lemma ExistingKeyLost() returns (req: Request, l: Listing, run: seq<State>)
    ensures !req.overwrite && RequestEnv(req, l) && IsFinishedRun(JobOf(req), l, map["a" := "mine"], run)
    ensures "a" in run[|run| - 1].dst && run[|run| - 1].dst["a"] == "theirs"
  {
    var o, dst0 := Obj("s/a", 1, false), map["a" := "mine"];
    var caps := Some(Caps("s3", true));
    req := Request("s/", "", false, key => "theirs", token => Page([o], false, ""), key => true,
                   key => CopyAnswers(caps, caps, true, true, true));
    l := Chunk([o], false, End);
    assert Visited(l) == [o];
    assert DstKey(req, o) == "a" by { assert "s/a"[2..] == "a"; }
    TargetsDistinct(req, Visited(l));
    run := FinishedRunExists(JobOf(req), l, dst0);
    RestoredDestination(req, l, dst0, run, "a");
    assert o in Visited(l) && Writes(req, dst0, o, "a");
  }
}
