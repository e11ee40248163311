/** What a restore does to the destination and reports, in terms of the request's keys alone. */
module RestoreDestination {
  import opened Options
  import opened RestoreModel
  import opened RestoreRequest
  import opened RestoreMachine
  import opened RestoreSafety
  import opened RestoreRuns
  import opened RestoreRefinement

  /** Restoring `rel` under a destination prefix ends up at `key`: at `rel` itself without a prefix, else one
      slash below the prefix, whether or not the prefix was given with a trailing slash. */
  ghost predicate LandsAt(dstPrefix: string, rel: string, key: string) {
    || ((dstPrefix == "" || dstPrefix == "/") && key == rel)
    || (exists p: string :: p != "" && Names(dstPrefix, p) && key == p + "/" + rel)
  }

  ghost predicate Names(dstPrefix: string, p: string) {
    dstPrefix == p + "/" || (dstPrefix == p && p != "" && p[|p| - 1] != '/')
  }

  /** A copy goes through when both ends answer, and either their common driver copies on the server or the
      object can be streamed across; a failing server-side copy falls back to streaming. */
  ghost predicate GoesThrough(a: CopyAnswers) {
    && a.srcCaps.Some? && a.dstCaps.Some?
    && (|| (a.srcCaps.value.driver == a.dstCaps.value.driver && a.dstCaps.value.serverSideCopy && a.serverSideOk)
        || (a.streamOk && a.putOk))
  }

  /** The request copies object `o`, found at `rel` under the prefix, to `key`: it is not a directory nor the
      prefix itself, nothing was found at `key` unless overwriting, and the copy goes through. */
  ghost predicate CopiesTo(req: Request, dst0: Bucket, o: Obj, rel: string, key: string) {
    && o.key == req.srcPrefix + rel && rel != "" && !o.isDir
    && LandsAt(req.dstPrefix, rel, key)
    && (req.overwrite || key !in dst0 || req.statFails(key))
    && GoesThrough(req.answers(o.key))
  }

  lemma NamesIff(d: string, p: string)
    ensures Names(d, p) <==> d != "" && p == TrimTrailingSlash(d)
  {
    assert |p + "/"| == |p| + 1 && (p + "/")[|p|] == '/' && (p + "/")[..|p|] == p;
    if d != "" {
      assert d == d[..|d| - 1] + [d[|d| - 1]];
    }
  }

  lemma LandsAtIff(req: Request, o: Obj, rel: string, key: string)
    requires o.key == req.srcPrefix + rel
    ensures LandsAt(req.dstPrefix, rel, key) <==> DstKey(req, o) == key
  {
    assert Relative(req, o) == rel;
    var d := req.dstPrefix;
    var p := TrimTrailingSlash(d);
    assert p == "" <==> d == "" || d == "/";
    hide Names, Relative, TrimTrailingSlash;
    forall q { NamesIff(d, q); }
  }

  lemma CopiesToIff(req: Request, dst0: Bucket, o: Obj, rel: string, key: string)
    requires o.key == req.srcPrefix + rel
    ensures CopiesTo(req, dst0, o, rel, key) <==> Writes(req, dst0, o, key)
  {
    LandsAtIff(req, o, rel, key);
    assert Relative(req, o) == rel;
  }

  /** Every listed object that the request copies is at its place in the end, with the source's content, under
      every interleaving; and every key that no listed object is copied to is as it was. */
  lemma RestoredAt(req: Request, l: Listing, dst0: Bucket, run: seq<State>, key: string)
    requires RequestEnv(req, l) && IsFinishedRun(JobOf(req), l, dst0, run)
    ensures var final := run[|run| - 1].dst;
      && (forall o, rel :: o in Visited(l) && CopiesTo(req, dst0, o, rel, key)
            ==> key in final && final[key] == req.source(req.srcPrefix + rel))
      && ((forall o, rel :: o in Visited(l) ==> !CopiesTo(req, dst0, o, rel, key))
            ==> (key in final <==> key in dst0) && (key in final ==> final[key] == dst0[key]))
  {
    var final := run[|run| - 1].dst;
    RestoredDestination(req, l, dst0, run, key);
    hide IsFinishedRun, RequestEnv, LandsAt, GoesThrough;
    forall o, rel | o in Visited(l) && CopiesTo(req, dst0, o, rel, key)
      ensures key in final && final[key] == req.source(req.srcPrefix + rel)
    {
      CopiesToIff(req, dst0, o, rel, key);
    }
    if forall o, rel :: o in Visited(l) ==> !CopiesTo(req, dst0, o, rel, key) {
      forall o | o in Visited(l) ensures !Writes(req, dst0, o, key) {
        ListedUnderPrefix(req, l, o);
        var rel := o.key[|req.srcPrefix|..];
        assert o.key == req.srcPrefix + rel;
        CopiesToIff(req, dst0, o, rel, key);
        assert !CopiesTo(req, dst0, o, rel, key);
      }
    }
  }

  lemma ListedUnderPrefix(req: Request, l: Listing, o: Obj)
    requires RequestEnv(req, l) && o in Visited(l)
    ensures req.srcPrefix <= o.key
  {
  }

  /** So the simplest restore, of one object into an empty place: "s/a" restored under "restored/" is
      "restored/a". */
  lemma OneSlash(rel: string)
    ensures LandsAt("restored/", rel, "restored/" + rel) && LandsAt("restored", rel, "restored/" + rel)
  {
    assert Names("restored/", "restored") && Names("restored", "restored");
    assert "restored/" + rel == "restored" + "/" + rel;
  }

  // ---- the report --------------------------------------------------------------------------------

  /** The fate of a listed object, spelled out on the request. */
  lemma FateIs(req: Request, dst0: Bucket, o: Obj, rel: string, key: string)
    requires o.key == req.srcPrefix + rel && LandsAt(req.dstPrefix, rel, key)
    ensures var fate := FateOf(JobOf(req), dst0, o);
      var found := !req.overwrite && key in dst0 && !req.statFails(key);
      && (fate.Ignored? <==> o.isDir || rel == "")
      && (fate.Skipped? <==> !o.isDir && rel != "" && found)
      && (fate.Copied? <==> !o.isDir && rel != "" && !found && GoesThrough(req.answers(o.key)))
      && (fate.Failed? <==> !o.isDir && rel != "" && !found && !GoesThrough(req.answers(o.key)))
  {
    LandsAtIff(req, o, rel, key);
    assert Relative(req, o) == rel;
    hide LandsAt;
  }

  ghost predicate RealError(job: Job, l: Listing, dst0: Bucket, e: RunError) {
    match e
    case ListError => ListingFails(l)
    case CopyError(i) => i < |Visited(l)| && FateOf(job, dst0, Visited(l)[i]).Failed?
  }

  lemma RecordedIsReal(job: Job, l: Listing, dst0: Bucket, s: State, e: RunError)
    requires WorkersOk(job, Visited(l), dst0, s) && ErrorsOk(job, l, s) && e in s.errs
    ensures RealError(job, l, dst0, e)
  {
    hide Skips, Visited, ListingFails;
  }

  /** The error list is capped at ten, and each of its messages is of a listing call that failed or of a copy
      that did. */
  lemma ErrorsAreReal(job: Job, l: Listing, dst0: Bucket, run: seq<State>)
    requires Env(job, l) && IsFinishedRun(job, l, dst0, run)
    ensures var errs := run[|run| - 1].errs;
      var failures := FateCount(job, dst0, Visited(l), Fate.Failed) + (if ListingFails(l) then 1 else 0);
      && |errs| == (if failures < 10 then failures else 10)
      && forall e :: e in errs ==> RealError(job, l, dst0, e)
  {
    var s := run[|run| - 1];
    RunRefinesSequential(job, l, dst0, run);
    FateTotals(job, Visited(l), dst0);
    RunInv(job, l, dst0, run, |run| - 1);
    assert WorkersOk(job, Visited(l), dst0, s) && ErrorsOk(job, l, s);
    hide Inv, IsFinishedRun, WorkersOk, ErrorsOk, RestoreAll, FateCount, RealError;
    forall e | e in s.errs ensures RealError(job, l, dst0, e) {
      RecordedIsReal(job, l, dst0, s, e);
    }
  }

  // ---- the semaphore -----------------------------------------------------------------------------

  /** A copy waits for a slot exactly while four goroutines hold one. */
  lemma WaitsOnlyForFour(job: Job, l: Listing, dst0: Bucket, run: seq<State>, k: nat)
    requires Env(job, l) && IsRun(job, l, dst0, run) && k < |run| && run[k].main.Acquire?
    ensures MainEnabled(run[k]) <==> Total(run[k].workers, |Visited(l)|).slots < 4
  {
    RunInv(job, l, dst0, run, k);
    assert CountsOk(job, l, dst0, run[k]) && DecisionOk(job, dst0, run[k].main);
    hide Inv, Total, IsRun, Env;
  }
}
