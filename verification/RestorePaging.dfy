/** The continuation loop against the listing it pages through. */
module RestorePaging {
  import opened Options
  import opened RestoreModel
  import opened RestoreMachine
  import opened RestoreSafety
  import opened RestoreRuns
  import opened RestoreRefinement

  /** The lister pages through `all`, cut into pages in any way: a token stands for an offset, a page
      before the end says it is truncated, and one at the end may say so if it gives a token, an empty
      page then following. Calls may fail, and a truncated page before the end may come without a token. */
  ghost predicate PagesThrough(job: Job, all: seq<Obj>, offset: string -> nat) {
    && offset("") == 0
    && forall t: string :: job.lister(t).Page? ==>
         var page, end := job.lister(t), offset(t) + |job.lister(t).objects|;
         && end <= |all| && page.objects == all[offset(t)..end]
         && (end < |all| ==> page.truncated)
         && (page.truncated && page.next == "" ==> end < |all|)
         && (page.truncated && page.next != "" ==> offset(page.next) == end)
  }

  /** Every object once and in order; and if no call failed, all of them exactly when no token was
      missing. */
  lemma {:induction false} WalkVisits(job: Job, all: seq<Obj>, offset: string -> nat, cont: string, l: Listing)
    requires PagesThrough(job, all, offset) && Serves(job, Some(cont), l) && offset(cont) <= |all|
    ensures offset(cont) + |Visited(l)| <= |all|
    ensures Visited(l) == all[offset(cont)..offset(cont) + |Visited(l)|]
    ensures !ListingFails(l) ==> (Visited(l) == all[offset(cont)..] <==> !CutShort(l))
    decreases l
  {
    if l.Chunk? {
      var next := job.lister(cont).next;
      var end := offset(cont) + |l.objects|;
      if l.truncated && next != "" {
        WalkVisits(job, all, offset, next, l.rest);
        var stop := end + |Visited(l.rest)|;
        assert all[offset(cont)..end] + all[end..stop] == all[offset(cont)..stop];
      } else {
        assert Visited(l) == l.objects;
      }
    }
  }

  /** The loop ends: when a page that leads to another one is not empty, the unlisted objects run out. */
  function Walk(job: Job, all: seq<Obj>, offset: string -> nat, cont: string): (l: Listing)
    requires PagesThrough(job, all, offset) && offset(cont) <= |all|
    requires forall t: string :: job.lister(t).Page? && job.lister(t).truncated && job.lister(t).next != ""
               ==> job.lister(t).objects != []
    ensures Serves(job, Some(cont), l)
    decreases |all| - offset(cont)
  {
    match job.lister(cont)
    case ListFailed => Broken
    case Page(objects, truncated, next) =>
      Chunk(objects, truncated, if NextToken(truncated, next).Some? then Walk(job, all, offset, next) else End)
  }

  lemma {:induction false} ListingUnique(job: Job, cont: Option<string>, l: Listing, m: Listing)
    requires Serves(job, cont, l) && Serves(job, cont, m)
    ensures l == m
    decreases l
  {
    if l.Chunk? {
      var page := job.lister(cont.value);
      ListingUnique(job, NextToken(page.truncated, page.next), l.rest, m.rest);
    }
  }

  /** A run that reports success has dealt with the whole snapshot if and only if no page claimed to be
      truncated while giving no token: the loop takes such a page for the last one and records no error. */
  lemma SuccessIsCompleteIff(job: Job, all: seq<Obj>, offset: string -> nat, l: Listing, dst0: Bucket, run: seq<State>)
    requires PagesThrough(job, all, offset)
    requires Env(job, l) && IsFinishedRun(job, l, dst0, run)
    requires run[|run| - 1].errs == []
    ensures run[|run| - 1].pos == |all| <==> !CutShort(l)
    ensures !CutShort(l) ==>
      var s, r := run[|run| - 1], RestoreAll(job, all, dst0);
      s.dst == r.dst && s.copied == r.copied && s.skipped == r.skipped && s.bytes == r.bytes && r.failed == 0
  {
    var s := run[|run| - 1];
    WalkVisits(job, all, offset, "", l);
    SuccessAndConservation(job, l, dst0, run);
    RunRefinesSequential(job, l, dst0, run);
    RunInv(job, l, dst0, run, |run| - 1);
    assert all[0..] == all;
    assert |Visited(l)[s.pos..]| == |PageOf(s.main) + Visited(s.unread)| == 0;
    assert all[0..|all|] == all;
  }

  /** Such a run: the only page lists one of two objects, says it is truncated and gives no token. */
  lemma IncompleteSuccess() returns (job: Job, all: seq<Obj>, offset: string -> nat, l: Listing, run: seq<State>)
    ensures PagesThrough(job, all, offset) && Env(job, l) && IsFinishedRun(job, l, map[], run)
    ensures run[|run| - 1].errs == [] && run[|run| - 1].copied == 1 && |all| == 2
  {
    var a, b := Obj("s/a", 1, false), Obj("s/b", 1, false);
    job := Job(false, token => if token == "" then Page([a], true, "") else ListFailed, o => true,
               (o: Obj) => o.key, (o: Obj) => "", key => false, o => true);
    all, offset, l := [a, b], token => 0, Chunk([a], true, End);
    assert Visited(l) == [a];
    run := FinishedRunExists(job, l, map[]);
    SuccessAndConservation(job, l, map[], run);
    RunRefinesSequential(job, l, map[], run);
    assert [a][..0] == [];
    assert RestoreAll(job, [a], map[]) == RestoreOne(job, Summary(map[], 0, 0, 0, 0), a);
  }
}
