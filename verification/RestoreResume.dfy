/** Re-running an interrupted restore. */
module RestoreResume {
  import opened RestoreModel
  import opened RestoreMachine
  import opened RestoreSafety
  import opened RestoreRuns
  import opened RestoreRefinement

  /** The same restore with overwriting off and stats answering truthfully; only the outcome of the
      copies may differ. */
  ghost predicate SameRestore(a: Job, b: Job) {
    && !a.overwrite && !b.overwrite
    && a.eligible == b.eligible && a.target == b.target && a.content == b.content
    && (forall k :: !a.statFails(k)) && (forall k :: !b.statFails(k))
  }

  /** The same restore with overwriting off and stats answering alike, truthfully or not. */
  ghost predicate SameAnswers(a: Job, b: Job) {
    && !a.overwrite && !b.overwrite
    && a.eligible == b.eligible && a.target == b.target && a.content == b.content
    && (forall k :: a.statFails(k) == b.statFails(k))
  }

  ghost predicate NoCopyFails(job: Job, objs: seq<Obj>) {
    forall o :: o in objs ==> job.copyOk(o)
  }

  /** The fate of an object in a run started where a run over the first m objects ended: what that run
      copied is there now, what it failed on or never saw is as it was. */
  lemma FateAfter(a: Job, b: Job, objs: seq<Obj>, d0: Bucket, m: nat, i: nat)
    requires SameRestore(a, b) && DistinctTargets(a, objs) && m <= |objs| && i < |objs|
    ensures FateOf(b, RestoreAll(a, objs[..m], d0).dst, objs[i])
            == if i < m && FateOf(a, d0, objs[i]).Copied? then Skipped else FateOf(b, d0, objs[i])
  {
    var key := a.target(objs[i]);
    RestoreAllMeaning(a, objs[..m], d0, key);
    forall j | 0 <= j < m && a.target(objs[..m][j]) == key ensures j == i {}
    if i < m { assert objs[..m][i] == objs[i]; }
  }

  /** Finishing an interrupted restore leaves what an uninterrupted one would have left. */
  lemma SameDestination(a: Job, b: Job, objs: seq<Obj>, d0: Bucket, m: nat)
    requires SameAnswers(a, b) && DistinctTargets(a, objs) && m <= |objs| && NoCopyFails(b, objs)
    ensures RestoreAll(b, objs, RestoreAll(a, objs[..m], d0).dst).dst == RestoreAll(b, objs, d0).dst
  {
    var d1 := RestoreAll(a, objs[..m], d0).dst;
    var resumed, straight := RestoreAll(b, objs, d1).dst, RestoreAll(b, objs, d0).dst;
    forall k ensures (k in resumed <==> k in straight) && (k in resumed ==> resumed[k] == straight[k]) {
      SameKey(a, b, objs, d0, m, k);
    }
    assert resumed == straight;
  }

  lemma SameKey(a: Job, b: Job, objs: seq<Obj>, d0: Bucket, m: nat, k: string)
    requires SameAnswers(a, b) && DistinctTargets(a, objs) && m <= |objs| && NoCopyFails(b, objs)
    ensures var resumed := RestoreAll(b, objs, RestoreAll(a, objs[..m], d0).dst).dst;
      var straight := RestoreAll(b, objs, d0).dst;
      (k in resumed <==> k in straight) && (k in resumed ==> resumed[k] == straight[k])
  {
    var d1 := RestoreAll(a, objs[..m], d0).dst;
    RestoreAllMeaning(a, objs[..m], d0, k);
    RestoreAllMeaning(b, objs, d0, k);
    RestoreAllMeaning(b, objs, d1, k);
    if i :| 0 <= i < |objs| && a.target(objs[i]) == k {
      assert objs[i] in objs;
      forall j | 0 <= j < |objs| && a.target(objs[j]) == k ensures j == i {}
      forall j | 0 <= j < m && a.target(objs[..m][j]) == k ensures j == i {}
      if i < m { assert objs[..m][i] == objs[i]; }
    } else {
      assert forall j :: 0 <= j < m ==> objs[..m][j] == objs[j];
    }
  }

  /** Run again, an object the first run copied turns from copied to skipped, and no other one changes. */
  lemma FateTurns(a: Job, b: Job, objs: seq<Obj>, d0: Bucket, m: nat, i: nat)
    requires SameRestore(a, b) && DistinctTargets(a, objs) && m <= |objs| && i < |objs| && NoCopyFails(b, objs)
    ensures var straight, again := FateOf(b, d0, objs[i]), FateOf(b, RestoreAll(a, objs[..m], d0).dst, objs[i]);
      && !again.Failed?
      && if i < m && FateOf(a, d0, objs[i]).Copied? then straight.Copied? && again.Skipped? else again == straight
  {
    FateAfter(a, b, objs, d0, m, i);
    assert objs[i] in objs;
  }

  lemma FateCountNext(job: Job, d: Bucket, objs: seq<Obj>, n: nat, fate: Fate)
    requires n < |objs|
    ensures FateCount(job, d, objs[..n + 1], fate)
            == FateCount(job, d, objs[..n], fate) + if FateOf(job, d, objs[n]) == fate then 1 else 0
  {
    assert objs[..n + 1][..n] == objs[..n];
  }

  /** What the first run copied, the second skips instead of copying. */
  lemma {:induction false} CountsAfter(a: Job, b: Job, objs: seq<Obj>, d0: Bucket, m: nat, n: nat)
    requires SameRestore(a, b) && DistinctTargets(a, objs) && m <= |objs| && n <= |objs| && NoCopyFails(b, objs)
    ensures var before := FateCount(a, d0, objs[..if n < m then n else m], Copied);
      var d1 := RestoreAll(a, objs[..m], d0).dst;
      && FateCount(b, d1, objs[..n], Copied) + before == FateCount(b, d0, objs[..n], Copied)
      && FateCount(b, d1, objs[..n], Skipped) == FateCount(b, d0, objs[..n], Skipped) + before
      && FateCount(b, d1, objs[..n], Failed) == 0
  {
    hide RestoreAll, DistinctTargets, SameRestore, NoCopyFails, FateOf;
    if n > 0 {
      var d1 := RestoreAll(a, objs[..m], d0).dst;
      CountsAfter(a, b, objs, d0, m, n - 1);
      FateTurns(a, b, objs, d0, m, n - 1);
      FateCountNext(a, d0, objs, n - 1, Copied);
      FateCountNext(b, d0, objs, n - 1, Copied);
      FateCountNext(b, d1, objs, n - 1, Copied);
      FateCountNext(b, d0, objs, n - 1, Skipped);
      FateCountNext(b, d1, objs, n - 1, Skipped);
      FateCountNext(b, d1, objs, n - 1, Failed);
      hide FateCount;
    }
  }

  /** Three runs in a row, each under any interleaving: the first cut off anywhere by a listing error and
      with any copies failing, the next two complete. The second leaves the destination of one complete
      run and copies only what the first did not; the third copies nothing and skips everything. */
  lemma RestoreResumes(
    a: Job, b: Job, cut: Listing, l: Listing, d0: Bucket,
    run1: seq<State>, run2: seq<State>, run3: seq<State>, straight: seq<State>)
    requires SameRestore(a, b) && Env(a, cut) && Env(b, l) && NoCopyFails(b, Visited(l)) && Visited(cut) <= Visited(l)
    requires IsFinishedRun(a, cut, d0, run1)
    requires IsFinishedRun(b, l, run1[|run1| - 1].dst, run2)
    requires IsFinishedRun(b, l, run2[|run2| - 1].dst, run3)
    requires IsFinishedRun(b, l, d0, straight)
    ensures var s1, s2, s3 := run1[|run1| - 1], run2[|run2| - 1], run3[|run3| - 1];
      var s := straight[|straight| - 1];
      && s2.dst == s.dst == s3.dst
      && s1.copied + s2.copied == s.copied
      && s2.skipped == s.skipped + s1.copied
      && s3.copied == 0 && s3.skipped == EligibleCount(b, Visited(l))
  {
    var objs, m := Visited(l), |Visited(cut)|;
    var d1, d2 := run1[|run1| - 1].dst, run2[|run2| - 1].dst;
    assert objs[..m] == Visited(cut) && objs[..|objs|] == objs;
    assert SameAnswers(a, b) && SameAnswers(b, b) && SameRestore(b, b);
    hide SameRestore, SameAnswers, NoCopyFails, FateOf;
    RunRefinesSequential(a, cut, d0, run1);
    RunRefinesSequential(b, l, d1, run2);
    RunRefinesSequential(b, l, d2, run3);
    RunRefinesSequential(b, l, d0, straight);
    FateTotals(a, objs[..m], d0);
    FateTotals(b, objs, d0);
    FateTotals(b, objs, d1);
    FateTotals(b, objs, d2);
    CountsAfter(a, b, objs, d0, m, |objs|);
    CountsAfter(b, b, objs, d1, |objs|, |objs|);
    SameDestination(a, b, objs, d0, m);
    SameDestination(b, b, objs, d1, |objs|);
  }

  /** The second run starts a copy for nothing the first run restored or skipped. */
  lemma SecondRunOnlyRetries(
    a: Job, b: Job, cut: Listing, l: Listing, d0: Bucket, run1: seq<State>, run2: seq<State>, i: nat)
    requires SameRestore(a, b) && Env(a, cut) && Env(b, l) && Visited(cut) <= Visited(l)
    requires IsFinishedRun(a, cut, d0, run1) && IsFinishedRun(b, l, run1[|run1| - 1].dst, run2)
    requires i in run2[|run2| - 1].workers
    ensures i < |Visited(l)| && (i < |Visited(cut)| ==> FateOf(a, d0, Visited(cut)[i]).Failed?)
  {
    var objs, m := Visited(l), |Visited(cut)|;
    assert objs[..m] == Visited(cut);
    RunRefinesSequential(a, cut, d0, run1);
    RunWorkersOk(b, l, run1[|run1| - 1].dst, run2, |run2| - 1);
    FateAfter(a, b, objs, d0, m, i);
  }

  // ---- a run stopped anywhere ------------------------------------------------------------------------

  /** The job whose copies succeed exactly where a goroutine's write has landed. */
  ghost function LandedJob(job: Job, objs: seq<Obj>, workers: map<nat, Worker>): Job {
    job.(copyOk := o => exists i :: i in workers && i < |objs| && objs[i] == o && Landed(workers[i]))
  }

  lemma LandedOnce(job: Job, objs: seq<Obj>, workers: map<nat, Worker>, n: nat)
    requires DistinctTargets(job, objs) && n < |objs|
    ensures LandedJob(job, objs, workers).copyOk(objs[n]) <==> n in workers && Landed(workers[n])
  {
    forall i | i in workers && i < |objs| && objs[i] == objs[n] ensures i == n {
      assert job.target(objs[i]) == job.target(objs[n]);
    }
  }

  /** The writes landed for the first n objects are a sequential restore of them. */
  lemma {:induction false} LandedIsRestore(job: Job, objs: seq<Obj>, d0: Bucket, s: State, n: nat)
    requires DistinctTargets(job, objs) && n <= s.pos <= |objs| && WorkersOk(job, objs, d0, s)
    ensures Overlay(job, d0, s.workers, n) == RestoreAll(LandedJob(job, objs, s.workers), objs[..n], d0).dst
  {
    if n > 0 {
      var landed := LandedJob(job, objs, s.workers);
      LandedIsRestore(job, objs, d0, s, n - 1);
      LandedOnce(job, objs, s.workers, n - 1);
      RestoreNext(landed, objs, d0, n - 1);
      hide LandedJob, RestoreAll;
      assert Attempted(job, d0, objs[n - 1]) <==> n - 1 in s.workers;
    }
  }

  lemma {:induction false} NothingBeyond(job: Job, d0: Bucket, workers: map<nat, Worker>, m: nat, n: nat)
    requires m <= n && forall i :: i in workers ==> i < m
    ensures Overlay(job, d0, workers, n) == Overlay(job, d0, workers, m)
  {
    if m < n { NothingBeyond(job, d0, workers, m, n - 1); }
  }

  /** A run stopped at any moment, its process killed even, and then one complete run leave the destination
      of that complete run alone, under any interleaving of each. */
  lemma ResumesFromAnywhere(
    a: Job, b: Job, cut: Listing, l: Listing, d0: Bucket, run1: seq<State>, k: nat,
    run2: seq<State>, straight: seq<State>)
    requires SameAnswers(a, b) && Env(a, cut) && Env(b, l) && NoCopyFails(b, Visited(l)) && Visited(cut) <= Visited(l)
    requires IsRun(a, cut, d0, run1) && k < |run1|
    requires IsFinishedRun(b, l, run1[k].dst, run2)
    requires IsFinishedRun(b, l, d0, straight)
    ensures run2[|run2| - 1].dst == straight[|straight| - 1].dst
  {
    var objs, seen, s := Visited(l), Visited(cut), run1[k];
    RunInv(a, cut, d0, run1, k);
    assert s.pos <= |seen| && s.dst == Overlay(a, d0, s.workers, |seen|) && WorkersOk(a, seen, d0, s);
    hide Inv, IsRun;
    NothingBeyond(a, d0, s.workers, s.pos, |seen|);
    LandedIsRestore(a, seen, d0, s, s.pos);
    assert seen[..s.pos] == objs[..s.pos];
    RunRefinesSequential(b, l, s.dst, run2);
    RunRefinesSequential(b, l, d0, straight);
    SameDestination(LandedJob(a, seen, s.workers), b, objs, d0, s.pos);
  }
}
