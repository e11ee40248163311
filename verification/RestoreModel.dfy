/** The data of one snapshot restore and its sequential meaning: what a loop that
    handled the listed objects one at a time, with no goroutines, would leave behind. */
module RestoreModel {
  import opened Options

  /** One entry of a listing page. */
  datatype Obj = Obj(key: string, size: nat, isDir: bool)

  /** What ListObjects answers for one continuation token. */
  datatype ListAnswer =
    | ListFailed
    | Page(objects: seq<Obj>, truncated: bool, next: string)

  type Bucket = map<string, string>

  /** One call of copyRestoreTree as its threads see it: where each object goes, and everything
      the drivers will answer. A key is statted and copied at most once a run, so fixing the
      answers beforehand loses no behaviour. */
  datatype Job = Job(
    overwrite: bool,
    lister: string -> ListAnswer,  // ListObjects by continuation token
    eligible: Obj -> bool,         // neither a directory nor the prefix itself
    target: Obj -> string,         // destination key
    content: Obj -> string,        // what the snapshot holds
    statFails: string -> bool,     // StatObject errs although the key is present
    copyOk: Obj -> bool)           // copyRestoreObject returns nil

  const RESTORE_CONCURRENCY: nat := 4
  const ERROR_CAP: nat := 10

  /** The skip-existing check: StatObject succeeded on the destination key. */
  predicate Skips(job: Job, dst: Bucket, o: Obj) {
    !job.overwrite && job.target(o) in dst && !job.statFails(job.target(o))
  }

  // ---- listings -----------------------------------------------------------

  /** The chain of answers the continuation loop will see. `Broken` ends in a ListObjects error. */
  datatype Listing = End | Broken | Chunk(objects: seq<Obj>, truncated: bool, rest: Listing)

  function NextToken(truncated: bool, next: string): Option<string> {
    if !truncated || next == "" then None else Some(next)
  }

  /** `l` is what the lister serves from token `cont` on; None means the loop has ended. */
  predicate Serves(job: Job, cont: Option<string>, l: Listing)
    decreases l
  {
    match cont
    case None => l == End
    case Some(token) =>
      match job.lister(token)
      case ListFailed => l == Broken
      case Page(objects, truncated, next) =>
        l.Chunk? && l.objects == objects && l.truncated == truncated &&
        Serves(job, NextToken(truncated, next), l.rest)
  }

  function Visited(l: Listing): seq<Obj> {
    if l.Chunk? then l.objects + Visited(l.rest) else []
  }

  predicate ListingFails(l: Listing) {
    if l.Chunk? then ListingFails(l.rest) else l.Broken?
  }

  /** The last page said it was truncated but carried no token: the loop stops early. */
  predicate CutShort(l: Listing) {
    l.Chunk? && ((l.truncated && l.rest.End?) || CutShort(l.rest))
  }

  function Pages(l: Listing): nat {
    if l.Chunk? then 1 + Pages(l.rest) else 0
  }

  // ---- the sequential restore ----------------------------------------------

  datatype Summary = Summary(dst: Bucket, copied: nat, skipped: nat, bytes: nat, failed: nat)

  /** The reference: objects handled in listing order, each stat against the current destination. */
  function RestoreOne(job: Job, r: Summary, o: Obj): Summary {
    if !job.eligible(o) then r
    else if Skips(job, r.dst, o) then r.(skipped := r.skipped + 1)
    else if !job.copyOk(o) then r.(failed := r.failed + 1)
    else r.(dst := r.dst[job.target(o) := job.content(o)], copied := r.copied + 1, bytes := r.bytes + o.size)
  }

  function RestoreAll(job: Job, objs: seq<Obj>, dst: Bucket): Summary {
    if objs == [] then Summary(dst, 0, 0, 0, 0)
    else RestoreOne(job, RestoreAll(job, objs[..|objs| - 1], dst), objs[|objs| - 1])
  }

  function EligibleCount(job: Job, objs: seq<Obj>): nat {
    if objs == [] then 0
    else EligibleCount(job, objs[..|objs| - 1]) + if job.eligible(objs[|objs| - 1]) then 1 else 0
  }

  ghost predicate DistinctTargets(job: Job, objs: seq<Obj>) {
    forall i, j :: 0 <= i < j < |objs| ==> job.target(objs[i]) != job.target(objs[j])
  }

  // ---- what happens to each object --------------------------------------------

  datatype Fate = Ignored | Skipped | Copied | Failed

  /** The fate of an object, read off the destination as it was before the run. */
  function FateOf(job: Job, dst0: Bucket, o: Obj): Fate {
    if !job.eligible(o) then Ignored
    else if Skips(job, dst0, o) then Skipped
    else if job.copyOk(o) then Copied else Failed
  }

  /** Pointwise meaning of the sequential restore: a key ends up with snapshot content exactly when
      an object targeting it was copied, and every other key is untouched. */
  lemma {:induction false} RestoreAllMeaning(job: Job, objs: seq<Obj>, dst0: Bucket, k: string)
    requires DistinctTargets(job, objs)
    ensures var d := RestoreAll(job, objs, dst0).dst;
      && (forall i :: 0 <= i < |objs| && job.target(objs[i]) == k && FateOf(job, dst0, objs[i]).Copied?
            ==> k in d && d[k] == job.content(objs[i]))
      && ((forall i :: 0 <= i < |objs| && job.target(objs[i]) == k ==> !FateOf(job, dst0, objs[i]).Copied?)
            ==> (k in d <==> k in dst0) && (k in d ==> d[k] == dst0[k]))
  {
    if objs != [] {
      var n := |objs| - 1;
      var o := objs[n];
      var target := job.target(o);
      RestoreAllMeaning(job, objs[..n], dst0, k);
      RestoreAllMeaning(job, objs[..n], dst0, target);
      assert forall i :: 0 <= i < n ==> objs[..n][i] == objs[i];
    }
  }

  /** Each skip decision could have been taken before the run started: no write of the run
      touches the target of a later object. */
  lemma FateStable(job: Job, objs: seq<Obj>, dst0: Bucket, n: nat)
    requires n < |objs| && DistinctTargets(job, objs)
    ensures Skips(job, RestoreAll(job, objs[..n], dst0).dst, objs[n]) == Skips(job, dst0, objs[n])
  {
    assert DistinctTargets(job, objs[..n]);
    RestoreAllMeaning(job, objs[..n], dst0, job.target(objs[n]));
  }

  function FateCount(job: Job, dst0: Bucket, objs: seq<Obj>, fate: Fate): nat {
    if objs == [] then 0
    else FateCount(job, dst0, objs[..|objs| - 1], fate) + if FateOf(job, dst0, objs[|objs| - 1]) == fate then 1 else 0
  }

  function CopiedBytes(job: Job, dst0: Bucket, objs: seq<Obj>): nat {
    if objs == [] then 0
    else
      var o := objs[|objs| - 1];
      CopiedBytes(job, dst0, objs[..|objs| - 1]) + if FateOf(job, dst0, o).Copied? then o.size else 0
  }

  /** Every eligible object is copied, skipped or failed, and counted once. */
  lemma {:induction false} Conservation(job: Job, objs: seq<Obj>, dst: Bucket)
    ensures var r := RestoreAll(job, objs, dst);
      r.copied + r.skipped + r.failed == EligibleCount(job, objs)
  {
    if objs != [] {
      Conservation(job, objs[..|objs| - 1], dst);
    }
  }

  /** The counters count fates, bytes is the sum of the sizes of the copied objects, and together
      they account for every eligible object. */
  lemma {:induction false} FateTotals(job: Job, objs: seq<Obj>, dst0: Bucket)
    requires DistinctTargets(job, objs)
    ensures var r := RestoreAll(job, objs, dst0);
      && r.copied == FateCount(job, dst0, objs, Copied)
      && r.skipped == FateCount(job, dst0, objs, Skipped)
      && r.failed == FateCount(job, dst0, objs, Failed)
      && r.bytes == CopiedBytes(job, dst0, objs)
      && r.copied + r.skipped + r.failed == EligibleCount(job, objs)
  {
    Conservation(job, objs, dst0);
    if objs != [] {
      FateTotals(job, objs[..|objs| - 1], dst0);
      FateStable(job, objs, dst0, |objs| - 1);
    }
  }
}
