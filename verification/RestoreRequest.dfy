/** A restore request: how listed keys map to destination keys, and how one object is copied. */
module RestoreRequest {
  import opened Options
  import opened RestoreModel

  datatype Caps = Caps(driver: string, serverSideCopy: bool)

  /** What the two drivers would answer to the calls of one object copy. */
  datatype CopyAnswers = CopyAnswers(
    srcCaps: Option<Caps>, dstCaps: Option<Caps>,
    serverSideOk: bool, streamOk: bool, putOk: bool)

  datatype Request = Request(
    srcPrefix: string, dstPrefix: string, overwrite: bool,
    source: string -> string,        // what the snapshot holds under a key
    lister: string -> ListAnswer,    // ListObjects by continuation token
    statFails: string -> bool,       // StatObject errs although the key is present
    answers: string -> CopyAnswers)  // by source key

  function TrimPrefix(s: string, prefix: string): string {
    if prefix <= s then s[|prefix|..] else s
  }

  function TrimTrailingSlash(s: string): string {
    if s != "" && s[|s| - 1] == '/' then s[..|s| - 1] else s
  }

  function Relative(req: Request, o: Obj): string {
    TrimPrefix(o.key, req.srcPrefix)
  }

  function DstKey(req: Request, o: Obj): string {
    var prefix := TrimTrailingSlash(req.dstPrefix);
    if prefix != "" then prefix + "/" + Relative(req, o) else Relative(req, o)
  }

  /** Directory markers and the prefix itself are passed over. */
  predicate Eligible(req: Request, o: Obj) {
    !o.isDir && Relative(req, o) != ""
  }

  // ---- copying one object -------------------------------------------------

  /** copyRestoreObject: server-side copy when both ends share a driver that offers it,
      streaming otherwise and also when the server-side copy fails. */
  predicate CopySucceeds(a: CopyAnswers) {
    if a.srcCaps.None? then false
    else if a.dstCaps.None? then false
    else if a.srcCaps.value.driver == a.dstCaps.value.driver && a.dstCaps.value.serverSideCopy && a.serverSideOk
    then true
    else a.streamOk && a.putOk
  }

  /** The run as its threads see it. */
  function JobOf(req: Request): Job {
    Job(req.overwrite, req.lister,
        o => Eligible(req, o), o => DstKey(req, o), (o: Obj) => req.source(o.key),
        req.statFails, (o: Obj) => CopySucceeds(req.answers(o.key)))
  }

  // ---- distinct targets -----------------------------------------------------

  /** What the drivers promise about a listing: keys carry the prefix and none repeats. */
  ghost predicate WellListed(req: Request, objs: seq<Obj>) {
    && (forall i :: 0 <= i < |objs| ==> req.srcPrefix <= objs[i].key)
    && (forall i, j :: 0 <= i < j < |objs| ==> objs[i].key != objs[j].key)
  }

  lemma DstKeyInjective(req: Request, a: Obj, b: Obj)
    requires req.srcPrefix <= a.key && req.srcPrefix <= b.key
    ensures DstKey(req, a) == DstKey(req, b) <==> a.key == b.key
  {
    assert a.key == req.srcPrefix + Relative(req, a);
    assert b.key == req.srcPrefix + Relative(req, b);
    var p := TrimTrailingSlash(req.dstPrefix) + "/";
    assert (p + Relative(req, a))[|p|..] == Relative(req, a);
    assert (p + Relative(req, b))[|p|..] == Relative(req, b);
  }

  /** Keys of a listing go to different places, so no copy can disturb another one's skip check. */
  lemma TargetsDistinct(req: Request, objs: seq<Obj>)
    requires WellListed(req, objs)
    ensures DistinctTargets(JobOf(req), objs)
  {
    forall i, j | 0 <= i < j < |objs| ensures JobOf(req).target(objs[i]) != JobOf(req).target(objs[j]) {
      DstKeyInjective(req, objs[i], objs[j]);
    }
  }

  /** The prefix promise matters: a listed key outside the prefix can share a target. */
  lemma StrayKeyCollides(req: Request)
    requires req.srcPrefix == "s/" && req.dstPrefix == ""
    ensures DstKey(req, Obj("s/a", 1, false)) == DstKey(req, Obj("a", 1, false))
  {
    assert "s/a"[2..] == "a";
    assert !("s/" <= "a");
  }
}
