/** The scope grammar of service-account grants. */
module Scopes {
  import opened Options

  // ---- strings ------------------------------------------------------------------------

  /** Colon-separated parts; never empty, as strings.Split. */
  function Split(s: string): (parts: seq<string>)
    ensures parts != []
  {
    if s == "" then [""]
    else
      var rest := Split(s[1..]);
      if s[0] == ':' then [""] + rest else [[s[0]] + rest[0]] + rest[1..]
  }

  function Join(parts: seq<string>): string
    requires parts != []
  {
    if |parts| == 1 then parts[0] else parts[0] + ":" + Join(parts[1..])
  }

  ghost predicate ColonFree(s: string) { ':' !in s }

  lemma JoinEmptyFirst(parts: seq<string>)
    requires parts != []
    ensures Join([""] + parts) == ":" + Join(parts)
  {
    assert ([""] + parts)[1..] == parts;
  }

  lemma JoinLonger(ch: char, parts: seq<string>)
    requires parts != []
    ensures Join([[ch] + parts[0]] + parts[1..]) == [ch] + Join(parts)
  {
    var longer := [[ch] + parts[0]] + parts[1..];
    assert longer[1..] == parts[1..];
    if |parts| > 1 {
      assert ([ch] + parts[0]) + ":" + Join(parts[1..]) == [ch] + (parts[0] + ":" + Join(parts[1..]));
    }
  }

  lemma {:induction false} JoinSplit(s: string)
    ensures Join(Split(s)) == s
    ensures forall p :: p in Split(s) ==> ColonFree(p)
  {
    hide Join;
    if s == "" {
      JoinOne("");
    } else {
      JoinSplit(s[1..]);
      var rest := Split(s[1..]);
      assert s == [s[0]] + s[1..];
      if s[0] == ':' {
        JoinEmptyFirst(rest);
      } else {
        JoinLonger(s[0], rest);
        assert rest[0] in rest && forall p :: p in rest[1..] ==> p in rest;
      }
    }
  }

  lemma JoinOne(p: string)
    ensures Join([p]) == p
  {
  }

  /** Splitting stops at the first colon. */
  lemma {:induction false} SplitAfter(p: string, tail: string)
    requires ColonFree(p)
    ensures Split(p + ":" + tail) == [p] + Split(tail)
  {
    if p == "" {
      assert (p + ":" + tail)[1..] == tail;
    } else {
      SplitAfter(p[1..], tail);
      assert (p + ":" + tail)[1..] == p[1..] + ":" + tail;
      assert [p[0]] + p[1..] == p;
    }
  }

  lemma {:induction false} SplitOne(p: string)
    requires ColonFree(p)
    ensures Split(p) == [p]
  {
    if p != "" {
      SplitOne(p[1..]);
      assert [p[0]] + p[1..] == p;
    }
  }

  lemma {:induction false} SplitJoin(parts: seq<string>)
    requires parts != [] && forall p :: p in parts ==> ColonFree(p)
    ensures Split(Join(parts)) == parts
  {
    if |parts| == 1 {
      SplitOne(parts[0]);
    } else {
      SplitJoin(parts[1..]);
      SplitAfter(parts[0], Join(parts[1..]));
    }
  }

  // ---- the grammar ---------------------------------------------------------------------------

  /** A segment "*" is the wildcard of its level. */
  datatype Scope = Host | Cluster(cid: string) | Bucket(cid: string, bid: string) | Key(cid: string, kid: string)

  ghost predicate Segment(s: string) { s != "" && ColonFree(s) }

  ghost predicate WellFormed(sc: Scope) {
    match sc
    case Host => true
    case Cluster(cid) => Segment(cid)
    case Bucket(cid, bid) => Segment(cid) && Segment(bid)
    case Key(cid, kid) => Segment(cid) && Segment(kid)
  }

  function Parts(sc: Scope): (parts: seq<string>)
    ensures parts != []
  {
    match sc
    case Host => ["host", "*"]
    case Cluster(cid) => ["cluster", cid]
    case Bucket(cid, bid) => ["bucket", cid, bid]
    case Key(cid, kid) => ["key", cid, kid]
  }

  function Print(sc: Scope): string { Join(Parts(sc)) }

  function Parse(s: string): Option<Scope> {
    var parts := Split(s);
    if parts == ["host", "*"] then Some(Host)
    else if |parts| == 2 && parts[0] == "cluster" && parts[1] != "" then Some(Cluster(parts[1]))
    else if |parts| == 3 && parts[0] == "bucket" && parts[1] != "" && parts[2] != ""
    then Some(Bucket(parts[1], parts[2]))
    else if |parts| == 3 && parts[0] == "key" && parts[1] != "" && parts[2] != ""
    then Some(Key(parts[1], parts[2]))
    else None
  }

  datatype ScopeError = Required | BadHost | BadCluster | BadShape | EmptySegment | UnknownDomain

  /** validateServiceAccountScope, check by check. */
  method ValidateServiceAccountScope(scope: string) returns (err: Option<ScopeError>)
    ensures err.None? <==> ValidScope(scope)
  {
    ValidIffParses(scope);
    JoinSplit(scope);
    if scope == "" { return Some(Required); }
    var parts := Split(scope);
    if parts[0] == "host" {
      if |parts| != 2 || parts[1] != "*" { return Some(BadHost); }
      return None;
    } else if parts[0] == "cluster" {
      if |parts| != 2 { return Some(BadCluster); }
      if parts[1] == "" { return Some(BadCluster); }
      return None;
    } else if parts[0] == "bucket" || parts[0] == "key" {
      if |parts| != 3 { return Some(BadShape); }
      if parts[1] == "" || parts[2] == "" { return Some(EmptySegment); }
      return None;
    } else {
      return Some(UnknownDomain);
    }
  }

  /** The language the validator should accept: what well-formed scopes print as. */
  ghost predicate ValidScope(s: string) {
    exists sc :: WellFormed(sc) && Print(sc) == s
  }

  /** Parsing undoes printing. */
  lemma ParsePrint(sc: Scope)
    requires WellFormed(sc)
    ensures Parse(Print(sc)) == Some(sc)
  {
    assert ColonFree("host") && ColonFree("cluster") && ColonFree("bucket") && ColonFree("key") && ColonFree("*");
    SplitJoin(Parts(sc));
  }

  /** Printing undoes parsing, and exactly the valid strings parse. */
  lemma ValidIffParses(s: string)
    ensures ValidScope(s) <==> Parse(s).Some?
    ensures Parse(s).Some? ==> WellFormed(Parse(s).value) && Print(Parse(s).value) == s
  {
    JoinSplit(s);
    if Parse(s).Some? {
      var parts := Split(s);
      assert Parts(Parse(s).value) == parts;
      assert forall i :: 0 <= i < |parts| ==> parts[i] in parts;
      assert WellFormed(Parse(s).value) && Print(Parse(s).value) == s;
    } else if sc :| WellFormed(sc) && Print(sc) == s {
      ParsePrint(sc);
    }
  }

  /** Every accepted scope has one reading. */
  lemma OneReading(a: Scope, b: Scope)
    requires WellFormed(a) && WellFormed(b) && Print(a) == Print(b)
    ensures a == b
  {
    ParsePrint(a);
    ParsePrint(b);
  }

  // ---- spelled out ------------------------------------------------------------------------------------

  lemma PrintIs(sc: Scope)
    ensures Print(sc) ==
      match sc
      case Host => "host:*"
      case Cluster(cid) => "cluster:" + cid
      case Bucket(cid, bid) => "bucket:" + cid + ":" + bid
      case Key(cid, kid) => "key:" + cid + ":" + kid
  {
    var parts := Parts(sc);
    match sc
    case Host => assert "host:*" == "host" + ":" + "*";
    case Cluster(cid) =>
      assert parts[1..] == [cid] && Join([cid]) == cid;
      assert "cluster:" + cid == "cluster" + ":" + cid;
    case Bucket(cid, bid) =>
      assert parts[1..] == [cid, bid] && Join([cid, bid]) == cid + ":" + bid by { assert [cid, bid][1..] == [bid]; }
      assert "bucket:" + cid + ":" + bid == "bucket" + ":" + (cid + ":" + bid);
    case Key(cid, kid) =>
      assert parts[1..] == [cid, kid] && Join([cid, kid]) == cid + ":" + kid by { assert [cid, kid][1..] == [kid]; }
      assert "key:" + cid + ":" + kid == "key" + ":" + (cid + ":" + kid);
  }

  /** Which strings are valid scopes; a segment is not empty and holds no colon. */
  ghost predicate Spelled(s: string) {
    || s == "host:*"
    || (exists cid :: Segment(cid) && s == "cluster:" + cid)
    || (exists cid, bid :: Segment(cid) && Segment(bid) && s == "bucket:" + cid + ":" + bid)
    || (exists cid, kid :: Segment(cid) && Segment(kid) && s == "key:" + cid + ":" + kid)
  }

  lemma ValidIffSpelled(s: string)
    ensures ValidScope(s) <==> Spelled(s)
  {
    forall sc { PrintIs(sc); }
    hide Print;
    if Spelled(s) {
      if s == "host:*" {
        assert WellFormed(Host) && Print(Host) == s;
      } else if cid :| Segment(cid) && s == "cluster:" + cid {
        assert WellFormed(Cluster(cid)) && Print(Cluster(cid)) == s;
      } else if cid, bid :| Segment(cid) && Segment(bid) && s == "bucket:" + cid + ":" + bid {
        assert WellFormed(Bucket(cid, bid)) && Print(Bucket(cid, bid)) == s;
      } else {
        var cid, kid :| Segment(cid) && Segment(kid) && s == "key:" + cid + ":" + kid;
        assert WellFormed(Key(cid, kid)) && Print(Key(cid, kid)) == s;
      }
    }
  }

  // ---- the documented forms -----------------------------------------------------------------------

  /** An identifier, as opposed to the wildcard. */
  ghost predicate Id(s: string) { Segment(s) && s != "*" }

  /** The forms the documentation lists: a bucket or key belongs to a named cluster. */
  ghost predicate Documented(s: string) {
    || s == "host:*"
    || s == "cluster:*"
    || (exists cid :: Id(cid) && s == "cluster:" + cid)
    || (exists cid, bid :: Id(cid) && (Id(bid) || bid == "*") && s == "bucket:" + cid + ":" + bid)
    || (exists cid, kid :: Id(cid) && (Id(kid) || kid == "*") && s == "key:" + cid + ":" + kid)
  }

  predicate AnyClusters(sc: Scope) {
    (sc.Bucket? || sc.Key?) && sc.cid == "*"
  }

  /** The validator accepts every documented form, and beyond them exactly the bucket and key scopes whose
      cluster is the wildcard. */
  lemma DocumentedIff(sc: Scope)
    requires WellFormed(sc)
    ensures Documented(Print(sc)) <==> !AnyClusters(sc)
  {
    PrintIs(sc);
    hide Print;
    assert "cluster:" + "*" == "cluster:*";
    if !AnyClusters(sc) {
      match sc
      case Host =>
      case Cluster(cid) => assert cid == "*" || Id(cid);
      case Bucket(cid, bid) => assert Id(cid) && (Id(bid) || bid == "*");
      case Key(cid, kid) => assert Id(cid) && (Id(kid) || kid == "*");
    } else if Documented(Print(sc)) {
      var other := DocumentedSource(Print(sc));
      OneReading(other, sc);
    }
  }

  lemma DocumentedSource(s: string) returns (sc: Scope)
    requires Documented(s)
    ensures WellFormed(sc) && !AnyClusters(sc) && Print(sc) == s
  {
    assert Segment("*") && "cluster:" + "*" == "cluster:*";
    if s == "host:*" {
      sc := Host;
    } else if s == "cluster:*" {
      sc := Cluster("*");
    } else if cid :| Id(cid) && s == "cluster:" + cid {
      sc := Cluster(cid);
    } else if cid, bid :| Id(cid) && (Id(bid) || bid == "*") && s == "bucket:" + cid + ":" + bid {
      sc := Bucket(cid, bid);
    } else {
      var cid, kid :| Id(cid) && (Id(kid) || kid == "*") && s == "key:" + cid + ":" + kid;
      sc := Key(cid, kid);
    }
    PrintIs(sc);
  }

  /** Every documented form is accepted. */
  lemma DocumentedIsValid(s: string)
    requires Documented(s)
    ensures ValidScope(s)
  {
    var sc := DocumentedSource(s);
  }

  /** Such a scope: one bucket name in every cluster. */
  lemma UndocumentedAccepted()
    ensures ValidScope("bucket:*:photos") && !Documented("bucket:*:photos")
  {
    var sc := Bucket("*", "photos");
    PrintIs(sc);
    assert Segment("*") && Segment("photos");
    DocumentedIff(sc);
  }
}
