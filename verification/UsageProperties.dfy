/** What a right overview tells its reader, and what it cannot depend on. */
module UsageProperties {
  import opened Bags
  import opened Sorting
  import opened Usage
  import RoleMenu

  // ---- one row per connection ---------------------------------------------------------------

  /** The table lists every connection, failed ones included, as often as it is connected. */
  lemma OneRowPerConnection(conns: seq<Connection>, answer: Connection -> ClusterAnswer, o: Overview)
    requires IsOverview(conns, answer, o)
    ensures |o.rows| == |conns| && multiset(Map(RowID, o.rows)) == multiset(Map(ConnID, conns))
  {
    var rows := Map(RowOf, Results(conns, answer));
    assert |o.rows| == |multiset(o.rows)| == |multiset(rows)|;
    MapPermutation(RowID, o.rows, rows);
    assert Map(RowID, rows) == Map(ConnID, conns);
  }

  // ---- totals -------------------------------------------------------------------------------------

  function HealthyOnly(rows: seq<Row>): seq<Row> {
    if rows == [] then []
    else (if rows[0].healthy then [rows[0]] else []) + HealthyOnly(rows[1..])
  }

  lemma {:induction false} HealthySum(key: Row -> int, rows: seq<Row>)
    requires forall r :: r in rows && !r.healthy ==> key(r) == 0
    ensures Sum(key, HealthyOnly(rows)) == Sum(key, rows)
  {
    if rows != [] {
      HealthySum(key, rows[1..]);
      SumConcat(key, if rows[0].healthy then [rows[0]] else [], HealthyOnly(rows[1..]));
    }
  }

  /** Totals are sums over the table, in whatever order its rows stand. */
  ghost predicate TotalsMatch(t: Totals, rows: seq<Row>) {
    && t.buckets == Sum(RowBuckets, rows) && t.keys == Sum(RowKeys, rows)
    && t.bytes == Wrap64(Sum(RowBytes, rows)) && t.objects == Wrap64(Sum(RowObjects, rows))
  }

  lemma {:induction false} TotalsMatchResults(clusters: int, results: seq<ClusterResult>)
    ensures TotalsMatch(TotalsOf(clusters, results), Map(RowOf, results))
  {
    hide Wrap64, RowOf;
    if results == [] {
      WrapZero();
    } else {
      var n, rows := |results| - 1, Map(RowOf, results);
      var front := results[..n];
      TotalsMatchResults(clusters, front);
      TotalsNext(clusters, results, n);
      assert results[..n + 1] == results && rows[..n + 1] == rows && rows[..n] == Map(RowOf, front);
      SumNext(RowBuckets, rows, n);
      SumNext(RowKeys, rows, n);
      SumNext(RowBytes, rows, n);
      SumNext(RowObjects, rows, n);
      WrapAdd(Sum(RowBytes, rows[..n]), rows[n].bytes);
      WrapAdd(Sum(RowObjects, rows[..n]), rows[n].objects);
    }
  }

  /** The totals are the sums over the healthy rows; a failed cluster's row is all zeros. */
  lemma TotalsAreHealthySums(conns: seq<Connection>, answer: Connection -> ClusterAnswer, o: Overview)
    requires IsOverview(conns, answer, o)
    ensures o.totals.clusters == |conns|
    ensures TotalsMatch(o.totals, HealthyOnly(o.rows))
    ensures forall r :: r in o.rows && !r.healthy ==> r.bytes == r.objects == r.buckets == r.keys == 0
  {
    var results := Results(conns, answer);
    var rows := Map(RowOf, results);
    forall r | r in o.rows && !r.healthy ensures r.bytes == r.objects == r.buckets == r.keys == 0 {
      assert r in multiset(rows);
      var i :| 0 <= i < |results| && RowOf(results[i]) == r;
    }
    TotalsMatchResults(|conns|, results);
    SumPermutation(RowBuckets, o.rows, rows);
    SumPermutation(RowKeys, o.rows, rows);
    SumPermutation(RowBytes, o.rows, rows);
    SumPermutation(RowObjects, o.rows, rows);
    HealthySum(RowBuckets, o.rows);
    HealthySum(RowKeys, o.rows);
    HealthySum(RowBytes, o.rows);
    HealthySum(RowObjects, o.rows);
  }

  // ---- what completion order and tie-breaks cannot change -----------------------------------------------

  /** Two refreshes over the same clusters agree on everything but how ties were broken. */
  lemma OrderIndependent(conns: seq<Connection>, answer: Connection -> ClusterAnswer, o1: Overview, o2: Overview)
    requires IsOverview(conns, answer, o1) && IsOverview(conns, answer, o2)
    ensures o1.totals == o2.totals
    ensures multiset(o1.rows) == multiset(o2.rows) && Map(RowCaption, o1.rows) == Map(RowCaption, o2.rows)
    ensures Map(Bytes, o1.byBytes) == Map(Bytes, o2.byBytes)
    ensures Map(Objects, o1.byObjects) == Map(Objects, o2.byObjects)
  {
    var all := multiset(Flat(TopsOf, Results(conns, answer)));
    TopValuesUnique(all, TOP_N, Bytes, o1.byBytes, o2.byBytes);
    TopValuesUnique(all, TOP_N, Objects, o1.byObjects, o2.byObjects);
    MapPermutation(RowCaption, o1.rows, o2.rows);
    RowLessIsStrictWeak();
    CaptionsUnique(Map(RowCaption, o1.rows), Map(RowCaption, o2.rows));
  }

  lemma CaptionsUnique(a: seq<string>, b: seq<string>)
    requires multiset(a) == multiset(b) && Sorted(a, Before) && Sorted(b, Before)
    ensures a == b
  {
    forall x, y | Before(x, y) ensures !Before(y, x) { BeforeAsymmetric(x, y); }
    forall x, y, z | Before(x, z) ensures Before(x, y) || Before(y, z) { BeforeCotransitive(x, y, z); }
    forall x, y | !Before(x, y) && !Before(y, x) ensures x == y { BeforeTotal(x, y); }
    SortedUnique(a, b, Before);
  }

  /** No two different rows share a label. */
  predicate LabelsTellApart(rows: seq<Row>) {
    forall r, s :: r in rows && s in rows && r.caption == s.caption ==> r == s
  }

  /** Swapping two rows with one label gives another right table. */
  lemma SwapStaysRight(rows: seq<Row>, p: nat, q: nat)
    requires p < q < |rows| && rows[p].caption == rows[q].caption && Sorted(rows, RowLess)
    ensures var swapped := rows[p := rows[q]][q := rows[p]];
      multiset(swapped) == multiset(rows) && Sorted(swapped, RowLess)
  {
    var swapped := rows[p := rows[q]][q := rows[p]];
    assert forall i :: 0 <= i < |rows| ==> swapped[i].caption == rows[i].caption;
  }

  lemma ToldApartIsOnly(a: seq<Row>, b: seq<Row>)
    requires LabelsTellApart(a) && multiset(a) == multiset(b) && Sorted(a, RowLess) && Sorted(b, RowLess)
    ensures a == b
  {
    RowLessIsStrictWeak();
    forall r, s | r in a && s in a && !RowLess(r, s) && !RowLess(s, r) ensures r == s {
      BeforeTotal(r.caption, s.caption);
    }
    SortedUnique(a, b, RowLess);
  }

  lemma AnotherTable(conns: seq<Connection>, answer: Connection -> ClusterAnswer, o: Overview) returns (o2: Overview)
    requires IsOverview(conns, answer, o) && !LabelsTellApart(o.rows)
    ensures IsOverview(conns, answer, o2) && o2.rows != o.rows
  {
    hide IsTop, TotalsOf, RowOf;
    var p, q :| 0 <= p < |o.rows| && 0 <= q < |o.rows|
                && o.rows[p].caption == o.rows[q].caption && o.rows[p] != o.rows[q];
    if q < p { p, q := q, p; }
    SwapStaysRight(o.rows, p, q);
    o2 := o.(rows := o.rows[p := o.rows[q]][q := o.rows[p]]);
    assert o2.rows[p] != o.rows[p];
  }

  /** A table is the only right one exactly when the labels tell its rows apart. */
  lemma OnlyTableIff(conns: seq<Connection>, answer: Connection -> ClusterAnswer, o: Overview)
    requires IsOverview(conns, answer, o)
    ensures LabelsTellApart(o.rows) <==> forall o2 :: IsOverview(conns, answer, o2) ==> o2.rows == o.rows
  {
    hide IsTop, TotalsOf, RowOf, LabelsTellApart;
    if LabelsTellApart(o.rows) {
      forall o2 | IsOverview(conns, answer, o2) ensures o2.rows == o.rows {
        ToldApartIsOnly(o.rows, o2.rows);
      }
    } else {
      var o2 := AnotherTable(conns, answer, o);
    }
  }

  ghost predicate DistinctIDs(conns: seq<Connection>) {
    forall i, j :: 0 <= i < j < |conns| ==> conns[i].id != conns[j].id
  }

  ghost predicate DistinctLabels(conns: seq<Connection>) {
    forall i, j :: 0 <= i < j < |conns| ==> conns[i].caption != conns[j].caption
  }

  /** Rows are told apart by their labels exactly when the connections are. */
  lemma LabelsOfTable(conns: seq<Connection>, rows: seq<Row>)
    requires DistinctIDs(conns) && |rows| == |conns|
    requires forall i :: 0 <= i < |conns| ==> rows[i].id == conns[i].id && rows[i].caption == conns[i].caption
    ensures LabelsTellApart(rows) <==> DistinctLabels(conns)
  {
    if LabelsTellApart(rows) {
      forall i, j | 0 <= i < j < |conns| ensures conns[i].caption != conns[j].caption {
        assert rows[i] in rows && rows[j] in rows;
      }
    }
  }

  lemma ReorderedLabels(a: seq<Row>, b: seq<Row>)
    requires multiset(a) == multiset(b)
    ensures LabelsTellApart(a) <==> LabelsTellApart(b)
  {
    forall r ensures r in a <==> r in b {
      assert r in multiset(a) <==> r in multiset(b);
    }
  }

  lemma LabelsOfRows(conns: seq<Connection>, answer: Connection -> ClusterAnswer, o: Overview)
    requires IsOverview(conns, answer, o) && DistinctIDs(conns)
    ensures LabelsTellApart(o.rows) <==> DistinctLabels(conns)
  {
    hide IsTop, TotalsOf, LabelsTellApart, DistinctLabels, DistinctIDs;
    var rows := Map(RowOf, Results(conns, answer));
    LabelsOfTable(conns, rows);
    ReorderedLabels(o.rows, rows);
  }

  /** There always is a right overview. */
  lemma OverviewExists(conns: seq<Connection>, answer: Connection -> ClusterAnswer) returns (o: Overview)
    ensures IsOverview(conns, answer, o)
  {
    hide RowOf, TotalsOf, IsTop;
    var results := Results(conns, answer);
    RowLessIsStrictWeak();
    var rows := SortedExists(Map(RowOf, results), RowLess);
    var byBytes := TopExists(Flat(TopsOf, results), Bytes);
    var byObjects := TopExists(Flat(TopsOf, results), Objects);
    o := Overview(TotalsOf(|conns|, results), rows, byBytes, byObjects);
  }

  lemma TopExists(all: seq<TopBucket>, key: TopBucket -> int) returns (top: seq<TopBucket>)
    ensures IsTop(multiset(all), TOP_N, key, top)
  {
    var ranking := SortedExists(all, (x, y) => key(x) > key(y));
    assert Ranked(ranking, key);
    TruncatedIsTop(multiset(all), TOP_N, key, ranking);
    top := if |ranking| > TOP_N then ranking[..TOP_N] else ranking;
  }

  /** The table renders the same on every refresh if and only if no two connections share a label. */
  lemma TableStableIff(conns: seq<Connection>, answer: Connection -> ClusterAnswer)
    requires DistinctIDs(conns)
    ensures DistinctLabels(conns) <==>
      forall o1, o2 :: IsOverview(conns, answer, o1) && IsOverview(conns, answer, o2) ==> o1.rows == o2.rows
  {
    hide IsOverview, DistinctIDs, DistinctLabels;
    if DistinctLabels(conns) {
      forall o1, o2 | IsOverview(conns, answer, o1) && IsOverview(conns, answer, o2) ensures o1.rows == o2.rows {
        LabelsOfRows(conns, answer, o1);
        OnlyTableIff(conns, answer, o1);
      }
    } else {
      var o := OverviewExists(conns, answer);
      LabelsOfRows(conns, answer, o);
      OnlyTableIff(conns, answer, o);
    }
  }

  /** Two clusters under one label: two right tables that differ. */
  lemma OneLabelTwoTables(answer: Connection -> ClusterAnswer)
    returns (conns: seq<Connection>, o1: Overview, o2: Overview)
    ensures conns == [RoleMenu.Connection("c1", "store"), RoleMenu.Connection("c2", "store")]
    ensures IsOverview(conns, answer, o1) && IsOverview(conns, answer, o2) && o1.rows != o2.rows
  {
    conns := [RoleMenu.Connection("c1", "store"), RoleMenu.Connection("c2", "store")];
    assert !DistinctLabels(conns) by { assert conns[0].caption == conns[1].caption; }
    TableStableIff(conns, answer);
    hide IsOverview;
    o1, o2 :| IsOverview(conns, answer, o1) && IsOverview(conns, answer, o2) && o1.rows != o2.rows;
  }

  // ---- what the page shows, spelled out on the answers ----------------------------------------------

  /** The 64-bit value of a sum. */
  ghost predicate WrapsTo(x: int, w: int) {
    && -0x8000_0000_0000_0000 <= w < 0x8000_0000_0000_0000
    && exists k: int :: w == x + k * 0x1_0000_0000_0000_0000
  }

  lemma WrapIs(x: int)
    ensures WrapsTo(x, Wrap64(x))
    ensures -0x8000_0000_0000_0000 <= x < 0x8000_0000_0000_0000 ==> Wrap64(x) == x
  {
    var k := (x + 0x8000_0000_0000_0000) / 0x1_0000_0000_0000_0000;
    assert Wrap64(x) == x + -k * 0x1_0000_0000_0000_0000;
  }

  /** The row of a connection given what its cluster answered: healthy if and only if its buckets were listed,
      and then with their number, their summed bytes and objects and the keys, or none if those failed to list;
      else all zeros and the failure's text. */
  ghost predicate ShowsAnswer(r: Row, conn: Connection, a: ClusterAnswer) {
    && r.id == conn.id && r.caption == conn.caption
    && (r.healthy <==> a.Listed?)
    && (!a.Listed? ==> r.buckets == r.keys == r.bytes == r.objects == 0)
    && (a.NoDriver? ==> r.error == "building driver: " + a.error)
    && (a.NoBuckets? ==> r.error == "listing buckets: " + a.error)
    && (a.Listed? ==>
          && r.error == "" && r.buckets == |a.buckets|
          && r.keys == (if a.keys.None? then 0 else a.keys.value)
          && WrapsTo(Sum((b: Bucket) => b.bytes, a.buckets), r.bytes)
          && WrapsTo(Sum((b: Bucket) => b.objects, a.buckets), r.objects))
  }

  lemma {:induction false} SumSame<T>(f: T -> int, g: T -> int, s: seq<T>)
    requires forall x :: x in s ==> f(x) == g(x)
    ensures Sum(f, s) == Sum(g, s)
  {
    if s != [] { SumSame(f, g, s[1..]); }
  }

  lemma RowShows(conn: Connection, a: ClusterAnswer)
    ensures ShowsAnswer(RowOf(Queried(conn, a)), conn, a)
  {
    if a.Listed? {
      SumSame(BucketBytes, (b: Bucket) => b.bytes, a.buckets);
      SumSame(BucketObjects, (b: Bucket) => b.objects, a.buckets);
      WrapIs(Sum(BucketBytes, a.buckets));
      WrapIs(Sum(BucketObjects, a.buckets));
    }
    hide Wrap64, WrapsTo, Sum;
  }

  /** Every connection has its row, and every row is a connection's. */
  lemma RowsShowAnswers(conns: seq<Connection>, answer: Connection -> ClusterAnswer, o: Overview)
    requires IsOverview(conns, answer, o)
    ensures forall conn :: conn in conns ==> exists r :: r in o.rows && ShowsAnswer(r, conn, answer(conn))
    ensures forall r :: r in o.rows ==> exists conn :: conn in conns && ShowsAnswer(r, conn, answer(conn))
  {
    var results := Results(conns, answer);
    var rows := Map(RowOf, results);
    assert forall i :: 0 <= i < |conns| ==> rows[i] == RowOf(Queried(conns[i], answer(conns[i])));
    assert multiset(rows) == multiset(o.rows);
    hide IsOverview, ShowsAnswer, Queried, RowOf;
    forall conn | conn in conns ensures exists r :: r in o.rows && ShowsAnswer(r, conn, answer(conn)) {
      var i :| 0 <= i < |conns| && conns[i] == conn;
      RowShows(conn, answer(conn));
      assert rows[i] in multiset(rows);
    }
    forall r | r in o.rows ensures exists conn :: conn in conns && ShowsAnswer(r, conn, answer(conn)) {
      assert r in multiset(rows);
      var i :| 0 <= i < |conns| && rows[i] == r;
      RowShows(conns[i], answer(conns[i]));
    }
  }

  /** An entry of a top list names a bucket and its cluster, under the bucket's first alias if it has one. */
  ghost predicate ShowsBucket(t: TopBucket, conn: Connection, b: Bucket) {
    && t.clusterID == conn.id && t.clusterCaption == conn.caption && t.bucketID == b.id
    && t.bytes == b.bytes && t.objects == b.objects
    && (b.aliases == [] ==> t.bucketAlias == "") && (b.aliases != [] ==> t.bucketAlias == b.aliases[0])
  }

  ghost predicate ListedAt(answer: Connection -> ClusterAnswer, conn: Connection, b: Bucket) {
    answer(conn).Listed? && b in answer(conn).buckets
  }

  /** All the buckets that can be shown are those listed. */
  lemma Candidates(conns: seq<Connection>, answer: Connection -> ClusterAnswer, t: TopBucket)
    ensures t in Flat(TopsOf, Results(conns, answer)) <==>
      exists conn, b :: conn in conns && ListedAt(answer, conn, b) && ShowsBucket(t, conn, b)
  {
    var results := Results(conns, answer);
    FlatElements(TopsOf, results, t);
    hide Flat;
    if i :| 0 <= i < |results| && t in TopsOf(results[i]) {
      var buckets := answer(conns[i]).buckets;
      var k :| 0 <= k < |buckets| && TopOf(conns[i], buckets[k]) == t;
      assert ListedAt(answer, conns[i], buckets[k]) && ShowsBucket(t, conns[i], buckets[k]);
    }
    if conn, b :| conn in conns && ListedAt(answer, conn, b) && ShowsBucket(t, conn, b) {
      var i :| 0 <= i < |conns| && conns[i] == conn;
      var k :| 0 <= k < |answer(conn).buckets| && answer(conn).buckets[k] == b;
      assert TopsOf(results[i])[k] == TopOf(conn, b) == t;
    }
  }

  /** The top list by a measure, on the answers: at most ten entries, each a listed bucket, largest first; and
      every listed bucket is on it or is no larger than any of its ten. */
  ghost predicate Largest(
    conns: seq<Connection>, answer: Connection -> ClusterAnswer, top: seq<TopBucket>, key: TopBucket -> int)
  {
    && |top| <= 10
    && (forall t :: t in top ==>
          exists conn, b :: conn in conns && ListedAt(answer, conn, b) && ShowsBucket(t, conn, b))
    && (forall i, j :: 0 <= i < j < |top| ==> key(top[i]) >= key(top[j]))
    && (forall conn, b, t :: conn in conns && ListedAt(answer, conn, b) && ShowsBucket(t, conn, b) ==>
          t in top || (|top| == 10 && forall u :: u in top ==> key(t) <= key(u)))
  }

  lemma TopIsLargest(
    conns: seq<Connection>, answer: Connection -> ClusterAnswer, top: seq<TopBucket>, key: TopBucket -> int)
    requires IsTop(multiset(Flat(TopsOf, Results(conns, answer))), TOP_N, key, top)
    ensures Largest(conns, answer, top, key)
  {
    var all := Flat(TopsOf, Results(conns, answer));
    assert |multiset(all)| == |all|;
    forall t { Candidates(conns, answer, t); }
    forall t | t in top ensures t in all { assert t in multiset(top); }
    forall t | t in all && t !in top ensures |top| == 10 && forall u :: u in top ==> key(t) <= key(u) {
      assert t in multiset(all);
      TopCovers(multiset(all), 10, key, top, t);
    }
    assert |top| <= 10 && Ranked(top, key);
    hide IsTop, ShowsBucket, ListedAt, Flat, TopsOf;
  }

  /** Both top lists. */
  lemma TopsShowLargest(conns: seq<Connection>, answer: Connection -> ClusterAnswer, o: Overview)
    requires IsOverview(conns, answer, o)
    ensures Largest(conns, answer, o.byBytes, (t: TopBucket) => t.bytes)
    ensures Largest(conns, answer, o.byObjects, (t: TopBucket) => t.objects)
  {
    TopIsLargest(conns, answer, o.byBytes, Bytes);
    TopIsLargest(conns, answer, o.byObjects, Objects);
  }
}
