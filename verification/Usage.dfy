/** The storage overview: a fan-out over the connected clusters whose results arrive in any order, then
    totals, a table sorted by label, and two top-ten lists. */
module Usage {
  import opened Options
  import opened Bags
  import opened Sorting
  import RoleMenu

  type Connection = RoleMenu.Connection

  const TOP_N := 10

  /** Sizes and sums are 64-bit; a sum that leaves the range wraps. */
  function Wrap64(x: int): int {
    (x + 0x8000_0000_0000_0000) % 0x1_0000_0000_0000_0000 - 0x8000_0000_0000_0000
  }

  datatype Bucket = Bucket(id: string, aliases: seq<string>, bytes: int, objects: int)

  /** What one cluster does when asked; a deadline is one more way to fail. */
  datatype ClusterAnswer =
    | NoDriver(error: string)
    | NoBuckets(error: string)
    | Listed(buckets: seq<Bucket>, keys: Option<nat>)

  datatype ClusterResult =
    | Failed(conn: Connection, error: string)
    | Answered(conn: Connection, buckets: seq<Bucket>, keyCt: nat)

  datatype Row = Row(
    id: string, caption: string, bytes: int, objects: int, buckets: int, keys: int, healthy: bool, error: string)

  datatype TopBucket = TopBucket(
    clusterID: string, clusterCaption: string, bucketID: string, bucketAlias: string, bytes: int, objects: int)

  datatype Totals = Totals(clusters: int, buckets: int, keys: int, bytes: int, objects: int)

  datatype Overview = Overview(totals: Totals, rows: seq<Row>, byBytes: seq<TopBucket>, byObjects: seq<TopBucket>)

  // ---- what each cluster contributes ----------------------------------------------------------

  function ConnID(c: Connection): string { c.id }
  function RowID(r: Row): string { r.id }
  function RowCaption(r: Row): string { r.caption }
  function RowBytes(r: Row): int { r.bytes }
  function RowObjects(r: Row): int { r.objects }
  function RowBuckets(r: Row): int { r.buckets }
  function RowKeys(r: Row): int { r.keys }
  function BucketBytes(b: Bucket): int { b.bytes }
  function BucketObjects(b: Bucket): int { b.objects }
  function Bytes(t: TopBucket): int { t.bytes }
  function Objects(t: TopBucket): int { t.objects }

  predicate RowLess(a: Row, b: Row) { Before(a.caption, b.caption) }

  /** One goroutine: a failing key listing only costs the key count. */
  function Queried(conn: Connection, a: ClusterAnswer): ClusterResult {
    match a
    case NoDriver(error) => Failed(conn, "building driver: " + error)
    case NoBuckets(error) => Failed(conn, "listing buckets: " + error)
    case Listed(buckets, keys) => Answered(conn, buckets, if keys.Some? then keys.value else 0)
  }

  function RowOf(r: ClusterResult): Row {
    match r
    case Failed(conn, error) => Row(conn.id, conn.caption, 0, 0, 0, 0, false, error)
    case Answered(conn, buckets, keyCt) =>
      Row(conn.id, conn.caption, Wrap64(Sum(BucketBytes, buckets)), Wrap64(Sum(BucketObjects, buckets)),
          |buckets|, keyCt, true, "")
  }

  function TopOf(conn: Connection, b: Bucket): TopBucket {
    TopBucket(conn.id, conn.caption, b.id, if b.aliases != [] then b.aliases[0] else "", b.bytes, b.objects)
  }

  function TopsOf(r: ClusterResult): seq<TopBucket> {
    match r
    case Failed(_, _) => []
    case Answered(conn, buckets, _) => Map(b => TopOf(conn, b), buckets)
  }

  function KeysOf(r: ClusterResult): int {
    if r.Answered? then r.keyCt else 0
  }

  /** The results in the order of the connections, which is one order among many. */
  function Results(conns: seq<Connection>, answer: Connection -> ClusterAnswer): seq<ClusterResult> {
    Map(c => Queried(c, answer(c)), conns)
  }

  // ---- what the page should say --------------------------------------------------------------------

  function TotalsOf(clusters: int, results: seq<ClusterResult>): Totals {
    var all := Flat(TopsOf, results);
    Totals(clusters, |all|, Sum(KeysOf, results), Wrap64(Sum(Bytes, all)), Wrap64(Sum(Objects, all)))
  }

  /** The promised overview, stated on the connections alone: one row each, sorted by label; totals over
      all buckets; and the ten largest buckets by either measure. */
  ghost predicate IsOverview(conns: seq<Connection>, answer: Connection -> ClusterAnswer, o: Overview) {
    var results := Results(conns, answer);
    var all := multiset(Flat(TopsOf, results));
    && multiset(o.rows) == multiset(Map(RowOf, results))
    && Sorted(o.rows, RowLess)
    && o.totals == TotalsOf(|conns|, results)
    && IsTop(all, TOP_N, Bytes, o.byBytes)
    && IsTop(all, TOP_N, Objects, o.byObjects)
  }

  // ---- as computed ---------------------------------------------------------------------------------------

  /** The goroutines append under the mutex in completion order, which is any order. */
  method FanOut(conns: seq<Connection>, answer: Connection -> ClusterAnswer) returns (results: seq<ClusterResult>)
    ensures multiset(results) == multiset(Results(conns, answer))
  {
    results := [];
    var running := conns;
    while running != []
      invariant multiset(results) + multiset(Results(running, answer)) == multiset(Results(conns, answer))
      decreases |running|
    {
      var i :| 0 <= i < |running|;
      var r := Queried(running[i], answer(running[i]));
      var rest := running[..i] + running[i + 1..];
      assert Results(running, answer) == Results(running, answer)[..i] + [r] + Results(running, answer)[i + 1..];
      assert Results(rest, answer) == Results(running, answer)[..i] + Results(running, answer)[i + 1..];
      results := results + [r];
      running := rest;
    }
  }

  lemma WrapZero()
    ensures Wrap64(0) == 0
  {
  }

  lemma WrapAdd(a: int, b: int)
    ensures Wrap64(Wrap64(a) + b) == Wrap64(a + b)
    ensures Wrap64(Wrap64(a) + Wrap64(b)) == Wrap64(a + b)
  {
  }

  /** One cluster's buckets: its sums, and its candidates for the top lists. */
  method AddBuckets(conn: Connection, buckets: seq<Bucket>) returns (bytes: int, objects: int, tops: seq<TopBucket>)
    ensures bytes == Wrap64(Sum(BucketBytes, buckets)) && objects == Wrap64(Sum(BucketObjects, buckets))
    ensures tops == Map(b => TopOf(conn, b), buckets)
  {
    bytes, objects, tops := 0, 0, [];
    for i := 0 to |buckets|
      invariant bytes == Wrap64(Sum(BucketBytes, buckets[..i])) && objects == Wrap64(Sum(BucketObjects, buckets[..i]))
      invariant |tops| == i && forall k :: 0 <= k < i ==> tops[k] == TopOf(conn, buckets[k])
    {
      var b := buckets[i];
      SumNext(BucketBytes, buckets, i);
      SumNext(BucketObjects, buckets, i);
      WrapAdd(Sum(BucketBytes, buckets[..i]), b.bytes);
      WrapAdd(Sum(BucketObjects, buckets[..i]), b.objects);
      bytes := Wrap64(bytes + b.bytes);
      objects := Wrap64(objects + b.objects);
      var alias := "";
      if |b.aliases| > 0 {
        alias := b.aliases[0];
      }
      tops := tops + [TopBucket(conn.id, conn.caption, b.id, alias, b.bytes, b.objects)];
    }
    assert buckets[..|buckets|] == buckets;
  }

  /** A row's numbers are those of its cluster's buckets and keys; a failed cluster's are zero. */
  lemma RowSums(r: ClusterResult)
    ensures RowOf(r).buckets == |TopsOf(r)| && RowOf(r).keys == KeysOf(r)
    ensures RowOf(r).bytes == Wrap64(Sum(Bytes, TopsOf(r))) && RowOf(r).objects == Wrap64(Sum(Objects, TopsOf(r)))
  {
    if r.Answered? {
      var f := b => TopOf(r.conn, b);
      assert TopsOf(r) == Map(f, r.buckets);
      SumMap(f, BucketBytes, Bytes, r.buckets);
      SumMap(f, BucketObjects, Objects, r.buckets);
    }
  }

  /** What one more result adds to the totals. */
  lemma TotalsNext(clusters: int, results: seq<ClusterResult>, i: nat)
    requires i < |results|
    ensures var before, row := TotalsOf(clusters, results[..i]), RowOf(results[i]);
      TotalsOf(clusters, results[..i + 1])
      == Totals(clusters, before.buckets + row.buckets, before.keys + row.keys,
                Wrap64(before.bytes + row.bytes), Wrap64(before.objects + row.objects))
  {
    hide Wrap64, RowOf, TopsOf, KeysOf;
    var all, tops := Flat(TopsOf, results[..i]), TopsOf(results[i]);
    RowSums(results[i]);
    FlatNext(TopsOf, results, i);
    SumNext(KeysOf, results, i);
    SumConcat(Bytes, all, tops);
    SumConcat(Objects, all, tops);
    WrapAdd(Sum(Bytes, all), Sum(Bytes, tops));
    WrapAdd(Sum(Objects, all), Sum(Objects, tops));
  }

  lemma NoTotals(clusters: int)
    ensures Flat(TopsOf, []) == [] && TotalsOf(clusters, []) == Totals(clusters, 0, 0, 0, 0)
  {
    WrapZero();
  }

  lemma FailureAddsNothing(clusters: int, results: seq<ClusterResult>, i: nat)
    requires i < |results| && results[i].Failed?
    ensures TotalsOf(clusters, results[..i + 1]) == TotalsOf(clusters, results[..i])
  {
    FlatNext(TopsOf, results, i);
    SumNext(KeysOf, results, i);
    assert Flat(TopsOf, results[..i + 1]) == Flat(TopsOf, results[..i]);
  }

  method Aggregate(clusters: int, results: seq<ClusterResult>)
    returns (rows: seq<Row>, totals: Totals, all: seq<TopBucket>)
    ensures rows == Map(RowOf, results) && all == Flat(TopsOf, results) && totals == TotalsOf(clusters, results)
  {
    hide Wrap64, TotalsOf, Flat;
    rows, totals, all := [], Totals(clusters, 0, 0, 0, 0), [];
    NoTotals(clusters);
    for i := 0 to |results|
      invariant |rows| == i && forall k :: 0 <= k < i ==> rows[k] == RowOf(results[k])
      invariant all == Flat(TopsOf, results[..i])
      invariant totals == TotalsOf(clusters, results[..i])
    {
      FlatNext(TopsOf, results, i);
      match results[i] {
        case Failed(conn, error) =>
          FailureAddsNothing(clusters, results, i);
          rows := rows + [Row(conn.id, conn.caption, 0, 0, 0, 0, false, error)];
        case Answered(conn, buckets, keyCt) =>
          TotalsNext(clusters, results, i);
          var bytes, objects, tops := AddBuckets(conn, buckets);
          all := all + tops;
          var row := Row(conn.id, conn.caption, bytes, objects, |buckets|, keyCt, true, "");
          totals := Totals(clusters, totals.buckets + row.buckets, totals.keys + row.keys,
                           Wrap64(totals.bytes + row.bytes), Wrap64(totals.objects + row.objects));
          rows := rows + [row];
      }
    }
    assert results[..|results|] == results;
  }

  lemma RowLessIsStrictWeak()
    ensures StrictWeak(RowLess)
  {
    forall x, y | RowLess(x, y) ensures !RowLess(y, x) {
      BeforeAsymmetric(x.caption, y.caption);
    }
    forall x, y, z | RowLess(x, z) ensures RowLess(x, y) || RowLess(y, z) {
      BeforeCotransitive(x.caption, y.caption, z.caption);
    }
  }

  /** Sorts and truncates a copy; the shared list is left as it was. */
  method TopBuckets(all: array<TopBucket>, key: TopBucket -> int) returns (top: seq<TopBucket>)
    ensures IsTop(multiset(all[..]), TOP_N, key, top)
  {
    var ranking := new TopBucket[all.Length](i requires 0 <= i < all.Length reads all => all[i]);
    assert ranking[..] == all[..];
    SortSlice(ranking, (x, y) => key(x) > key(y));
    assert Ranked(ranking[..], key);
    TruncatedIsTop(multiset(all[..]), TOP_N, key, ranking[..]);
    top := ranking[..];
    if ranking.Length > TOP_N {
      top := top[..TOP_N];
    }
  }

  method GetUsageOverview(conns: seq<Connection>, answer: Connection -> ClusterAnswer) returns (o: Overview)
    ensures IsOverview(conns, answer, o)
  {
    hide TotalsOf, TopsOf, RowOf, IsTop, Flat;
    var results := FanOut(conns, answer);
    var perCluster, totals, collected := Aggregate(|conns|, results);
    var rows := new Row[|perCluster|](i requires 0 <= i < |perCluster| => perCluster[i]);
    assert rows[..] == perCluster;
    RowLessIsStrictWeak();
    SortSlice(rows, RowLess);
    var allBuckets := new TopBucket[|collected|](i requires 0 <= i < |collected| => collected[i]);
    assert allBuckets[..] == collected;
    var byBytes := TopBuckets(allBuckets, Bytes);
    var byObjects := TopBuckets(allBuckets, Objects);
    o := Overview(totals, rows[..], byBytes, byObjects);
    OrderForgotten(results, Results(conns, answer));
  }

  /** Nothing the page shows depends on the order in which the results arrived. */
  lemma OrderForgotten(a: seq<ClusterResult>, b: seq<ClusterResult>)
    requires multiset(a) == multiset(b)
    ensures multiset(Map(RowOf, a)) == multiset(Map(RowOf, b))
    ensures multiset(Flat(TopsOf, a)) == multiset(Flat(TopsOf, b))
    ensures forall n :: TotalsOf(n, a) == TotalsOf(n, b)
  {
    MapPermutation(RowOf, a, b);
    FlatPermutation(TopsOf, a, b);
    SumPermutation(KeysOf, a, b);
    SumPermutation(Bytes, Flat(TopsOf, a), Flat(TopsOf, b));
    SumPermutation(Objects, Flat(TopsOf, a), Flat(TopsOf, b));
    assert |multiset(Flat(TopsOf, a))| == |Flat(TopsOf, a)| && |multiset(Flat(TopsOf, b))| == |Flat(TopsOf, b)|;
  }
}
