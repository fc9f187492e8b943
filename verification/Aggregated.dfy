/** The aggregated attestations contract (contracts/aggregated-attestations/src/lib.rs):
    portfolios of businesses, two ways of summing their snapshots, and versioned roots over
    time windows.
 */
module Aggregated {
  import opened Base
  import Snapshots

  type SnapshotRecord = Snapshots.SnapshotRecord

  const MAX_PORTFOLIO_BUSINESSES: nat := 200
  const MAX_PORTFOLIO_ID_BYTES: nat := 128

  /** What the snapshot contract answers for each business. */
  type Feed = Address -> seq<SnapshotRecord>

  datatype Totals = Totals(revenue: int, anomalies: nat, contributors: nat)

  datatype Metrics = Metrics(totals: Totals, businessCount: nat, averageRevenue: int)

  datatype RootRecord = RootRecord(root: Hash, start: nat, end: nat, version: nat)

  datatype Registry = Registry(portfolios: map<string, seq<Address>>, roots: map<string, seq<RootRecord>>) {
    function Businesses(id: string): seq<Address> {
      Get(portfolios, id, [])
    }

    function Roots(id: string): seq<RootRecord> {
      Get(roots, id, [])
    }
  }

  const Empty := Registry(map[], map[])

  /* ---------- Metrics ---------- */

  function AddRow(t: Totals, r: SnapshotRecord): Totals {
    t.(revenue := SatAddI128(t.revenue, r.trailingRevenue), anomalies := SatAdd(t.anomalies, r.anomalyCount, U32_MAX))
  }

  function AddRows(t: Totals, rows: seq<SnapshotRecord>): Totals {
    if rows == [] then t else AddRow(AddRows(t, rows[..|rows| - 1]), rows[|rows| - 1])
  }

  /** Totals over all businesses, in order; a business contributes when it has some row. */
  function TotalsOf(bs: seq<Address>, rowsOf: Feed): Totals {
    if bs == [] then Totals(0, 0, 0)
    else
      var before, rows := TotalsOf(bs[..|bs| - 1], rowsOf), rowsOf(bs[|bs| - 1]);
      AddRows(before.(contributors := before.contributors + if rows == [] then 0 else 1), rows)
  }

  function Summarize(bs: seq<Address>, rowsOf: Feed): Metrics {
    var t := TotalsOf(bs, rowsOf);
    Metrics(t, |bs|, if t.contributors > 0 then TruncDiv(t.revenue, t.contributors) else 0)
  }

  /** The first occurrence of every address, in order. */
  function Dedup(bs: seq<Address>): seq<Address> {
    if bs == [] then []
    else
      var front, b := Dedup(bs[..|bs| - 1]), bs[|bs| - 1];
      if b in front then front else front + [b]
  }

  function Matching(rows: seq<SnapshotRecord>, batch: nat): seq<SnapshotRecord> {
    if rows == [] then []
    else
      var front, r := Matching(rows[..|rows| - 1], batch), rows[|rows| - 1];
      if r.recordedAt == batch then front + [r] else front
  }

  function OfBatch(feed: Feed, batch: nat): Feed {
    b => Matching(feed(b), batch)
  }

  function AllMetrics(bs: seq<Address>, feed: Feed): Metrics {
    Summarize(Dedup(bs), feed)
  }

  function BatchMetrics(bs: seq<Address>, feed: Feed, batch: nat): Metrics {
    Summarize(bs, OfBatch(feed, batch))
  }

  predicate OneBatch(rows: seq<SnapshotRecord>, batch: nat) {
    forall j :: 0 <= j < |rows| ==> rows[j].recordedAt == batch
  }

  predicate Consistent(bs: seq<Address>, feed: Feed, batch: nat) {
    forall i :: 0 <= i < |bs| ==> OneBatch(feed(bs[i]), batch)
  }

  lemma {:induction false} DedupElements(bs: seq<Address>)
    ensures Distinct(Dedup(bs))
    ensures forall b :: b in Dedup(bs) <==> b in bs
  {
    if bs != [] {
      DedupElements(bs[..|bs| - 1]);
      assert bs == bs[..|bs| - 1] + [bs[|bs| - 1]];
    }
  }

  lemma {:induction false} DedupKeepsDistinct(bs: seq<Address>)
    requires Distinct(bs)
    ensures Dedup(bs) == bs
  {
    if bs != [] {
      DedupKeepsDistinct(bs[..|bs| - 1]);
    }
  }

  /** Removing duplicates does nothing exactly when there are none. */
  lemma DedupIsIdentityIff(bs: seq<Address>)
    ensures Dedup(bs) == bs <==> Distinct(bs)
  {
    DedupElements(bs);
    if Distinct(bs) {
      DedupKeepsDistinct(bs);
    }
  }

  lemma {:induction false} MatchingIsAllIff(rows: seq<SnapshotRecord>, batch: nat)
    ensures |Matching(rows, batch)| <= |rows|
    ensures Matching(rows, batch) == rows <==> OneBatch(rows, batch)
  {
    if rows != [] {
      var front, r := rows[..|rows| - 1], rows[|rows| - 1];
      MatchingIsAllIff(front, batch);
      if r.recordedAt == batch {
        assert (Matching(front, batch) + [r])[..|Matching(front, batch)|] == Matching(front, batch);
        if Matching(front, batch) + [r] == rows {
          assert Matching(front, batch) == front;
        }
      }
    }
  }

  lemma {:induction false} SameRowsSameTotals(bs: seq<Address>, f: Feed, g: Feed)
    requires forall i :: 0 <= i < |bs| ==> f(bs[i]) == g(bs[i])
    ensures TotalsOf(bs, f) == TotalsOf(bs, g)
  {
    if bs != [] {
      SameRowsSameTotals(bs[..|bs| - 1], f, g);
    }
  }

  /** When the consistency check passes, both metric queries return the same record. */
  lemma ConsistentMetricsCoincide(bs: seq<Address>, feed: Feed, batch: nat)
    requires Distinct(bs) && Consistent(bs, feed, batch)
    ensures AllMetrics(bs, feed) == BatchMetrics(bs, feed, batch)
  {
    DedupIsIdentityIff(bs);
    forall i | 0 <= i < |bs| ensures feed(bs[i]) == OfBatch(feed, batch)(bs[i]) {
      MatchingIsAllIff(feed(bs[i]), batch);
    }
    SameRowsSameTotals(bs, feed, OfBatch(feed, batch));
  }

  lemma {:induction false} DedupLosesDuplicates(bs: seq<Address>)
    ensures |Dedup(bs)| <= |bs|
    ensures |Dedup(bs)| == |bs| <==> Distinct(bs)
  {
    if bs != [] {
      var front, b := bs[..|bs| - 1], bs[|bs| - 1];
      DedupLosesDuplicates(front);
      DedupElements(front);
      assert Distinct(bs) ==> Distinct(front);
      if b in Dedup(front) {
        var i :| 0 <= i < |front| && front[i] == b;
        assert bs[i] == bs[|bs| - 1];
      } else if Distinct(front) {
        assert forall i :: 0 <= i < |front| ==> bs[i] in front;
      }
    }
  }

  /** The check that registration makes is exactly what is needed: over consistent rows the two
      queries return the same record if and only if no business is listed twice. */
  lemma MetricsCoincideIff(bs: seq<Address>, feed: Feed, batch: nat)
    requires Consistent(bs, feed, batch)
    ensures AllMetrics(bs, feed) == BatchMetrics(bs, feed, batch) <==> Distinct(bs)
  {
    DedupLosesDuplicates(bs);
    if Distinct(bs) {
      ConsistentMetricsCoincide(bs, feed, batch);
    } else {
      assert AllMetrics(bs, feed).businessCount == |Dedup(bs)|;
      assert BatchMetrics(bs, feed, batch).businessCount == |bs|;
    }
  }

  /* ---------- What saturation does to the totals ---------- */

  function RevenueOf(rows: seq<SnapshotRecord>): int {
    if rows == [] then 0 else RevenueOf(rows[..|rows| - 1]) + rows[|rows| - 1].trailingRevenue
  }

  function ExactRevenue(bs: seq<Address>, rowsOf: Feed): int {
    if bs == [] then 0 else ExactRevenue(bs[..|bs| - 1], rowsOf) + RevenueOf(rowsOf(bs[|bs| - 1]))
  }

  ghost predicate NoLosses(rows: seq<SnapshotRecord>) {
    forall i :: 0 <= i < |rows| ==> rows[i].trailingRevenue >= 0
  }

  lemma {:induction false} RowsSaturateOnce(t: Totals, rows: seq<SnapshotRecord>)
    requires NoLosses(rows) && 0 <= t.revenue <= I128_MAX
    ensures RevenueOf(rows) >= 0
    ensures AddRows(t, rows).revenue == Min(t.revenue + RevenueOf(rows), I128_MAX)
    ensures AddRows(t, rows).contributors == t.contributors
  {
    if rows != [] {
      RowsSaturateOnce(t, rows[..|rows| - 1]);
    }
  }

  /** While no row records a loss, saturating at every addition is the same as capping the
      exact sum once, so the total does not depend on the order of businesses or rows. */
  lemma {:induction false} TotalIsCappedExactSum(bs: seq<Address>, rowsOf: Feed)
    requires forall i :: 0 <= i < |bs| ==> NoLosses(rowsOf(bs[i]))
    ensures ExactRevenue(bs, rowsOf) >= 0
    ensures TotalsOf(bs, rowsOf).revenue == Min(ExactRevenue(bs, rowsOf), I128_MAX)
  {
    if bs != [] {
      var front, b := bs[..|bs| - 1], bs[|bs| - 1];
      TotalIsCappedExactSum(front, rowsOf);
      assert NoLosses(rowsOf(bs[|bs| - 1]));
      var before := TotalsOf(front, rowsOf);
      RowsSaturateOnce(before.(contributors := before.contributors + if rowsOf(b) == [] then 0 else 1), rowsOf(b));
    }
  }

  function AnomaliesOf(rows: seq<SnapshotRecord>): nat {
    if rows == [] then 0 else AnomaliesOf(rows[..|rows| - 1]) + rows[|rows| - 1].anomalyCount
  }

  function ExactAnomalies(bs: seq<Address>, rowsOf: Feed): nat {
    if bs == [] then 0 else ExactAnomalies(bs[..|bs| - 1], rowsOf) + AnomaliesOf(rowsOf(bs[|bs| - 1]))
  }

  lemma {:induction false} AnomaliesSaturateOnce(t: Totals, rows: seq<SnapshotRecord>)
    requires t.anomalies <= U32_MAX
    ensures AddRows(t, rows).anomalies == Min(t.anomalies + AnomaliesOf(rows), U32_MAX)
    ensures AddRows(t, rows).contributors == t.contributors
  {
    if rows != [] {
      AnomaliesSaturateOnce(t, rows[..|rows| - 1]);
    }
  }

  /** The anomaly total is the exact sum capped at 32 bits. */
  lemma {:induction false} AnomaliesAreCappedExactSum(bs: seq<Address>, rowsOf: Feed)
    ensures TotalsOf(bs, rowsOf).anomalies == Min(ExactAnomalies(bs, rowsOf), U32_MAX)
  {
    if bs != [] {
      var front, b := bs[..|bs| - 1], bs[|bs| - 1];
      AnomaliesAreCappedExactSum(front, rowsOf);
      var before := TotalsOf(front, rowsOf);
      AnomaliesSaturateOnce(before.(contributors := before.contributors + if rowsOf(b) == [] then 0 else 1), rowsOf(b));
    }
  }

  function Having(bs: seq<Address>, rowsOf: Feed): set<Address> {
    set b | b in bs && rowsOf(b) != []
  }

  lemma {:induction false} ContributorsAreCounted(bs: seq<Address>, rowsOf: Feed)
    requires Distinct(bs)
    ensures TotalsOf(bs, rowsOf).contributors == |Having(bs, rowsOf)|
  {
    if bs != [] {
      var front, b := bs[..|bs| - 1], bs[|bs| - 1];
      ContributorsAreCounted(front, rowsOf);
      var before := TotalsOf(front, rowsOf);
      KeepsContributors(before.(contributors := before.contributors + if rowsOf(b) == [] then 0 else 1), rowsOf(b));
      assert bs == front + [b];
      assert b !in front;
      assert Having(bs, rowsOf) == Having(front, rowsOf) + if rowsOf(b) == [] then {} else {b};
    }
  }

  lemma {:induction false} KeepsContributors(t: Totals, rows: seq<SnapshotRecord>)
    ensures AddRows(t, rows).contributors == t.contributors
  {
    if rows != [] {
      KeepsContributors(t, rows[..|rows| - 1]);
    }
  }

  /** `average` is `total` divided by `n`, rounded towards zero. */
  ghost predicate Quotient(average: int, total: int, n: nat) {
    && (total >= 0 ==> average * n <= total < (average + 1) * n)
    && (total < 0 ==> (average - 1) * n < total <= average * n)
  }

  lemma TruncDivIsQuotient(total: int, n: nat)
    requires n > 0
    ensures Quotient(TruncDiv(total, n), total, n)
  {
    var m := if total >= 0 then total else -total;
    assert m == (m / n) * n + m % n && 0 <= m % n < n;
    if total < 0 {
      assert (TruncDiv(total, n) - 1) * n == -((m / n) * n) - n;
      assert TruncDiv(total, n) * n == -((m / n) * n);
    } else {
      assert (TruncDiv(total, n) + 1) * n == (m / n) * n + n;
    }
  }

  /** What the metrics say about a portfolio: how many different businesses it has, how many of
      them have a record, and the total divided by the latter, towards zero. */
  lemma MetricsMeaning(bs: seq<Address>, feed: Feed)
    ensures
      var m := AllMetrics(bs, feed);
      && m.businessCount == |Elements(bs)|
      && m.totals.contributors == |Having(bs, feed)|
      && (if m.totals.contributors == 0 then m.averageRevenue == 0
          else Quotient(m.averageRevenue, m.totals.revenue, m.totals.contributors))
  {
    DedupElements(bs);
    DistinctSize(Dedup(bs));
    assert Elements(Dedup(bs)) == Elements(bs);
    ContributorsAreCounted(Dedup(bs), feed);
    assert Having(Dedup(bs), feed) == Having(bs, feed);
    if AllMetrics(bs, feed).totals.contributors > 0 {
      TruncDivIsQuotient(AllMetrics(bs, feed).totals.revenue, AllMetrics(bs, feed).totals.contributors);
    }
  }

  /* ---------- Roots ---------- */

  datatype Newest = Newest(version: nat, last: Option<RootRecord>)

  /** The highest version so far and the last record that carries it. */
  function Scan(rs: seq<RootRecord>): Newest {
    if rs == [] then Newest(0, None)
    else
      var before, r := Scan(rs[..|rs| - 1]), rs[|rs| - 1];
      if r.version >= before.version then Newest(r.version, Some(r)) else before
  }

  function SubmitRoot(rs: seq<RootRecord>, r: RootRecord, now: nat): Option<seq<RootRecord>> {
    if r.start >= r.end || r.end > now then None
    else
      match Scan(rs).last
      case None => Some(rs + [r])
      case Some(last) =>
        if r.version < Scan(rs).version || (r.version == Scan(rs).version && r.start < last.end) then None
        else Some(rs + [r])
  }

  predicate Covers(r: RootRecord, t: nat) {
    r.start <= t < r.end
  }

  /** A later record wins only with a strictly higher version. */
  function RootAt(rs: seq<RootRecord>, t: nat): Option<RootRecord> {
    if rs == [] then None
    else
      var before, r := RootAt(rs[..|rs| - 1], t), rs[|rs| - 1];
      if !Covers(r, t) then before
      else
        match before
        case None => Some(r)
        case Some(best) => if r.version > best.version then Some(r) else before
  }

  ghost predicate InOrder(a: RootRecord, b: RootRecord) {
    a.version < b.version || (a.version == b.version && a.end <= b.start)
  }

  ghost predicate RootsOk(rs: seq<RootRecord>) {
    && (forall i :: 0 <= i < |rs| ==> rs[i].start < rs[i].end)
    && (forall i, j :: 0 <= i < j < |rs| ==> InOrder(rs[i], rs[j]))
  }

  lemma {:induction false} ScanIsLast(rs: seq<RootRecord>)
    requires RootsOk(rs) && rs != []
    ensures Scan(rs) == Newest(rs[|rs| - 1].version, Some(rs[|rs| - 1]))
  {
    var front := rs[..|rs| - 1];
    if front != [] {
      ScanIsLast(front);
      assert InOrder(rs[|front| - 1], rs[|rs| - 1]);
    }
  }

  /** A root is accepted exactly when its window has ended and the whole list stays ordered:
      versions never decrease, and windows of one version follow one another. */
  lemma SubmitKeepsOrderIff(rs: seq<RootRecord>, r: RootRecord, now: nat)
    requires RootsOk(rs)
    ensures SubmitRoot(rs, r, now).Some? <==> r.end <= now && RootsOk(rs + [r])
    ensures SubmitRoot(rs, r, now).Some? ==> SubmitRoot(rs, r, now).value == rs + [r]
  {
    var all := rs + [r];
    assert all[|rs|] == r;
    if rs != [] {
      ScanIsLast(rs);
      var last := rs[|rs| - 1];
      assert all[|rs| - 1] == last;
      if SubmitRoot(rs, r, now).Some? {
        forall i | 0 <= i < |rs| ensures InOrder(all[i], r) {
          assert all[i] == rs[i];
          assert i < |rs| - 1 ==> InOrder(rs[i], last);
          assert last.start < last.end;
        }
      } else if RootsOk(all) {
        assert InOrder(all[|rs| - 1], all[|rs|]);
        assert all[|rs|].start < all[|rs|].end;
      }
    } else if RootsOk(all) {
      assert all[0].start < all[0].end;
    }
  }

  /** At most one root of each version covers a moment. */
  lemma OneRootPerVersion(rs: seq<RootRecord>, i: nat, j: nat, t: nat)
    requires RootsOk(rs) && i < |rs| && j < |rs|
    requires Covers(rs[i], t) && Covers(rs[j], t) && rs[i].version == rs[j].version
    ensures i == j
  {
    assert i < j ==> InOrder(rs[i], rs[j]);
    assert j < i ==> InOrder(rs[j], rs[i]);
  }

  ghost predicate BestAt(rs: seq<RootRecord>, k: nat, t: nat) {
    && k < |rs|
    && Covers(rs[k], t)
    && forall i :: 0 <= i < |rs| && i != k && Covers(rs[i], t) ==> rs[i].version < rs[k].version
  }

  /** A covering root at the end of an ordered list beats every other covering root. */
  lemma NewestBeatsAll(rs: seq<RootRecord>, t: nat)
    requires RootsOk(rs) && rs != [] && Covers(rs[|rs| - 1], t)
    ensures BestAt(rs, |rs| - 1, t)
  {
    forall i | 0 <= i < |rs| - 1 && Covers(rs[i], t) ensures rs[i].version < rs[|rs| - 1].version {
      assert InOrder(rs[i], rs[|rs| - 1]);
    }
  }

  lemma BestStays(front: seq<RootRecord>, r: RootRecord, k: nat, t: nat)
    requires BestAt(front, k, t) && !Covers(r, t)
    ensures BestAt(front + [r], k, t)
  {
    assert (front + [r])[k] == front[k];
  }

  lemma BestIsUnique(rs: seq<RootRecord>, j: nat, k: nat, t: nat)
    requires BestAt(rs, j, t) && BestAt(rs, k, t)
    ensures j == k
  {
  }

  lemma {:induction false} RootAtFindsTheBest(rs: seq<RootRecord>, t: nat)
    requires RootsOk(rs)
    ensures RootAt(rs, t).None? ==> forall i :: 0 <= i < |rs| ==> !Covers(rs[i], t)
    ensures RootAt(rs, t).Some? ==> exists k: nat :: BestAt(rs, k, t) && rs[k] == RootAt(rs, t).value
  {
    if rs != [] {
      var front, r := rs[..|rs| - 1], rs[|rs| - 1];
      RootAtFindsTheBest(front, t);
      assert rs == front + [r];
      if Covers(r, t) {
        NewestBeatsAll(rs, t);
        if RootAt(front, t).Some? {
          var k: nat :| BestAt(front, k, t) && front[k] == RootAt(front, t).value;
          assert Covers(rs[k], t) && rs[k] == front[k];
        }
      } else if RootAt(front, t).Some? {
        var k: nat :| BestAt(front, k, t) && front[k] == RootAt(front, t).value;
        BestStays(front, r, k, t);
      }
    }
  }

  /** The lookup answers with the one covering root of highest version, and with nothing
      exactly when no root covers the moment. */
  lemma RootAtIsTheBest(rs: seq<RootRecord>, t: nat)
    requires RootsOk(rs)
    ensures RootAt(rs, t) == None <==> forall i :: 0 <= i < |rs| ==> !Covers(rs[i], t)
    ensures forall k: nat :: BestAt(rs, k, t) ==> RootAt(rs, t) == Some(rs[k])
    ensures RootAt(rs, t).Some? ==> exists k: nat :: BestAt(rs, k, t)
  {
    RootAtFindsTheBest(rs, t);
    if RootAt(rs, t).Some? {
      var j: nat :| BestAt(rs, j, t) && rs[j] == RootAt(rs, t).value;
      forall k: nat | BestAt(rs, k, t) ensures k == j {
        BestIsUnique(rs, j, k, t);
      }
    }
  }

  /** Once a moment has an answer, only a root of a higher version can replace it. */
  lemma LaterRootsOnlySupersede(rs: seq<RootRecord>, r: RootRecord, t: nat)
    requires RootAt(rs, t).Some?
    ensures RootAt(rs + [r], t).Some?
    ensures RootAt(rs + [r], t) != RootAt(rs, t) ==>
              RootAt(rs + [r], t).value == r && r.version > RootAt(rs, t).value.version
  {
    assert (rs + [r])[..|rs|] == rs;
  }

  /* ---------- Runs ---------- */

  datatype Call =
    | Registers(id: string, businesses: seq<Address>)
    | SubmitsRoot(id: string, record: RootRecord, now: nat)

  predicate PortfolioOk(id: string, bs: seq<Address>) {
    && |id| <= MAX_PORTFOLIO_ID_BYTES
    && |bs| <= MAX_PORTFOLIO_BUSINESSES
    && forall i, j :: 0 <= i < j < |bs| ==> bs[i] != bs[j]
  }

  function Attempt(s: Registry, c: Call): Option<Registry> {
    match c
    case Registers(id, bs) =>
      if PortfolioOk(id, bs) then Some(s.(portfolios := s.portfolios[id := bs])) else None
    case SubmitsRoot(id, r, now) =>
      match SubmitRoot(s.Roots(id), r, now)
      case None => None
      case Some(rs) => Some(s.(roots := s.roots[id := rs]))
  }

  function After(calls: seq<Call>): Registry {
    if calls == [] then Empty
    else
      var before := After(calls[..|calls| - 1]);
      Attempt(before, calls[|calls| - 1]).GetOr(before)
  }

  ghost predicate Inv(s: Registry) {
    && (forall id :: id in s.portfolios ==> PortfolioOk(id, s.portfolios[id]))
    && (forall id :: id in s.roots ==> RootsOk(s.roots[id]))
  }

  /** An accepted root is appended to its own list and nothing else changes. */
  lemma AcceptedRootIsAppended(s: Registry, id: string, r: RootRecord, now: nat)
    requires Attempt(s, SubmitsRoot(id, r, now)).Some?
    ensures
      var next := Attempt(s, SubmitsRoot(id, r, now)).value;
      && next.Roots(id) == s.Roots(id) + [r] && next.portfolios == s.portfolios
      && forall x :: x != id ==> next.Roots(x) == s.Roots(x)
  {
  }

  /** Exactly which portfolios are registered, and that nothing else changes. */
  lemma RegisterCommitsIff(s: Registry, id: string, bs: seq<Address>)
    ensures Attempt(s, Registers(id, bs)).Some? <==> |id| <= 128 && |bs| <= 200 && |Elements(bs)| == |bs|
    ensures Attempt(s, Registers(id, bs)).Some? ==>
              var next := Attempt(s, Registers(id, bs)).value;
              && next.Businesses(id) == bs && next.roots == s.roots
              && forall x :: x != id ==> next.Businesses(x) == s.Businesses(x)
  {
    DedupElements(bs);
    DistinctSize(Dedup(bs));
    DedupLosesDuplicates(bs);
    assert Elements(Dedup(bs)) == Elements(bs);
  }

  lemma {:induction false} EveryRegistryIsOrdered(calls: seq<Call>)
    ensures Inv(After(calls))
  {
    if calls != [] {
      var before, c := After(calls[..|calls| - 1]), calls[|calls| - 1];
      EveryRegistryIsOrdered(calls[..|calls| - 1]);
      if c.SubmitsRoot? {
        SubmitKeepsOrderIff(before.Roots(c.id), c.record, c.now);
      }
    }
  }

  /** In every reachable registry a passed consistency check makes the two queries agree. */
  lemma ReachableMetricsCoincide(calls: seq<Call>, id: string, feed: Feed, batch: nat)
    requires Consistent(After(calls).Businesses(id), feed, batch)
    ensures AllMetrics(After(calls).Businesses(id), feed) == BatchMetrics(After(calls).Businesses(id), feed, batch)
  {
    EveryRegistryIsOrdered(calls);
    var bs := After(calls).Businesses(id);
    assert id in After(calls).portfolios ==> PortfolioOk(id, bs);
    ConsistentMetricsCoincide(bs, feed, batch);
  }

  /** In every reachable registry the lookup is decided by the unique best covering root. */
  lemma ReachableLookupIsTheBest(calls: seq<Call>, id: string, t: nat)
    ensures
      var rs := After(calls).Roots(id);
      && (RootAt(rs, t) == None <==> (forall i :: 0 <= i < |rs| ==> !Covers(rs[i], t)))
      && (forall k: nat :: BestAt(rs, k, t) ==> RootAt(rs, t) == Some(rs[k]))
      && (RootAt(rs, t).Some? ==> exists k: nat :: BestAt(rs, k, t))
  {
    EveryRegistryIsOrdered(calls);
    RootAtIsTheBest(After(calls).Roots(id), t);
  }

  /** The same in plain terms: the answer is a submitted root whose window, its start included
      and its end not, holds the moment, and every other such root has a lower version. */
  lemma LookupMeaning(calls: seq<Call>, id: string, t: nat)
    ensures
      var rs := After(calls).Roots(id);
      && (RootAt(rs, t) == None <==> forall i :: 0 <= i < |rs| ==> t < rs[i].start || rs[i].end <= t)
      && (RootAt(rs, t).Some? ==>
            && RootAt(rs, t).value in rs
            && RootAt(rs, t).value.start <= t < RootAt(rs, t).value.end
            && forall r :: r in rs && r.start <= t < r.end && r != RootAt(rs, t).value ==>
                 r.version < RootAt(rs, t).value.version)
  {
    ReachableLookupIsTheBest(calls, id, t);
    var rs := After(calls).Roots(id);
    if RootAt(rs, t).Some? {
      var k: nat :| BestAt(rs, k, t);
      assert RootAt(rs, t) == Some(rs[k]);
      forall r | r in rs && r.start <= t < r.end && r != rs[k] ensures r.version < rs[k].version {
        var i :| 0 <= i < |rs| && rs[i] == r;
      }
    }
  }

  /* ---------- The contract ---------- */

  class AggregatedAttestationsContract {
    var portfolios: map<string, seq<Address>>
    var roots: map<string, seq<RootRecord>>

    function Model(): Registry
      reads this
    {
      Registry(portfolios, roots)
    }

    constructor ()
      ensures Model() == Empty
    {
      portfolios, roots := map[], map[];
    }

    method RegisterPortfolio(id: string, businesses: seq<Address>) returns (ok: bool)
      modifies this
      ensures Tx(ok, Attempt(old(Model()), Registers(id, businesses)), old(Model()), Model())
    {
      if |id| > MAX_PORTFOLIO_ID_BYTES || |businesses| > MAX_PORTFOLIO_BUSINESSES {
        return false;
      }
      for i := 0 to |businesses|
        invariant Model() == old(Model())
        invariant forall x, y :: 0 <= x < i && x < y < |businesses| ==> businesses[x] != businesses[y]
      {
        for j := i + 1 to |businesses|
          invariant Model() == old(Model())
          invariant forall y :: i < y < j ==> businesses[i] != businesses[y]
        {
          if businesses[i] == businesses[j] {
            return false;
          }
        }
      }
      portfolios := portfolios[id := businesses];
      return true;
    }

    method Unique(businesses: seq<Address>) returns (unique: seq<Address>)
      ensures unique == Dedup(businesses)
    {
      unique := [];
      for i := 0 to |businesses|
        invariant unique == Dedup(businesses[..i])
      {
        assert businesses[..i + 1][..i] == businesses[..i];
        var seen := false;
        for j := 0 to |unique|
          invariant unique == Dedup(businesses[..i])
          invariant seen <==> businesses[i] in unique[..j]
        {
          assert unique[..j + 1] == unique[..j] + [unique[j]];
          if unique[j] == businesses[i] {
            seen := true;
            break;
          }
        }
        assert unique[..|unique|] == unique;
        if !seen {
          unique := unique + [businesses[i]];
        }
      }
      assert businesses[..|businesses|] == businesses;
    }

    method GetAggregatedMetrics(feed: Feed, id: string) returns (m: Metrics)
      ensures m == AllMetrics(Model().Businesses(id), feed)
    {
      var unique := Unique(Get(portfolios, id, []));
      if |unique| == 0 {
        return Metrics(Totals(0, 0, 0), 0, 0);
      }
      var totals := Totals(0, 0, 0);
      for i := 0 to |unique|
        invariant totals == TotalsOf(unique[..i], feed)
      {
        assert unique[..i + 1][..i] == unique[..i];
        var rows := feed(unique[i]);
        if rows != [] {
          totals := totals.(contributors := totals.contributors + 1);
          var start := totals;
          for j := 0 to |rows|
            invariant totals == AddRows(start, rows[..j])
          {
            assert rows[..j + 1][..j] == rows[..j];
            totals := AddRow(totals, rows[j]);
          }
          assert rows[..|rows|] == rows;
        }
      }
      assert unique[..|unique|] == unique;
      var average := if totals.contributors > 0 then TruncDiv(totals.revenue, totals.contributors) else 0;
      m := Metrics(totals, |unique|, average);
    }

    method CheckBatchSnapshotConsistency(feed: Feed, id: string, batch: nat) returns (consistent: bool)
      ensures consistent == Consistent(Model().Businesses(id), feed, batch)
    {
      var businesses := Get(portfolios, id, []);
      for i := 0 to |businesses|
        invariant forall x :: 0 <= x < i ==> OneBatch(feed(businesses[x]), batch)
      {
        var rows := feed(businesses[i]);
        for j := 0 to |rows|
          invariant forall y :: 0 <= y < j ==> rows[y].recordedAt == batch
        {
          if rows[j].recordedAt != batch {
            assert !OneBatch(feed(businesses[i]), batch);
            return false;
          }
        }
      }
      return true;
    }

    lemma {:induction false} AddRowsKeepsContributors(t: Totals, rows: seq<SnapshotRecord>, n: nat)
      ensures AddRows(t.(contributors := n), rows) == AddRows(t, rows).(contributors := n)
    {
      if rows != [] {
        AddRowsKeepsContributors(t, rows[..|rows| - 1], n);
      }
    }

    method GetAggregatedMetricsForBatch(feed: Feed, id: string, batch: nat) returns (m: Metrics)
      ensures m == BatchMetrics(Model().Businesses(id), feed, batch)
    {
      var businesses := Get(portfolios, id, []);
      if |businesses| == 0 {
        return Metrics(Totals(0, 0, 0), 0, 0);
      }
      ghost var selected := OfBatch(feed, batch);
      var totals := Totals(0, 0, 0);
      for i := 0 to |businesses|
        invariant totals == TotalsOf(businesses[..i], selected)
      {
        assert businesses[..i + 1][..i] == businesses[..i];
        var rows := feed(businesses[i]);
        var contributed, start := false, totals;
        for j := 0 to |rows|
          invariant totals == AddRows(start, Matching(rows[..j], batch))
          invariant contributed <==> Matching(rows[..j], batch) != []
        {
          assert rows[..j + 1][..j] == rows[..j];
          if rows[j].recordedAt == batch {
            contributed := true;
            totals := AddRow(totals, rows[j]);
            assert Matching(rows[..j + 1], batch)[..|Matching(rows[..j], batch)|] == Matching(rows[..j], batch);
          }
        }
        assert rows[..|rows|] == rows;
        AddRowsKeepsContributors(start, Matching(rows, batch), start.contributors);
        AddRowsKeepsContributors(start, Matching(rows, batch), start.contributors + if contributed then 1 else 0);
        if contributed {
          totals := totals.(contributors := totals.contributors + 1);
        }
      }
      assert businesses[..|businesses|] == businesses;
      var average := if totals.contributors > 0 then TruncDiv(totals.revenue, totals.contributors) else 0;
      m := Metrics(totals, |businesses|, average);
    }

    method SubmitAggregatedRoot(id: string, r: RootRecord, now: nat) returns (ok: bool)
      modifies this
      ensures Tx(ok, Attempt(old(Model()), SubmitsRoot(id, r, now)), old(Model()), Model())
    {
      if r.start >= r.end || r.end > now {
        return false;
      }
      var stored := Get(roots, id, []);
      var maxVersion, last := 0, None;
      for i := 0 to |stored|
        invariant Model() == old(Model())
        invariant Newest(maxVersion, last) == Scan(stored[..i])
      {
        assert stored[..i + 1][..i] == stored[..i];
        if stored[i].version > maxVersion {
          maxVersion, last := stored[i].version, Some(stored[i]);
        } else if stored[i].version == maxVersion {
          last := Some(stored[i]);
        }
      }
      assert stored[..|stored|] == stored;
      if last.Some? {
        if r.version < maxVersion {
          return false;
        }
        if r.version == maxVersion && r.start < last.value.end {
          return false;
        }
      }
      roots := roots[id := stored + [r]];
      return true;
    }

    method GetAggregatedRootAtTimestamp(id: string, t: nat) returns (best: Option<RootRecord>)
      ensures best == RootAt(Model().Roots(id), t)
    {
      var stored := Get(roots, id, []);
      best := None;
      for i := 0 to |stored|
        invariant best == RootAt(stored[..i], t)
      {
        assert stored[..i + 1][..i] == stored[..i];
        if stored[i].start <= t < stored[i].end {
          match best
          case None => best := Some(stored[i]);
          case Some(b) =>
            if stored[i].version > b.version {
              best := Some(stored[i]);
            }
        }
      }
      assert stored[..|stored|] == stored;
    }
  }
}
