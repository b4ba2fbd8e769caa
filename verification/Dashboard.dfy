/**
 * The analytics dashboard page: the KPI totals over all rows, the platform
 * and search filter, the per-platform chart series derived from the
 * filtered rows, and the page state that each fetch replaces.
 */
module Dashboard {
  import opened Wrappers
  import opened Text
  import opened JsNumber
  import opened Seqs
  import opened FetchAnalytics

  // ---------------------------------------------------------------------
  // Row fields as the page reads them

  /** The page can read a row's platform when it is a string; otherwise
      `item.platform.toLowerCase()` throws. */
  predicate HasPlatform(r: Row) {
    "platform" in r && r["platform"].StrC?
  }

  function Platform(r: Row): string
    requires HasPlatform(r)
  {
    r["platform"].s
  }

  predicate AllHavePlatform(rows: seq<Row>) {
    forall i :: 0 <= i < |rows| ==> HasPlatform(rows[i])
  }

  /** A field `parseInt` can be applied to: absent, an integer or a string
      (a percentage value is not modelled). */
  predicate NumericField(r: Row, k: string) {
    k !in r || !r[k].PctC?
  }

  predicate Summable(rows: seq<Row>, k: string) {
    forall i :: 0 <= i < |rows| ==> NumericField(rows[i], k)
  }

  /** `parseInt(item[k]) || 0`: an absent field reads as `undefined` and
      gives 0; an integer field gives itself (ParseIntOr0ShowInt: parsing
      its decimal rendering gives it back); a string field is parsed. */
  function NumberOf(r: Row, k: string): int
    requires NumericField(r, k)
  {
    if k !in r then 0
    else if r[k].IntC? then r[k].n
    else ParseIntOr0(r[k].s)
  }

  /** Rows produced by the parser never hold a percentage cell under a key
      the page sums. */
  lemma ParsedRowsSummable(text: string, k: string)
    requires ParseCsv(text).Success?
    requires k != "engagement" && k != "growth"
    ensures Summable(ParseCsv(text).value, k)
  {
    var rows := ParseCsv(text).value;
    forall i | 0 <= i < |rows| ensures NumericField(rows[i], k) {
      var lines := Lines(text);
      PctOnlyUnderPctKeys(Cells(lines[0]), Cells(lines[i + 1]));
    }
  }

  /** With a `Platform` column, every parsed row has a string platform. */
  lemma ParsedRowsHavePlatform(text: string)
    requires ParseCsv(text).Success?
    requires "Platform" in Cells(Lines(text)[0])
    ensures AllHavePlatform(ParseCsv(text).value)
  {
    var lines := Lines(text);
    var headers := Cells(lines[0]);
    var rows := ParseCsv(text).value;
    assert rows == RowsOf(lines);
    var j :| 0 <= j < |headers| && headers[j] == "Platform";
    PlatformHeaderKey(headers[j]);
    var last := LastIndexOfKey(headers, "platform", j);
    forall i | 0 <= i < |rows| ensures HasPlatform(rows[i]) {
      RowHasPlatform(headers, Cells(lines[i + 1]), last);
    }
  }

  // `h` is pinned to a literal by a requires to avoid eager unfolding; see
  // `FetchAnalytics.EngagementKey`.
  lemma PlatformHeaderKey(h: string)
    requires h == "Platform"
    ensures Key(h) == "platform"
  {
    LoweredNames();
    assert h !in IntHeaders;
  }

  /** The last header writing `platform` leaves a string there. */
  lemma RowHasPlatform(headers: seq<string>, values: seq<string>, last: nat)
    requires last < |headers| && LastWriter(headers, last) && Key(headers[last]) == "platform"
    ensures HasPlatform(RowOf(headers, values))
  {
    PlatformKeyIsString(headers[last]);
    RowOfLastWins(headers, values, last);
  }

  /** A header that writes `platform` is neither an integer nor a percentage
      header, so the cell it stores is a string. */
  lemma PlatformKeyIsString(h: string)
    requires Key(h) == "platform"
    ensures h !in IntHeaders && h !in PctHeaders
  {
    if h in IntHeaders {
      IntHeaderKeys(h);
    } else if h in PctHeaders {
      PctKeys();
    }
  }

  /** The keys the integer headers write to are none of them `platform`. */
  lemma IntHeaderKeys(h: string)
    requires h in IntHeaders
    ensures Key(h) != "platform"
  {
    var l := Lower(h);
    assert Key(h) == l && |l| == |h|;
    if |h| == 8 {
      assert h == "Comments";
      assert l[0] == LowerChar('C') == 'c';
    }
  }

  /** The last header position whose key is `k`, at or after `j`. */
  lemma LastIndexOfKey(headers: seq<string>, k: string, j: nat) returns (last: nat)
    requires j < |headers| && Key(headers[j]) == k
    ensures j <= last < |headers| && Key(headers[last]) == k && LastWriter(headers, last)
    decreases |headers| - j
  {
    if exists m :: j < m < |headers| && Key(headers[m]) == k {
      var m :| j < m < |headers| && Key(headers[m]) == k;
      last := LastIndexOfKey(headers, k, m);
    } else {
      last := j;
    }
  }

  // ---------------------------------------------------------------------
  // KPIs over the unfiltered rows

  /** `data.reduce((sum, item) => sum + (parseInt(item[k]) || 0), 0)`. */
  function Total(rows: seq<Row>, k: string): int
    requires Summable(rows, k)
  {
    if rows == [] then 0 else NumberOf(rows[0], k) + Total(rows[1..], k)
  }

  /** `totalFollowers`. */
  function TotalFollowers(data: seq<Row>): int
    requires Summable(data, "followers")
  {
    if |data| > 0 then Total(data, "followers") else 0
  }

  /** `totalImpressions`. */
  function TotalImpressions(data: seq<Row>): int
    requires Summable(data, "impressions")
  {
    if |data| > 0 then Total(data, "impressions") else 0
  }

  /** A total is additive over concatenation. */
  lemma {:induction false} TotalAppend(a: seq<Row>, b: seq<Row>, k: string)
    requires Summable(a, k) && Summable(b, k)
    ensures Summable(a + b, k) && Total(a + b, k) == Total(a, k) + Total(b, k)
  {
    assert Summable(a + b, k) by {
      forall i | 0 <= i < |a + b| ensures NumericField((a + b)[i], k) {
        if i < |a| { assert (a + b)[i] == a[i]; } else { assert (a + b)[i] == b[i - |a|]; }
      }
    }
    if a != [] {
      assert (a + b)[1..] == a[1..] + b;
      assert Summable(a[1..], k) by {
        forall i | 0 <= i < |a[1..]| ensures NumericField(a[1..][i], k) { assert a[1..][i] == a[i + 1]; }
      }
      TotalAppend(a[1..], b, k);
    } else {
      assert a + b == b;
    }
  }

  /** The KPI cards sum every row: the length guard changes nothing, an
      empty data set gives 0, and one more row adds its own value. */
  lemma KpiTotals(data: seq<Row>, r: Row)
    requires Summable(data, "followers") && Summable(data, "impressions")
    requires NumericField(r, "followers") && NumericField(r, "impressions")
    ensures TotalFollowers(data) == Total(data, "followers")
    ensures TotalImpressions(data) == Total(data, "impressions")
    ensures TotalFollowers([]) == 0 && TotalImpressions([]) == 0
    ensures Summable(data + [r], "followers") && Summable(data + [r], "impressions")
    ensures TotalFollowers(data + [r]) == TotalFollowers(data) + NumberOf(r, "followers")
    ensures TotalImpressions(data + [r]) == TotalImpressions(data) + NumberOf(r, "impressions")
  {
    TotalAppend(data, [r], "followers");
    TotalAppend(data, [r], "impressions");
    assert [r][1..] == [];
  }

  // ---------------------------------------------------------------------
  // The filter

  /** A row passes when the selector is `"all"` or names its platform
      exactly, and its lower-cased platform includes the lower-cased search
      text. */
  predicate Passes(r: Row, selected: string, search: string)
    requires HasPlatform(r)
  {
    (selected == "all" || Platform(r) == selected) && Contains(Lower(Platform(r)), Lower(search))
  }

  /** `data.filter(...)` over rows that all have a platform. */
  function Keep(rows: seq<Row>, selected: string, search: string): seq<Row>
    requires AllHavePlatform(rows)
  {
    if rows == [] then []
    else if Passes(rows[0], selected, search) then [rows[0]] + Keep(rows[1..], selected, search)
    else Keep(rows[1..], selected, search)
  }

  /** `filteredData`: `None` when some row has no string platform, for
      which the page throws while rendering. */
  function FilteredData(data: seq<Row>, selected: string, search: string): Option<seq<Row>> {
    if AllHavePlatform(data) then Some(Keep(data, selected, search)) else None
  }

  /** The filter keeps exactly the passing rows, in their order. */
  lemma {:induction false} KeepSpec(rows: seq<Row>, selected: string, search: string)
    requires AllHavePlatform(rows)
    ensures AllHavePlatform(Keep(rows, selected, search))
    ensures forall r :: r in Keep(rows, selected, search) <==> r in rows && Passes(r, selected, search)
    ensures Subsequence(Keep(rows, selected, search), rows)
  {
    if rows != [] {
      KeepSpec(rows[1..], selected, search);
      assert rows == [rows[0]] + rows[1..];
      if Passes(rows[0], selected, search) {
        assert Keep(rows, selected, search)[1..] == Keep(rows[1..], selected, search);
      }
    }
  }

  /** Filtering distributes over concatenation: every passing occurrence is
      kept, in order. */
  lemma {:induction false} KeepAppend(a: seq<Row>, b: seq<Row>, selected: string, search: string)
    requires AllHavePlatform(a) && AllHavePlatform(b)
    ensures AllHavePlatform(a + b)
    ensures Keep(a + b, selected, search) == Keep(a, selected, search) + Keep(b, selected, search)
  {
    assert AllHavePlatform(a + b) by {
      forall i | 0 <= i < |a + b| ensures HasPlatform((a + b)[i]) {
        if i < |a| { assert (a + b)[i] == a[i]; } else { assert (a + b)[i] == b[i - |a|]; }
      }
    }
    if a != [] {
      assert (a + b)[0] == a[0];
      assert (a + b)[1..] == a[1..] + b;
      assert AllHavePlatform(a[1..]) by {
        forall i | 0 <= i < |a[1..]| ensures HasPlatform(a[1..][i]) { assert a[1..][i] == a[i + 1]; }
      }
      KeepAppend(a[1..], b, selected, search);
    } else {
      assert a + b == b;
    }
  }

  /** One row is kept iff it passes. */
  lemma KeepOne(r: Row, selected: string, search: string)
    requires HasPlatform(r)
    ensures Keep([r], selected, search) == if Passes(r, selected, search) then [r] else []
  {
    assert [r][1..] == [];
  }

  /** With selector `"all"` and an empty search the filter is the identity. */
  lemma {:induction false} KeepIdentity(rows: seq<Row>)
    requires AllHavePlatform(rows)
    ensures Keep(rows, "all", "") == rows
  {
    if rows != [] {
      ContainsTrivial(Lower(Platform(rows[0])));
      assert Lower("") == [];
      KeepIdentity(rows[1..]);
      assert [rows[0]] + rows[1..] == rows;
    }
  }

  /** A concrete selector keeps only rows of exactly that platform. */
  lemma SelectedPlatformOnly(rows: seq<Row>, selected: string, search: string)
    requires AllHavePlatform(rows) && selected != "all"
    ensures forall r :: r in Keep(rows, selected, search) ==> HasPlatform(r) && Platform(r) == selected
  {
    KeepSpec(rows, selected, search);
  }

  /** Filtering the filtered rows again changes nothing. */
  lemma {:induction false} KeepIdempotent(rows: seq<Row>, selected: string, search: string)
    requires AllHavePlatform(rows)
    ensures AllHavePlatform(Keep(rows, selected, search))
    ensures Keep(Keep(rows, selected, search), selected, search) == Keep(rows, selected, search)
  {
    KeepSpec(rows, selected, search);
    if rows != [] {
      KeepIdempotent(rows[1..], selected, search);
    }
  }

  // ---------------------------------------------------------------------
  // Chart series over the filtered rows

  /** One point of the follower-growth line chart. */
  datatype GrowthPoint = GrowthPoint(date: Option<Cell>, followers: Option<Cell>, platform: string)

  function Field(r: Row, k: string): Option<Cell> {
    if k in r then Some(r[k]) else None
  }

  /** `growthData`: one point per filtered row, in order, copying the row's
      date, followers and platform. */
  function GrowthData(rows: seq<Row>): (points: seq<GrowthPoint>)
    requires AllHavePlatform(rows)
    ensures |points| == |rows|
    ensures forall i :: 0 <= i < |rows| ==>
      points[i] == GrowthPoint(Field(rows[i], "date"), Field(rows[i], "followers"), Platform(rows[i]))
  {
    if rows == [] then []
    else [GrowthPoint(Field(rows[0], "date"), Field(rows[0], "followers"), Platform(rows[0]))] + GrowthData(rows[1..])
  }

  /** `filteredData.map(d => d.platform)`. */
  function Platforms(rows: seq<Row>): (ps: seq<string>)
    requires AllHavePlatform(rows)
    ensures |ps| == |rows| && forall i :: 0 <= i < |rows| ==> ps[i] == Platform(rows[i])
  {
    if rows == [] then [] else [Platform(rows[0])] + Platforms(rows[1..])
  }

  /** `Array.from(new Set(xs))`: each value once, at its first insertion. */
  function Distinct(xs: seq<string>): seq<string> {
    if xs == [] then []
    else
      var d := Distinct(xs[..|xs| - 1]);
      if xs[|xs| - 1] in d then d else d + [xs[|xs| - 1]]
  }

  /** The distinct values are exactly the values of `xs`, without duplicates,
      in the order of their first appearance in `xs`. */
  lemma {:induction false} DistinctSpec(xs: seq<string>)
    ensures forall x :: x in Distinct(xs) <==> x in xs
    ensures NoDuplicates(Distinct(xs))
    ensures forall i, j :: 0 <= i < j < |Distinct(xs)| ==>
      FirstIndex(xs, Distinct(xs)[i]) < FirstIndex(xs, Distinct(xs)[j])
  {
    if xs != [] {
      var n := |xs| - 1;
      var init := xs[..n];
      DistinctSpec(init);
      assert xs == init + [xs[n]];
      var d := Distinct(init);
      forall x | x in d ensures FirstIndex(xs, x) == FirstIndex(init, x) && FirstIndex(init, x) < n {
        FirstIndexPrefix(xs, n, x);
      }
      if xs[n] !in d {
        var d' := d + [xs[n]];
        assert xs[n] !in init;
        assert FirstIndex(xs, xs[n]) == n;
        forall i, j | 0 <= i < j < |d'|
          ensures FirstIndex(xs, d'[i]) < FirstIndex(xs, d'[j])
        {
          assert d'[i] == d[i];
          if j < |d| { assert d'[j] == d[j]; }
        }
      }
    }
  }

  /** `filteredData.filter(d => d.platform === platform)`. */
  function OfPlatform(rows: seq<Row>, p: string): seq<Row>
    requires AllHavePlatform(rows)
  {
    if rows == [] then []
    else if Platform(rows[0]) == p then [rows[0]] + OfPlatform(rows[1..], p)
    else OfPlatform(rows[1..], p)
  }

  /** The rows of one platform are a subsequence, all of that platform and
      all summable where the rows are. */
  lemma {:induction false} OfPlatformSpec(rows: seq<Row>, p: string, k: string)
    requires AllHavePlatform(rows)
    ensures AllHavePlatform(OfPlatform(rows, p))
    ensures forall r :: r in OfPlatform(rows, p) <==> r in rows && Platform(r) == p
    ensures Summable(rows, k) ==> Summable(OfPlatform(rows, p), k)
  {
    if rows != [] {
      OfPlatformSpec(rows[1..], p, k);
      assert rows == [rows[0]] + rows[1..];
    }
  }

  /** Selecting one platform's rows distributes over concatenation. */
  lemma {:induction false} OfPlatformAppend(a: seq<Row>, b: seq<Row>, p: string)
    requires AllHavePlatform(a) && AllHavePlatform(b)
    ensures AllHavePlatform(a + b)
    ensures OfPlatform(a + b, p) == OfPlatform(a, p) + OfPlatform(b, p)
  {
    assert AllHavePlatform(a + b) by {
      forall i | 0 <= i < |a + b| ensures HasPlatform((a + b)[i]) {
        if i < |a| { assert (a + b)[i] == a[i]; } else { assert (a + b)[i] == b[i - |a|]; }
      }
    }
    if a != [] {
      assert (a + b)[0] == a[0];
      assert (a + b)[1..] == a[1..] + b;
      assert AllHavePlatform(a[1..]) by {
        forall i | 0 <= i < |a[1..]| ensures HasPlatform(a[1..][i]) { assert a[1..][i] == a[i + 1]; }
      }
      OfPlatformAppend(a[1..], b, p);
    } else {
      assert a + b == b;
    }
  }

  /** One row is selected iff it has the platform. */
  lemma OfPlatformOne(r: Row, p: string)
    requires HasPlatform(r)
    ensures OfPlatform([r], p) == if Platform(r) == p then [r] else []
  {
    assert [r][1..] == [];
  }

  /** One bar or slice of a per-platform chart. */
  datatype SeriesPoint = SeriesPoint(platform: string, value: int)

  /** For each listed platform, the total of field `k` over its rows. */
  function Series(keys: seq<string>, rows: seq<Row>, k: string): (points: seq<SeriesPoint>)
    requires AllHavePlatform(rows) && Summable(rows, k)
    ensures |points| == |keys|
  {
    if keys == [] then []
    else
      OfPlatformSpec(rows, keys[0], k);
      [SeriesPoint(keys[0], Total(OfPlatform(rows, keys[0]), k))] + Series(keys[1..], rows, k)
  }

  /** Point `i` pairs the `i`-th listed platform with the total of field `k`
      over that platform's rows. */
  lemma {:induction false} SeriesAt(keys: seq<string>, rows: seq<Row>, k: string, i: nat)
    requires AllHavePlatform(rows) && Summable(rows, k) && i < |keys|
    ensures AllHavePlatform(OfPlatform(rows, keys[i])) && Summable(OfPlatform(rows, keys[i]), k)
    ensures Series(keys, rows, k)[i] == SeriesPoint(keys[i], Total(OfPlatform(rows, keys[i]), k))
  {
    OfPlatformSpec(rows, keys[i], k);
    if i > 0 {
      SeriesAt(keys[1..], rows, k, i - 1);
      assert keys[1..][i - 1] == keys[i];
    }
  }

  /** The distinct platforms of the filtered rows, in first-appearance order. */
  function ChartPlatforms(rows: seq<Row>): seq<string>
    requires AllHavePlatform(rows)
  {
    Distinct(Platforms(rows))
  }

  /** `reachData`: summed reach per platform (the slice colours are display). */
  function ReachData(rows: seq<Row>): seq<SeriesPoint>
    requires AllHavePlatform(rows) && Summable(rows, "reach")
  {
    Series(ChartPlatforms(rows), rows, "reach")
  }

  /** `postsData`: summed posts per platform. */
  function PostsData(rows: seq<Row>): seq<SeriesPoint>
    requires AllHavePlatform(rows) && Summable(rows, "posts")
  {
    Series(ChartPlatforms(rows), rows, "posts")
  }

  /** One bar of the engagement chart: the rows whose engagement is averaged;
      the floating-point mean itself is not modelled. */
  datatype EngagementGroup = EngagementGroup(platform: string, rows: seq<Row>)

  /** `engagementData`, up to the mean taken over each group. */
  function EngagementData(rows: seq<Row>): (groups: seq<EngagementGroup>)
    requires AllHavePlatform(rows)
  {
    var ps := ChartPlatforms(rows);
    seq(|ps|, i requires 0 <= i < |ps| => EngagementGroup(ps[i], OfPlatform(rows, ps[i])))
  }

  function SeriesSum(points: seq<SeriesPoint>): int {
    if points == [] then 0 else points[0].value + SeriesSum(points[1..])
  }

  /** The chart lists each platform of the filtered rows exactly once, in
      order of first appearance, and no other. */
  lemma ChartPlatformsSpec(rows: seq<Row>)
    requires AllHavePlatform(rows)
    ensures forall p :: p in ChartPlatforms(rows) <==> p in Platforms(rows)
    ensures NoDuplicates(ChartPlatforms(rows))
    ensures forall p :: p in ChartPlatforms(rows) <==> exists i :: 0 <= i < |rows| && Platform(rows[i]) == p
    ensures forall i, j :: 0 <= i < j < |ChartPlatforms(rows)| ==>
      FirstIndex(Platforms(rows), ChartPlatforms(rows)[i]) < FirstIndex(Platforms(rows), ChartPlatforms(rows)[j])
  {
    var ps := Platforms(rows);
    DistinctSpec(ps);
    forall p ensures p in ps <==> exists i :: 0 <= i < |rows| && Platform(rows[i]) == p {
      if p in ps {
        var i :| 0 <= i < |ps| && ps[i] == p;
        assert Platform(rows[i]) == p;
      }
    }
  }

  /** The rows of a listed platform: at least one, all of that platform. */
  lemma OfChartPlatform(rows: seq<Row>, p: string)
    requires AllHavePlatform(rows) && p in ChartPlatforms(rows)
    ensures |OfPlatform(rows, p)| >= 1 && AllHavePlatform(OfPlatform(rows, p))
    ensures forall m :: 0 <= m < |OfPlatform(rows, p)| ==> Platform(OfPlatform(rows, p)[m]) == p
  {
    ChartPlatformsSpec(rows);
    OfPlatformSpec(rows, p, "");
    var i :| 0 <= i < |rows| && Platform(rows[i]) == p;
    assert rows[i] in OfPlatform(rows, p);
    forall m | 0 <= m < |OfPlatform(rows, p)| ensures Platform(OfPlatform(rows, p)[m]) == p {
      assert OfPlatform(rows, p)[m] in OfPlatform(rows, p);
    }
  }

  /** Every engagement group is non-empty, so its mean never divides by zero,
      and holds only rows of its platform. */
  lemma EngagementDenominators(rows: seq<Row>)
    requires AllHavePlatform(rows)
    ensures forall g :: g in EngagementData(rows) ==>
      |g.rows| >= 1 && AllHavePlatform(g.rows) && forall i :: 0 <= i < |g.rows| ==> Platform(g.rows[i]) == g.platform
  {
    var groups := EngagementData(rows);
    forall g | g in groups
      ensures |g.rows| >= 1 && AllHavePlatform(g.rows) && forall i :: 0 <= i < |g.rows| ==> Platform(g.rows[i]) == g.platform
    {
      var n :| 0 <= n < |groups| && groups[n] == g;
      OfChartPlatform(rows, ChartPlatforms(rows)[n]);
    }
  }

  /** Removing the first row of the data removes its value from exactly the
      one series point of its platform, if that platform is listed. */
  lemma {:induction false} SeriesSumCons(keys: seq<string>, rows: seq<Row>, k: string)
    requires rows != [] && AllHavePlatform(rows) && Summable(rows, k) && NoDuplicates(keys)
    ensures SeriesSum(Series(keys, rows, k)) ==
      (if Platform(rows[0]) in keys then NumberOf(rows[0], k) else 0) + SeriesSum(Series(keys, rows[1..], k))
  {
    if keys != [] {
      assert NoDuplicates(keys[1..]) by {
        forall i, j | 0 <= i < j < |keys[1..]| ensures keys[1..][i] != keys[1..][j] {
          assert keys[1..][i] == keys[i + 1] && keys[1..][j] == keys[j + 1];
        }
      }
      SeriesSumCons(keys[1..], rows, k);
      var q := Platform(rows[0]);
      OfPlatformSpec(rows[1..], keys[0], k);
      assert Total(OfPlatform(rows, keys[0]), k) ==
        (if q == keys[0] then NumberOf(rows[0], k) else 0) + Total(OfPlatform(rows[1..], keys[0]), k) by {
        if q == keys[0] {
          assert OfPlatform(rows, keys[0])[1..] == OfPlatform(rows[1..], keys[0]);
        }
      }
      assert q == keys[0] ==> q !in keys[1..];
      assert (q in keys) == (q == keys[0] || q in keys[1..]) by {
        assert keys == [keys[0]] + keys[1..];
      }
    }
  }

  /** The per-platform totals partition the total: over a duplicate-free list
      of platforms that covers every row, the series sums to the total of
      the rows. */
  lemma {:induction false} SeriesPartition(keys: seq<string>, rows: seq<Row>, k: string)
    requires AllHavePlatform(rows) && Summable(rows, k) && NoDuplicates(keys)
    requires forall i :: 0 <= i < |rows| ==> Platform(rows[i]) in keys
    ensures SeriesSum(Series(keys, rows, k)) == Total(rows, k)
  {
    if rows == [] {
      SeriesOfNoRows(keys, k);
    } else {
      SeriesSumCons(keys, rows, k);
      SeriesPartition(keys, rows[1..], k);
    }
  }

  /** Over no rows every series point is 0. */
  lemma {:induction false} SeriesOfNoRows(keys: seq<string>, k: string)
    ensures SeriesSum(Series(keys, [], k)) == 0
  {
    if keys != [] {
      SeriesOfNoRows(keys[1..], k);
    }
  }

  /** The reach slices sum to the total reach of the filtered rows, and the
      posts bars to their total posts. */
  lemma ChartPartition(rows: seq<Row>)
    requires AllHavePlatform(rows) && Summable(rows, "reach") && Summable(rows, "posts")
    ensures SeriesSum(ReachData(rows)) == Total(rows, "reach")
    ensures SeriesSum(PostsData(rows)) == Total(rows, "posts")
  {
    ChartPlatformsSpec(rows);
    forall i | 0 <= i < |rows| ensures Platform(rows[i]) in ChartPlatforms(rows) {
    }
    SeriesPartition(ChartPlatforms(rows), rows, "reach");
    SeriesPartition(ChartPlatforms(rows), rows, "posts");
  }

  // ---------------------------------------------------------------------
  // The page state and the fetch that replaces it

  /** A notification raised on the page. */
  datatype Toast = Toast(title: string, description: string, destructive: bool)

  /** The one notification a failed fetch raises. */
  const FetchFailedToast: Toast := Toast("Error", "Failed to fetch analytics data. Retrying...", true)

  /** What invoking the backend function hands back: an `error`, or a
      response whose `data` field may be missing. */
  datatype Invocation = InvokeError | InvokeOk(payload: Option<seq<Row>>)

  /** How the client reports a backend response: a non-2xx status becomes
      an `error`; otherwise the body's `data` field, if any. */
  function Invoke(resp: Response): Invocation {
    if 200 <= resp.status < 300 then
      InvokeOk(if resp.body.DataBody? then Some(resp.body.data) else None)
    else InvokeError
  }

  /** The dashboard component's state. */
  class DashboardPage {
    var data: seq<Row>
    var loading: bool
    var selectedPlatform: string
    var searchTerm: string
    var toasts: seq<Toast>

    /** The initial `useState` values. */
    constructor ()
      ensures data == [] && loading && selectedPlatform == "all" && searchTerm == "" && toasts == []
    {
      data := [];
      loading := true;
      selectedPlatform := "all";
      searchTerm := "";
      toasts := [];
    }

    /** The rows the table and the charts show. */
    function Filtered(): Option<seq<Row>>
      reads this
    {
      FilteredData(data, selectedPlatform, searchTerm)
    }

    /** `fetchData` given the outcome of the invocation: data replaces the
        rows wholesale and ends loading; an error leaves the rows and the
        loading flag alone and raises one toast; a missing `data` field
        changes nothing. */
    method FetchData(outcome: Invocation)
      modifies this
      ensures selectedPlatform == old(selectedPlatform) && searchTerm == old(searchTerm)
      ensures outcome.InvokeError? ==>
        data == old(data) && loading == old(loading) && toasts == old(toasts) + [FetchFailedToast]
      ensures outcome.InvokeOk? && outcome.payload.Some? ==>
        data == outcome.payload.value && !loading && toasts == old(toasts)
      ensures outcome.InvokeOk? && outcome.payload.None? ==>
        data == old(data) && loading == old(loading) && toasts == old(toasts)
    {
      match outcome
      case InvokeError =>
        toasts := toasts + [FetchFailedToast];
      case InvokeOk(payload) =>
        if payload.Some? {
          data := payload.value;
          loading := false;
        }
    }

    /** One poll cycle end to end: the backend answers for the upstream
        outcome and the page applies the answer. A failed cycle keeps the
        displayed rows and raises exactly one toast. */
    method Poll(upstream: Upstream)
      modifies this
      ensures selectedPlatform == old(selectedPlatform) && searchTerm == old(searchTerm)
      ensures Handle(upstream).status == 500 ==>
        data == old(data) && loading == old(loading) && toasts == old(toasts) + [FetchFailedToast]
      ensures Handle(upstream).status == 200 ==>
        data == Handle(upstream).body.data && !loading && toasts == old(toasts)
    {
      FetchData(Invoke(Handle(upstream)));
    }

    /** The platform selector's change handler. */
    method SelectPlatform(p: string)
      modifies this`selectedPlatform
      ensures selectedPlatform == p
      ensures Filtered() == FilteredData(data, p, searchTerm)
    {
      selectedPlatform := p;
    }

    /** The search box's change handler. */
    method Search(term: string)
      modifies this`searchTerm
      ensures searchTerm == term
      ensures Filtered() == FilteredData(data, selectedPlatform, term)
    {
      searchTerm := term;
    }
  }
}
