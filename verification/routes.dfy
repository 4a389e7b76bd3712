/** The chart and statistics handlers: each fetches the history list (here a
    parameter), flattens it, runs one aggregation and, for the graph
    routes, computes the bar chart of the resulting table. */
module Routes {
  import opened Records
  import opened Text
  import opened Grouping
  import opened Sorting
  import opened Charts
  import opened Products
  import opened Months
  import opened Popular

  /** Grouping by name yields a row exactly when there is a record. */
  lemma NameGroupsEmpty(rs: seq<FlatRecord>)
    ensures |NameGroups(rs)| == 0 <==> |rs| == 0
  {
    NameGroupsSums(rs);
    if |rs| > 0 {
      assert rs[0].name in Keys(NameGroups(rs));
    }
  }

  /** Rows that are a permutation of a table are empty exactly when the
      table is. */
  lemma PermutationEmpty<T>(a: seq<T>, b: seq<T>)
    requires multiset(a) == multiset(b)
    ensures |a| == 0 <==> |b| == 0
  {
    assert |a| == |multiset(a)| == |multiset(b)| == |b|;
  }

  /** The month filter keeps a record exactly when some record has month `m`. */
  lemma InMonthEmpty(rs: seq<FlatRecord>, m: int)
    ensures |InMonth(rs, m)| > 0 <==> exists r :: r in rs && MonthNum(r) == Some(m)
  {
    WhereMembers(rs, (r: FlatRecord) => MonthNum(r) == Some(m));
    if |InMonth(rs, m)| > 0 {
      assert InMonth(rs, m)[0] in InMonth(rs, m);
    }
  }

  /** The month and year filters keep a record exactly when some record has
      month `m` of year `y`. */
  lemma InMonthOfYearEmpty(rs: seq<FlatRecord>, m: int, y: int)
    ensures |InYear(InMonth(rs, m), y)| > 0 <==>
            exists r :: r in rs && MonthNum(r) == Some(m) && YearNum(r) == Some(y)
  {
    WhereMembers(rs, (r: FlatRecord) => MonthNum(r) == Some(m));
    WhereMembers(InMonth(rs, m), (r: FlatRecord) => YearNum(r) == Some(y));
    var t := InYear(InMonth(rs, m), y);
    if |t| > 0 {
      assert t[0] in t;
    }
  }

  /** `/graph/top10mostselling`: the top-10 table drawn as bars. */
  method TopTenMostSellingGraph(hs: seq<History>) returns (r: Result<Chart>)
    ensures r.Err? <==> |hs| == 0
    ensures r.Err? ==> r.error == MissingProductColumn
    ensures r.Ok? ==> 1 <= |r.value.bars| <= 10
    ensures r.Ok? ==> multiset(r.value.bars) == multiset(Head(NameGroups(Flatten(hs).value), 10))
    ensures r.Ok? ==> Ordered(r.value.bars, SoldKey, true)
    ensures r.Ok? ==> |r.value.bars| > 0 && r.value.yBottom == 0 && r.value.yTop == YLimit(MaxTotal(r.value.bars))
  {
    var flat := Flatten(hs);
    if flat.Err? {
      return Err(flat.error);
    }
    var rows := TopTen(flat.value);
    NameGroupsEmpty(flat.value);
    PermutationEmpty(rows, Head(NameGroups(flat.value), 10));
    r := BarChart(rows);
  }

  /** The distinct (_id, name) pairs of the history. */
  function ProductKeys(hs: seq<History>): set<(string, string)>
  {
    set h | h in hs :: (h.product.id, h.product.name)
  }

  /** There is one ranked row per distinct (_id, name) pair of the history. */
  lemma RankedCount(hs: seq<History>, dayOf: string -> int)
    requires |hs| > 0
    ensures |DatedGroups(Flatten(hs).value, dayOf)| == |ProductKeys(hs)|
  {
    var rs := Flatten(hs).value;
    var items := ProductItems(rs);
    ProductGroupsCount(rs);
    forall k
      ensures k in ItemKeys(items) <==> k in ProductKeys(hs)
    {
      if k in ItemKeys(items) {
        var it :| it in items && it.0 == k;
        var i :| 0 <= i < |items| && items[i] == it;
        assert NestOf(rs[i]) == hs[i];
        assert hs[i] in hs;
      }
      if k in ProductKeys(hs) {
        var h :| h in hs && (h.product.id, h.product.name) == k;
        var i :| 0 <= i < |hs| && hs[i] == h;
        assert NestOf(rs[i]) == hs[i];
        assert items[i] in items;
      }
    }
    assert ItemKeys(items) == ProductKeys(hs);
  }

  /** Every ranked row is dated by some record of the history, so a lower
      bound on the record dates bounds the ranked dates too. */
  lemma RankedDays(hs: seq<History>, dayOf: string -> int, ranked: seq<Dated>, earliest: int)
    requires |hs| > 0
    requires IsRanking(ranked, Flatten(hs).value, dayOf)
    requires forall i :: 0 <= i < |hs| ==> dayOf(DatePart(hs[i].date)) >= earliest
    ensures forall d :: d in ranked ==> exists i :: 0 <= i < |hs| && d.day == dayOf(DatePart(hs[i].date))
    ensures forall d :: d in ranked ==> d.day >= earliest
  {
    var rs := Flatten(hs).value;
    var dated := DatedGroups(rs, dayOf);
    forall d | d in ranked
      ensures exists i :: 0 <= i < |hs| && d.day == dayOf(DatePart(hs[i].date))
      ensures d.day >= earliest
    {
      assert d in multiset(dated);
      var i :| 0 <= i < |dated| && dated[i] == d;
      DatedGroupsAt(rs, dayOf, i);
      assert NestOf(rs[i]) == hs[i];
      assert d.day == dayOf(DatePart(hs[i].date));
    }
  }

  /** The window search over the ranked history ends with `rows` after
      some number of weeks, for some ranking (rows of equal quantity may be
      ranked either way). */
  ghost predicate PopularFound(hs: seq<History>, today: int, floor: int, dayOf: string -> int, rows: seq<Dated>)
  {
    |hs| > 0 &&
    exists ranked, w: nat :: IsRanking(ranked, Flatten(hs).value, dayOf) &&
                             WindowOutcome(ranked, today, floor, Found(rows, w))
  }

  /** The window search over the ranked history moves the cutoff past
      `floor` without finding five rows. */
  ghost predicate PopularOutOfRange(hs: seq<History>, today: int, floor: int, dayOf: string -> int)
  {
    |hs| > 0 &&
    exists ranked :: IsRanking(ranked, Flatten(hs).value, dayOf) && WindowOutcome(ranked, today, floor, OutOfRange)
  }

  /** The first cutoff and every record date lie at least a week after
      `floor`. */
  predicate DatesInRange(hs: seq<History>, today: int, floor: int, dayOf: string -> int)
  {
    today - 7 >= floor && forall i :: 0 <= i < |hs| ==> dayOf(DatePart(hs[i].date)) >= floor + 7
  }

  /** `popular_products` over a history list, where `floor` is the earliest
      cutoff the date arithmetic represents: the five rows of the first
      window holding five ranked rows, or `DateOutOfRange` when the cutoff
      moves past `floor` first. That always happens with fewer than five
      distinct products, and never with five or more when today and every
      record date lie at least a week after `floor`. */
  method PopularRows(hs: seq<History>, today: int, floor: int, dayOf: string -> int)
    returns (r: Result<seq<Dated>>)
    ensures |hs| == 0 ==> r == Err(MissingProductColumn)
    ensures |hs| > 0 && r.Err? ==> r.error == DateOutOfRange && PopularOutOfRange(hs, today, floor, dayOf)
    ensures r.Ok? ==> PopularFound(hs, today, floor, dayOf, r.value)
    ensures r.Ok? ==> |r.value| == 5 && Ordered(r.value, DatedSold, true)
    ensures r.Ok? ==> forall d :: d in r.value ==> d in DatedGroups(Flatten(hs).value, dayOf)
    ensures |hs| > 0 && |ProductKeys(hs)| < 5 ==> r == Err(DateOutOfRange)
    ensures |hs| > 0 && |ProductKeys(hs)| >= 5 && DatesInRange(hs, today, floor, dayOf) ==> r.Ok?
  {
    var flat := Flatten(hs);
    if flat.Err? {
      return Err(flat.error);
    }
    var out, ranked := PopularProducts(flat.value, today, floor, dayOf);
    RankedCount(hs, dayOf);
    assert |ranked| == |multiset(ranked)| == |multiset(DatedGroups(flat.value, dayOf))|;
    if |ProductKeys(hs)| < 5 {
      NeverFive(ranked, today, floor, out);
    }
    if |ProductKeys(hs)| >= 5 && DatesInRange(hs, today, floor, dayOf) {
      RankedDays(hs, dayOf, ranked, floor + 7);
      FoundInRange(ranked, today, floor, out);
    }
    if out.OutOfRange? {
      return Err(DateOutOfRange);
    }
    WindowRows(ranked, today, floor, out);
    forall d | d in out.rows
      ensures d in DatedGroups(flat.value, dayOf)
    {
      assert d in multiset(ranked);
    }
    r := Ok(out.rows);
  }

  /** `/popular`: the popular rows as JSON records. */
  method PopularDetails(hs: seq<History>, today: int, floor: int, dayOf: string -> int)
    returns (r: Result<seq<Dated>>)
    ensures |hs| == 0 ==> r == Err(MissingProductColumn)
    ensures |hs| > 0 && r.Err? ==> r.error == DateOutOfRange && PopularOutOfRange(hs, today, floor, dayOf)
    ensures r.Ok? ==> PopularFound(hs, today, floor, dayOf, r.value)
    ensures r.Ok? ==> |r.value| == 5 && Ordered(r.value, DatedSold, true)
    ensures r.Ok? ==> forall d :: d in r.value ==> d in DatedGroups(Flatten(hs).value, dayOf)
    ensures |hs| > 0 && |ProductKeys(hs)| < 5 ==> r == Err(DateOutOfRange)
    ensures |hs| > 0 && |ProductKeys(hs)| >= 5 && DatesInRange(hs, today, floor, dayOf) ==> r.Ok?
  {
    r := PopularRows(hs, today, floor, dayOf);
  }

  /** The bar of a popular row: its name and quantity sold. */
  function Bar(d: Dated): Group<string>
  {
    Group(d.name, d.total)
  }

  /** The bars of the popular rows, one per row in order. */
  function Bars(rows: seq<Dated>): (bars: seq<Group<string>>)
    ensures |bars| == |rows|
    ensures Ordered(rows, DatedSold, true) ==> Ordered(bars, SoldKey, true)
  {
    seq(|rows|, i requires 0 <= i < |rows| => Bar(rows[i]))
  }

  /** `/graph/popular`: the popular rows drawn as bars. */
  method PopularGraph(hs: seq<History>, today: int, floor: int, dayOf: string -> int)
    returns (r: Result<Chart>)
    ensures |hs| == 0 ==> r == Err(MissingProductColumn)
    ensures |hs| > 0 && r.Err? ==> r.error == DateOutOfRange && PopularOutOfRange(hs, today, floor, dayOf)
    ensures r.Ok? ==> exists rows :: PopularFound(hs, today, floor, dayOf, rows) && r.value.bars == Bars(rows)
    ensures r.Ok? ==> |r.value.bars| == 5 && Ordered(r.value.bars, SoldKey, true)
    ensures |hs| > 0 && |ProductKeys(hs)| < 5 ==> r == Err(DateOutOfRange)
    ensures |hs| > 0 && |ProductKeys(hs)| >= 5 && DatesInRange(hs, today, floor, dayOf) ==> r.Ok?
    ensures r.Ok? ==> |r.value.bars| > 0 && r.value.yBottom == 0 && r.value.yTop == YLimit(MaxTotal(r.value.bars))
  {
    var rows := PopularRows(hs, today, floor, dayOf);
    if rows.Err? {
      return Err(rows.error);
    }
    r := BarChart(Bars(rows.value));
  }

  /** `/graph/top10thismonth` for today's year `y` and month `m`: both date
      columns must be integers, the month's name is looked up for the title,
      and the chart needs at least one record of that month and year. */
  method TopThisMonthGraph(hs: seq<History>, y: int, m: int) returns (r: Result<Chart>)
    ensures r.Ok? <==>
      && |hs| > 0
      && FieldParses(Flatten(hs).value, 1) && FieldParses(Flatten(hs).value, 0)
      && 1 <= m <= 12
      && exists f :: f in Flatten(hs).value && MonthNum(f) == Some(m) && YearNum(f) == Some(y)
    ensures |hs| == 0 ==> r == Err(MissingProductColumn)
    ensures |hs| > 0 && !(FieldParses(Flatten(hs).value, 1) && FieldParses(Flatten(hs).value, 0)) ==>
      r == Err(NotAnInteger)
    ensures |hs| > 0 && FieldParses(Flatten(hs).value, 1) && FieldParses(Flatten(hs).value, 0) && !(1 <= m <= 12) ==>
      r == Err(UnknownMonth)
    ensures r.Err? && 1 <= m <= 12 && |hs| > 0 && FieldParses(Flatten(hs).value, 1) && FieldParses(Flatten(hs).value, 0) ==>
      r == Err(EmptyChart)
    ensures r.Ok? ==> 1 <= |r.value.bars| <= 10 && Ordered(r.value.bars, SoldKey, true)
    ensures r.Ok? ==>
      multiset(r.value.bars) == multiset(Head(NameGroups(InYear(InMonth(Flatten(hs).value, m), y)), 10))
    ensures r.Ok? ==> |r.value.bars| > 0 && r.value.yBottom == 0 && r.value.yTop == YLimit(MaxTotal(r.value.bars))
  {
    var flat := Flatten(hs);
    if flat.Err? {
      return Err(flat.error);
    }
    var rows := ThisMonth(flat.value, y, m);
    if rows.Err? {
      return Err(rows.error);
    }
    if MonthName(m).None? {
      return Err(UnknownMonth);
    }
    var kept := InYear(InMonth(flat.value, m), y);
    InMonthOfYearEmpty(flat.value, m, y);
    NameGroupsEmpty(kept);
    PermutationEmpty(rows.value, Head(NameGroups(kept), 10));
    r := BarChart(rows.value);
  }

  /** `/graph/month/<month>`: the path parameter must be an integer, the
      date month column must be integers, the month's name is looked up for
      the title, and the chart needs at least one record of that month. */
  method GivenMonthGraph(month: string, hs: seq<History>) returns (r: Result<Chart>)
    ensures r.Ok? <==>
      && ParseInt(month).Some?
      && |hs| > 0
      && FieldParses(Flatten(hs).value, 1)
      && 1 <= ParseInt(month).value <= 12
      && exists f :: f in Flatten(hs).value && MonthNum(f) == ParseInt(month)
    ensures ParseInt(month).None? ==> r == Err(NotAnInteger)
    ensures ParseInt(month).Some? && |hs| == 0 ==> r == Err(MissingProductColumn)
    ensures ParseInt(month).Some? && |hs| > 0 && !FieldParses(Flatten(hs).value, 1) ==> r == Err(NotAnInteger)
    ensures ParseInt(month).Some? && |hs| > 0 && FieldParses(Flatten(hs).value, 1) && !(1 <= ParseInt(month).value <= 12) ==>
      r == Err(UnknownMonth)
    ensures r.Err? && ParseInt(month).Some? && 1 <= ParseInt(month).value <= 12 && |hs| > 0 && FieldParses(Flatten(hs).value, 1) ==>
      r == Err(EmptyChart)
    ensures r.Ok? ==>
      multiset(r.value.bars) == multiset(NameGroups(InMonth(Flatten(hs).value, ParseInt(month).value)))
    ensures r.Ok? ==> Ordered(r.value.bars, SoldKey, true)
    ensures r.Ok? ==> |r.value.bars| > 0 && r.value.yBottom == 0 && r.value.yTop == YLimit(MaxTotal(r.value.bars))
  {
    var m := ParseInt(month);
    if m.None? {
      return Err(NotAnInteger);
    }
    var flat := Flatten(hs);
    if flat.Err? {
      return Err(flat.error);
    }
    var rows := GivenMonth(flat.value, m.value);
    if rows.Err? {
      return Err(rows.error);
    }
    if MonthName(m.value).None? {
      return Err(UnknownMonth);
    }
    InMonthEmpty(flat.value, m.value);
    NameGroupsEmpty(InMonth(flat.value, m.value));
    PermutationEmpty(rows.value, NameGroups(InMonth(flat.value, m.value)));
    r := BarChart(rows.value);
  }

  /** `/graph/monthlysell`: the twelve monthly totals drawn under the
      labels Jan to Dec. */
  method MonthlySellGraph(hs: seq<History>) returns (r: Result<Chart>)
    ensures r.Ok? <==> |hs| > 0 && FieldParses(Flatten(hs).value, 1) && |MonthGroups(Flatten(hs).value)| == 12
    ensures |hs| == 0 ==> r == Err(MissingProductColumn)
    ensures |hs| > 0 && !FieldParses(Flatten(hs).value, 1) ==> r == Err(NotAnInteger)
    ensures r.Err? && |hs| > 0 && FieldParses(Flatten(hs).value, 1) ==> r == Err(LabelCountMismatch)
    ensures r.Ok? ==> |r.value.bars| == 12
    ensures r.Ok? ==> forall i :: 0 <= i < 12 ==>
      r.value.bars[i] == Group(MonthLabels[i], MonthGroups(Flatten(hs).value)[i].total)
    ensures r.Ok? ==> |r.value.bars| > 0 && r.value.yBottom == 0 && r.value.yTop == YLimit(MaxTotal(r.value.bars))
  {
    var flat := Flatten(hs);
    if flat.Err? {
      return Err(flat.error);
    }
    var rows := MonthlySell(flat.value);
    if rows.Err? {
      return Err(rows.error);
    }
    r := BarChart(rows.value);
  }
}
