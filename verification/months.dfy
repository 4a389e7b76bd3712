/** The month and year columns taken from the date string, the month and
    year filters, the month-name table, and the monthly totals with their
    twelve positional labels. */
module Months {
  import opened Records
  import opened Text
  import opened Grouping
  import opened Sorting
  import opened Products

  /** Field `i` of the date split on "-", cast to an integer: field 0 is the
      year, field 1 the month. A value exists only when the date has more
      than `i` fields and that field is an integer. */
  function DateField(r: FlatRecord, i: nat): (d: Option<int>)
    ensures d.Some? <==> i < |Split(r.date, '-')| && ParseInt(Split(r.date, '-')[i]).Some?
    ensures d.Some? ==> d == ParseInt(Split(r.date, '-')[i])
  {
    match Field(r.date, '-', i)
    case None => None
    case Some(f) => ParseInt(f)
  }

  /** The `month_num` column: the second "-" field as an integer. */
  function MonthNum(r: FlatRecord): (m: Option<int>)
    ensures m.Some? <==> |Split(r.date, '-')| >= 2 && ParseInt(Split(r.date, '-')[1]).Some?
    ensures m.Some? ==> m == ParseInt(Split(r.date, '-')[1])
  {
    DateField(r, 1)
  }

  /** The `year_num` column: the first "-" field as an integer. */
  function YearNum(r: FlatRecord): (y: Option<int>)
    ensures y.Some? <==> ParseInt(Split(r.date, '-')[0]).Some?
    ensures y.Some? ==> y == ParseInt(Split(r.date, '-')[0])
  {
    DateField(r, 0)
  }

  /** `astype({column: 'int'})` succeeds only when field `i` of every row is
      present and is an integer; in particular every date then has more than
      `i` fields. */
  predicate FieldParses(rs: seq<FlatRecord>, i: nat): (ok: bool)
    ensures ok ==> forall j :: 0 <= j < |rs| ==> i < |Split(rs[j].date, '-')|
  {
    assert forall j :: 0 <= j < |rs| ==> rs[j] in rs;
    forall r :: r in rs ==> DateField(r, i).Some?
  }

  /** `df[df['month_num'] == m]`: only records of month `m` remain. */
  function InMonth(rs: seq<FlatRecord>, m: int): (kept: seq<FlatRecord>)
    ensures |kept| <= |rs|
    ensures forall r :: r in kept ==> r in rs && MonthNum(r) == Some(m)
  {
    WhereMembers(rs, (r: FlatRecord) => MonthNum(r) == Some(m));
    Where(rs, (r: FlatRecord) => MonthNum(r) == Some(m))
  }

  /** `df[df['year_num'] == y]`: only records of year `y` remain. */
  function InYear(rs: seq<FlatRecord>, y: int): (kept: seq<FlatRecord>)
    ensures |kept| <= |rs|
    ensures forall r :: r in kept ==> r in rs && YearNum(r) == Some(y)
  {
    WhereMembers(rs, (r: FlatRecord) => YearNum(r) == Some(y));
    Where(rs, (r: FlatRecord) => YearNum(r) == Some(y))
  }

  /** The month filter keeps exactly the records of month `m` (of any year),
      each as often as it occurs. */
  lemma InMonthExact(rs: seq<FlatRecord>, m: int)
    ensures forall r :: multiset(InMonth(rs, m))[r] == if MonthNum(r) == Some(m) then multiset(rs)[r] else 0
  {
  }

  /** The month filter followed by the year filter keeps exactly the records
      of month `m` of year `y`. */
  lemma InMonthOfYearExact(rs: seq<FlatRecord>, m: int, y: int)
    ensures forall r :: multiset(InYear(InMonth(rs, m), y))[r] ==
                        if MonthNum(r) == Some(m) && YearNum(r) == Some(y) then multiset(rs)[r] else 0
  {
  }

  lemma DateSplitExample()
    ensures Split("2024-03-05", '-') == ["2024", "03", "05"]
  {
    var fields := ["2024", "03", "05"];
    assert fields[1..] == ["03", "05"] && fields[1..][1..] == ["05"];
    assert Join(["05"], '-') == "05";
    assert Join(["03", "05"], '-') == "03-05";
    assert Join(fields, '-') == "2024-03-05";
    SplitJoin(fields, '-');
  }

  lemma DateParseExample()
    ensures ParseInt("03") == Some(3) && ParseInt("2024") == Some(2024)
  {
    assert Show(3) == "3";
    DigitsShow(3);
    LeadingZero("3");
    assert "0" + "3" == "03";
    assert Show(2) == "2" && Show(20) == "20" && Show(202) == "202" && Show(2024) == "2024";
    ParseShow(2024);
  }

  /** The MONTHS table: month number to month name. */
  function MonthName(m: int): (name: Option<string>)
    ensures name.Some? <==> 1 <= m <= 12
  {
    if m == 1 then Some("January")
    else if m == 2 then Some("February")
    else if m == 3 then Some("March")
    else if m == 4 then Some("April")
    else if m == 5 then Some("May")
    else if m == 6 then Some("June")
    else if m == 7 then Some("July")
    else if m == 8 then Some("August")
    else if m == 9 then Some("September")
    else if m == 10 then Some("October")
    else if m == 11 then Some("November")
    else if m == 12 then Some("December")
    else None
  }

  /** The labels the monthly chart assigns to its rows, by position. */
  const MonthLabels: seq<string> :=
    ["Jan", "Feb", "Mar", "Apr", "May", "June", "July", "Aug", "Sept", "Oct", "Nov", "Dec"]

  /** Each positional label abbreviates the name the month-name table gives
      the month of that position. */
  lemma MonthLabelsAbbreviate()
    ensures |MonthLabels| == 12
    ensures forall i :: 0 <= i < 12 ==> MonthLabels[i] <= MonthName(i + 1).value
  {
  }

  /** The (month_num, quantity) columns. */
  function MonthItems(rs: seq<FlatRecord>): (items: seq<(int, nat)>)
    requires FieldParses(rs, 1)
    ensures |items| == |rs|
  {
    seq(|rs|, i requires 0 <= i < |rs| => (assert rs[i] in rs; (MonthNum(rs[i]).value, rs[i].quantity)))
  }

  /** `groupby("month_num")['quantity'].sum().reset_index()`. */
  function MonthGroups(rs: seq<FlatRecord>): (gs: seq<Group<int>>)
    requires FieldParses(rs, 1)
    ensures Ascending(gs, IntLess)
  {
    IntLessOrder();
    GroupSum(MonthItems(rs), IntLess)
  }

  lemma {:induction false} MonthItemsQuantity(rs: seq<FlatRecord>)
    requires FieldParses(rs, 1)
    ensures SumQuantities(MonthItems(rs)) == Quantity(rs)
  {
    if |rs| > 0 {
      assert FieldParses(rs[1..], 1) by {
        forall r | r in rs[1..] ensures DateField(r, 1).Some? {
          assert r in rs;
        }
      }
      assert MonthItems(rs)[1..] == MonthItems(rs[1..]);
      MonthItemsQuantity(rs[1..]);
    }
  }

  /** The monthly totals add up to the total quantity sold. */
  lemma MonthTotalsSum(rs: seq<FlatRecord>)
    requires FieldParses(rs, 1)
    ensures SumTotals(MonthGroups(rs)) == Quantity(rs)
  {
    MonthItemsQuantity(rs);
  }

  /** The sort key `month_num`. */
  function MonthKey(g: Group<int>): int
  {
    g.key
  }

  /** A sorted permutation of groups with ascending keys starts with the
      same group. */
  lemma SortedAscendingFirst(a: seq<Group<int>>, b: seq<Group<int>>)
    requires Ascending(a, IntLess)
    requires Ordered(b, MonthKey, false)
    requires multiset(a) == multiset(b)
    requires |a| > 0
    ensures |b| > 0 && a[0] == b[0]
  {
    assert a[0] in multiset(b);
    var j :| 0 <= j < |b| && b[j] == a[0];
    assert b[0] in multiset(a);
    var i :| 0 <= i < |a| && a[i] == b[0];
    assert MonthKey(b[0]) <= MonthKey(b[j]);
    assert i == 0;
  }

  /** A sorted permutation of groups with ascending keys is those groups:
      sorting the grouped months by month number changes nothing. */
  lemma {:induction false} SortedAscendingUnique(a: seq<Group<int>>, b: seq<Group<int>>)
    requires Ascending(a, IntLess)
    requires Ordered(b, MonthKey, false)
    requires multiset(a) == multiset(b)
    ensures a == b
  {
    if |a| == 0 {
      assert |multiset(b)| == 0;
    } else {
      SortedAscendingFirst(a, b);
      PermutationTail(a, b);
      SortedAscendingUnique(a[1..], b[1..]);
      assert a == [a[0]] + a[1..] && b == [b[0]] + b[1..];
    }
  }

  /** Strictly ascending month numbers are at least as far apart as their
      positions. */
  lemma {:induction false} AscendingGap(gs: seq<Group<int>>, i: nat, j: nat)
    requires Ascending(gs, IntLess)
    requires i <= j < |gs|
    ensures gs[j].key - gs[i].key >= j - i
  {
    if i < j {
      AscendingGap(gs, i, j - 1);
    }
  }

  /** When the twelve months 1 to 12 are all present, row `i` is month
      `i + 1`, so the positional labels name the right months. */
  lemma MonthLabelsAligned(rs: seq<FlatRecord>)
    requires FieldParses(rs, 1)
    requires forall r :: r in rs ==> 1 <= MonthNum(r).value <= 12
    requires |MonthGroups(rs)| == 12
    ensures forall i :: 0 <= i < 12 ==> MonthGroups(rs)[i].key == i + 1
  {
    var gs := MonthGroups(rs);
    var items := MonthItems(rs);
    forall k | k in Keys(gs)
      ensures 1 <= k <= 12
    {
      assert k in ItemKeys(items);
      var it :| it in items && it.0 == k;
      var p :| 0 <= p < |items| && items[p] == it;
      assert rs[p] in rs;
    }
    forall i | 0 <= i < 12
      ensures gs[i].key == i + 1
    {
      assert gs[0].key in Keys(gs) && gs[11].key in Keys(gs);
      AscendingGap(gs, 0, i);
      AscendingGap(gs, i, 11);
    }
  }

  /** The `monthly_sell` table: monthly totals sorted by month number, with
      the twelve labels assigned by position. The assignment fails unless
      there are exactly twelve grouped months. */
  method MonthlySell(rs: seq<FlatRecord>) returns (r: Result<seq<Group<string>>>)
    ensures r.Err? <==> !FieldParses(rs, 1) || |MonthGroups(rs)| != 12
    ensures r.Err? ==> r.error == if FieldParses(rs, 1) then LabelCountMismatch else NotAnInteger
    ensures r.Ok? ==> |r.value| == 12
    ensures r.Ok? ==> forall i :: 0 <= i < 12 ==>
      r.value[i] == Group(MonthLabels[i], MonthGroups(rs)[i].total)
  {
    if !FieldParses(rs, 1) {
      return Err(NotAnInteger);
    }
    var gs := MonthGroups(rs);
    var sorted := Sorted(gs, MonthKey, false);
    SortedAscendingUnique(gs, sorted);
    if |sorted| != 12 {
      return Err(LabelCountMismatch);
    }
    r := Ok(seq(12, i requires 0 <= i < 12 => Group(MonthLabels[i], sorted[i].total)));
  }

  /** The `data_given_month` table: the records of month `m` in any year,
      grouped by name and sorted by `total_sold`, largest first, with no
      row limit. */
  method GivenMonth(rs: seq<FlatRecord>, m: int) returns (r: Result<seq<Group<string>>>)
    ensures r.Err? <==> !FieldParses(rs, 1)
    ensures r.Err? ==> r.error == NotAnInteger
    ensures r.Ok? ==> multiset(r.value) == multiset(NameGroups(InMonth(rs, m)))
    ensures r.Ok? ==> Ordered(r.value, SoldKey, true)
  {
    if !FieldParses(rs, 1) {
      return Err(NotAnInteger);
    }
    var rows := Sorted(NameGroups(InMonth(rs, m)), SoldKey, true);
    r := Ok(rows);
  }

  /** The `top_this_month` table: both date columns must parse; then the
      records of month `m` of year `y` go through the top-10 table. */
  method ThisMonth(rs: seq<FlatRecord>, y: int, m: int) returns (r: Result<seq<Group<string>>>)
    ensures r.Err? <==> !FieldParses(rs, 1) || !FieldParses(rs, 0)
    ensures r.Err? ==> r.error == NotAnInteger
    ensures r.Ok? ==> |r.value| <= 10
    ensures r.Ok? ==> multiset(r.value) == multiset(Head(NameGroups(InYear(InMonth(rs, m), y)), 10))
    ensures r.Ok? ==> Ordered(r.value, SoldKey, true)
  {
    if !FieldParses(rs, 1) || !FieldParses(rs, 0) {
      return Err(NotAnInteger);
    }
    var rows := TopTen(InYear(InMonth(rs, m), y));
    r := Ok(rows);
  }
}
