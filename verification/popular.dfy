/** `popular_products`: quantities summed per product, ranked, dated by
    index alignment, then a trailing window moved back a week at a time
    until at least five ranked rows fall inside it. */
module Popular {
  import opened Records
  import opened Text
  import opened Grouping
  import opened Sorting

  /** A grouped row of the ranking, with `index` the row's index before the
      sort (pandas keeps it through `sort_values`). */
  datatype Row = Row(id: string, name: string, total: nat, index: nat)

  /** A ranked row with the date aligned to it, as a day number. */
  datatype Dated = Dated(id: string, name: string, total: nat, day: int)

  /** The ((_id, name), quantity) columns. */
  function ProductItems(rs: seq<FlatRecord>): (items: seq<((string, string), nat)>)
    ensures |items| == |rs|
  {
    seq(|rs|, i requires 0 <= i < |rs| => ((rs[i].id, rs[i].name), rs[i].quantity))
  }

  /** `groupby(["_id", "name"])['quantity'].sum().reset_index()`. */
  function ProductGroups(rs: seq<FlatRecord>): (gs: seq<Group<(string, string)>>)
    ensures Ascending(gs, PairLess)
    ensures |gs| <= |rs|
  {
    PairLessOrder();
    GroupSum(ProductItems(rs), PairLess)
  }

  /** There is one ranked row per distinct (_id, name) pair. */
  lemma ProductGroupsCount(rs: seq<FlatRecord>)
    ensures |ProductGroups(rs)| == |ItemKeys(ProductItems(rs))|
  {
    PairLessOrder();
    GroupCount(ProductItems(rs), PairLess);
  }

  /** The grouped rows with their index labels 0, 1, 2, ... */
  function Labelled(gs: seq<Group<(string, string)>>): (rows: seq<Row>)
    ensures |rows| == |gs|
    ensures forall i :: 0 <= i < |rows| ==> rows[i].index == i
  {
    seq(|gs|, i requires 0 <= i < |gs| => Row(gs[i].key.0, gs[i].key.1, gs[i].total, i))
  }

  /** The date column cut at "T": the calendar date of an ISO timestamp,
      which is the text before the first "T", or the whole date without one. */
  function DatePart(date: string): (p: string)
    ensures 'T' !in p
    ensures p <= date
    ensures p != date ==> |p| < |date| && date[|p|] == 'T'
    ensures 'T' !in date ==> p == date
  {
    SplitFirst(date, 'T');
    Split(date, 'T')[0]
  }

  /** The record dates as day numbers, one per record in order; `dayOf`
      stands for `pd.to_datetime`. */
  function Days(rs: seq<FlatRecord>, dayOf: string -> int): (days: seq<int>)
    ensures |days| == |rs|
    ensures forall i :: 0 <= i < |rs| ==> days[i] == dayOf(DatePart(rs[i].date))
  {
    seq(|rs|, i requires 0 <= i < |rs| => dayOf(DatePart(rs[i].date)))
  }

  function Attach(r: Row, days: seq<int>): Dated
    requires r.index < |days|
  {
    Dated(r.id, r.name, r.total, days[r.index])
  }

  /** `df_grouped['date'] = df_main['date']`: assignment aligns on the index
      label, so the row labelled `i` gets the date of input record `i`,
      whichever product that record is. */
  function AttachDates(rows: seq<Row>, days: seq<int>): (dated: seq<Dated>)
    requires forall r :: r in rows ==> r.index < |days|
    ensures |dated| == |rows|
  {
    if |rows| == 0 then []
    else
      assert rows[0] in rows;
      assert forall r :: r in rows[1..] ==> r in rows;
      [Attach(rows[0], days)] + AttachDates(rows[1..], days)
  }

  /** Row `j` of the dated rows is row `j` with the date at its label. */
  lemma {:induction false} AttachDatesAt(rows: seq<Row>, days: seq<int>, j: nat)
    requires forall r :: r in rows ==> r.index < |days|
    requires j < |rows|
    ensures rows[j].index < |days|
    ensures AttachDates(rows, days)[j] ==
            Dated(rows[j].id, rows[j].name, rows[j].total, days[rows[j].index])
  {
    assert rows[j] in rows;
    if j > 0 {
      assert forall r :: r in rows[1..] ==> r in rows;
      assert rows[1..][j - 1] == rows[j];
      AttachDatesAt(rows[1..], days, j - 1);
    }
  }

  lemma {:induction false} AttachDatesAppend(a: seq<Row>, b: seq<Row>, days: seq<int>)
    requires forall r :: r in a + b ==> r.index < |days|
    ensures forall r :: r in a ==> r.index < |days|
    ensures forall r :: r in b ==> r.index < |days|
    ensures AttachDates(a + b, days) == AttachDates(a, days) + AttachDates(b, days)
  {
    assert forall r :: r in a ==> r in a + b;
    assert forall r :: r in b ==> r in a + b;
    if |a| > 0 {
      assert (a + b)[1..] == a[1..] + b;
      assert a[0] in a;
      AttachDatesAppend(a[1..], b, days);
    } else {
      assert a + b == b;
    }
  }

  /** Dating row `j` separately from the others gives the same rows. */
  lemma AttachDatesRemove(b: seq<Row>, j: nat, days: seq<int>)
    requires forall r :: r in b ==> r.index < |days|
    requires j < |b|
    ensures forall r :: r in b[..j] + b[j + 1..] ==> r.index < |days|
    ensures b[j].index < |days|
    ensures multiset(AttachDates(b, days)) ==
            multiset{Attach(b[j], days)} + multiset(AttachDates(b[..j] + b[j + 1..], days))
  {
    assert b[j] in b;
    assert b == b[..j] + b[j..];
    assert b[j..][1..] == b[j + 1..];
    assert forall r :: r in b[..j] + b[j + 1..] ==> r in b;
    AttachDatesAppend(b[..j], b[j..], days);
    AttachDatesAppend(b[..j], b[j + 1..], days);
  }

  /** Attaching dates by index label commutes with reordering the rows. */
  lemma {:induction false} AttachDatesPermutation(a: seq<Row>, b: seq<Row>, days: seq<int>)
    requires multiset(a) == multiset(b)
    requires forall r :: r in a ==> r.index < |days|
    ensures forall r :: r in b ==> r.index < |days|
    ensures multiset(AttachDates(a, days)) == multiset(AttachDates(b, days))
  {
    assert forall r :: r in b ==> r in multiset(a);
    if |a| == 0 {
      assert |multiset(b)| == 0;
    } else {
      var j := PermutationSplit(a, b);
      assert forall r :: r in a[1..] ==> r in a;
      AttachDatesPermutation(a[1..], b[..j] + b[j + 1..], days);
      AttachDatesRemove(b, j, days);
    }
  }

  /** The ranked rows before the sort, each dated by its own index. */
  function DatedGroups(rs: seq<FlatRecord>, dayOf: string -> int): seq<Dated>
  {
    AttachDates(Labelled(ProductGroups(rs)), Days(rs, dayOf))
  }

  /** Grouped row `i` is dated by input record `i`, whichever product that
      record is. */
  lemma DatedGroupsAt(rs: seq<FlatRecord>, dayOf: string -> int, i: nat)
    requires i < |ProductGroups(rs)|
    ensures i < |rs|
    ensures DatedGroups(rs, dayOf)[i] ==
      Dated(ProductGroups(rs)[i].key.0, ProductGroups(rs)[i].key.1, ProductGroups(rs)[i].total,
            dayOf(DatePart(rs[i].date)))
  {
    var rows := Labelled(ProductGroups(rs));
    AttachDatesAt(rows, Days(rs, dayOf), i);
  }

  /** Records [B on day x, A on day y] group as A then B, so A is dated x,
      the day of B's record. */
  lemma AlignmentExample(a: FlatRecord, b: FlatRecord, dayOf: string -> int)
    requires a.id == "a" && b.id == "b"
    ensures DatedGroups([b, a], dayOf)[0] ==
            Dated("a", a.name, a.quantity, dayOf(DatePart(b.date)))
  {
    PairLessOrder();
    var items := ProductItems([b, a]);
    var tail := items[1..];
    assert tail == [((a.id, a.name), a.quantity)];
    assert |tail[1..]| == 0;
    assert PairLess(("a", a.name), ("b", b.name));
    assert !PairLess(("b", b.name), ("a", a.name));
    assert GroupSum(tail, PairLess) == [Group(("a", a.name), a.quantity)];
    var ga := Group(("a", a.name), a.quantity);
    assert ("a", a.name) != ("b", b.name) by { assert "a"[0] != "b"[0]; }
    assert items[0] == (("b", b.name), b.quantity);
    assert Insert([ga], ("b", b.name), b.quantity, PairLess) == [ga] + Insert([], ("b", b.name), b.quantity, PairLess);
    var gs := ProductGroups([b, a]);
    assert gs == Insert([ga], ("b", b.name), b.quantity, PairLess);
    assert gs[0] == ga;
    DatedGroupsAt([b, a], dayOf, 0);
  }

  function RowSold(r: Row): int
  {
    r.total
  }

  function DatedSold(d: Dated): int
  {
    d.total
  }

  /** The ranking: group, sort by `total_sold` (largest first), then align
      the dates by index label. */
  method Rank(rs: seq<FlatRecord>, dayOf: string -> int) returns (ranked: seq<Dated>)
    ensures multiset(ranked) == multiset(DatedGroups(rs, dayOf))
    ensures Ordered(ranked, DatedSold, true)
  {
    var rows := Labelled(ProductGroups(rs));
    var days := Days(rs, dayOf);
    var sorted := Sorted(rows, RowSold, true);
    assert forall r :: r in sorted ==> r.index < |days| by {
      forall r | r in sorted ensures r.index < |days| {
        assert r in multiset(rows);
      }
    }
    ranked := AttachDates(sorted, days);
    AttachDatesPermutation(sorted, rows, days);
    AttachDatesOrdered(sorted, days);
  }

  lemma AttachDatesOrdered(rows: seq<Row>, days: seq<int>)
    requires forall r :: r in rows ==> r.index < |days|
    requires Ordered(rows, RowSold, true)
    ensures Ordered(AttachDates(rows, days), DatedSold, true)
  {
    forall j | 0 <= j < |rows|
      ensures AttachDates(rows, days)[j].total == rows[j].total
    {
      AttachDatesAt(rows, days, j);
    }
  }

  /** The rows dated on or after `cutoff`, in ranked order. */
  function Recent(ranked: seq<Dated>, cutoff: int): (recent: seq<Dated>)
    ensures |recent| <= |ranked|
    ensures forall d :: d in recent <==> d in ranked && d.day >= cutoff
  {
    WhereMembers(ranked, (d: Dated) => d.day >= cutoff);
    Where(ranked, (d: Dated) => d.day >= cutoff)
  }

  /** The cutoff after `w` weeks: today's date moved back 7 days `w` times. */
  function WeeksBack(today: int, w: nat): (cutoff: int)
    ensures cutoff <= today
    ensures w > 0 ==> cutoff <= today - 7
  {
    today - 7 * w
  }

  /** Moving the cutoff back never loses a candidate. */
  lemma CandidatesGrow(ranked: seq<Dated>, later: int, earlier: int)
    requires earlier <= later
    ensures forall d :: d in Recent(ranked, later) ==> d in Recent(ranked, earlier)
    ensures |Recent(ranked, later)| <= |Recent(ranked, earlier)|
  {
    WhereGrows(ranked, (d: Dated) => d.day >= later, (d: Dated) => d.day >= earlier);
  }

  function MinDay(ranked: seq<Dated>): (m: int)
    requires |ranked| > 0
    ensures forall i :: 0 <= i < |ranked| ==> m <= ranked[i].day
    ensures exists i :: 0 <= i < |ranked| && ranked[i].day == m
  {
    if |ranked| == 1 then ranked[0].day
    else
      var rest := MinDay(ranked[1..]);
      assert forall i :: 1 <= i < |ranked| ==> ranked[i] == ranked[1..][i - 1];
      if ranked[0].day <= rest then ranked[0].day else rest
  }

  /** A cutoff at or before the earliest date admits every row. */
  lemma AllRecent(ranked: seq<Dated>, cutoff: int)
    requires |ranked| > 0 && cutoff <= MinDay(ranked)
    ensures Recent(ranked, cutoff) == ranked
  {
    WhereAll(ranked, (d: Dated) => d.day >= cutoff);
  }

  /** What the window search ends with: `Found` after `weeks` steps back, or
      `OutOfRange` when the cutoff would move before `floor`, the earliest
      date the date arithmetic represents, and the step raises. */
  datatype Window = Found(rows: seq<Dated>, weeks: nat) | OutOfRange

  /** The outcome of the window search: `weeks` is the first number of
      weeks back (at least one) whose cutoff admits five rows, that cutoff
      is representable, and the rows are the first five admitted in ranked
      order; or no representable cutoff admits five rows. */
  ghost predicate WindowOutcome(ranked: seq<Dated>, today: int, floor: int, out: Window)
  {
    match out
    case Found(rows, weeks) =>
      && weeks >= 1
      && WeeksBack(today, weeks) >= floor
      && |Recent(ranked, WeeksBack(today, weeks))| >= 5
      && (forall w: nat :: 1 <= w < weeks ==> |Recent(ranked, WeeksBack(today, w))| < 5)
      && rows == Recent(ranked, WeeksBack(today, weeks))[..5]
    case OutOfRange =>
      forall w: nat :: 1 <= w && WeeksBack(today, w) >= floor ==> |Recent(ranked, WeeksBack(today, w))| < 5
  }

  /** The `while total_popular < 5` loop and `popular.head(5)`. Each step
      first moves the cutoff back 7 days, which fails below `floor`. */
  method Window5(ranked: seq<Dated>, today: int, floor: int) returns (out: Window)
    ensures WindowOutcome(ranked, today, floor, out)
  {
    var cutoff := today;
    var popular: seq<Dated> := [];
    var total := 0;
    var weeks: nat := 0;
    while total < 5
      invariant cutoff == WeeksBack(today, weeks)
      invariant weeks == 0 ==> total == 0
      invariant weeks > 0 ==> cutoff >= floor && popular == Recent(ranked, cutoff) && total == |popular|
      invariant forall w: nat :: 1 <= w < weeks ==> |Recent(ranked, WeeksBack(today, w))| < 5
      decreases cutoff - floor
    {
      if cutoff - 7 < floor {
        StopOutOfRange(ranked, today, floor, weeks);
        return OutOfRange;
      }
      cutoff := cutoff - 7;
      popular := Recent(ranked, cutoff);
      total := |popular|;
      weeks := weeks + 1;
    }
    out := Found(popular[..5], weeks);
  }

  /** The step after `weeks` raises when no earlier step, nor `weeks`
      itself, admitted five rows. */
  lemma StopOutOfRange(ranked: seq<Dated>, today: int, floor: int, weeks: nat)
    requires forall w: nat :: 1 <= w < weeks ==> |Recent(ranked, WeeksBack(today, w))| < 5
    requires weeks > 0 ==> |Recent(ranked, WeeksBack(today, weeks))| < 5
    requires WeeksBack(today, weeks) - 7 < floor
    ensures WindowOutcome(ranked, today, floor, OutOfRange)
  {
    forall w: nat | 1 <= w && WeeksBack(today, w) >= floor
      ensures |Recent(ranked, WeeksBack(today, w))| < 5
    {
      assert w <= weeks;
    }
  }

  /** With fewer than five ranked rows no cutoff admits five, so the loop
      runs until the cutoff leaves the representable range. */
  lemma NeverFive(ranked: seq<Dated>, today: int, floor: int, out: Window)
    requires WindowOutcome(ranked, today, floor, out)
    requires |ranked| < 5
    ensures out == OutOfRange
  {
  }

  /** With five ranked rows, a representable first step and every date at
      least a week after `floor`, the search finds its window. */
  lemma FoundInRange(ranked: seq<Dated>, today: int, floor: int, out: Window)
    requires WindowOutcome(ranked, today, floor, out)
    requires |ranked| >= 5
    requires today - 7 >= floor
    requires forall d :: d in ranked ==> d.day >= floor + 7
    ensures out.Found?
  {
    var m := MinDay(ranked);
    var k :| 0 <= k < |ranked| && ranked[k].day == m;
    assert ranked[k] in ranked;
    var w: nat;
    if today - 7 <= m {
      w := 1;
    } else {
      var q, r := (today - m + 6) / 7, (today - m + 6) % 7;
      assert today - m + 6 == 7 * q + r && 0 <= r < 7;
      w := q;
    }
    assert floor <= WeeksBack(today, w) <= m;
    AllRecent(ranked, WeeksBack(today, w));
    assert |Recent(ranked, WeeksBack(today, w))| >= 5;
  }

  /** A found window has exactly five rows, all dated on or after the final
      cutoff, and they keep the ranking's order. */
  lemma WindowRows(ranked: seq<Dated>, today: int, floor: int, out: Window)
    requires WindowOutcome(ranked, today, floor, out) && out.Found?
    ensures |out.rows| == 5
    ensures forall d :: d in out.rows ==> d in ranked && d.day >= WeeksBack(today, out.weeks)
    ensures Ordered(ranked, DatedSold, true) ==> Ordered(out.rows, DatedSold, true)
  {
    var cutoff := WeeksBack(today, out.weeks);
    var recent := Recent(ranked, cutoff);
    assert forall d :: d in out.rows ==> d in recent;
    if Ordered(ranked, DatedSold, true) {
      WhereKeepsOrder(ranked, (d: Dated) => d.day >= cutoff,
                      (x: Dated, y: Dated) => InOrder(x, y, DatedSold, true));
    }
  }

  /** The outcome is determined by the ranking, today's date and the floor. */
  lemma WindowUnique(ranked: seq<Dated>, today: int, floor: int, a: Window, b: Window)
    requires WindowOutcome(ranked, today, floor, a) && WindowOutcome(ranked, today, floor, b)
    ensures a == b
  {
    if a.Found? && b.Found? {
      assert a.weeks == b.weeks;
    }
  }

  /** `ranked` is a ranking of the records: the label-dated groups, sorted
      by quantity largest first. */
  ghost predicate IsRanking(ranked: seq<Dated>, rs: seq<FlatRecord>, dayOf: string -> int)
  {
    multiset(ranked) == multiset(DatedGroups(rs, dayOf)) && Ordered(ranked, DatedSold, true)
  }

  /** `popular_products`: rank, then search the window. */
  method PopularProducts(rs: seq<FlatRecord>, today: int, floor: int, dayOf: string -> int)
    returns (out: Window, ranked: seq<Dated>)
    ensures IsRanking(ranked, rs, dayOf)
    ensures WindowOutcome(ranked, today, floor, out)
  {
    ranked := Rank(rs, dayOf);
    out := Window5(ranked, today, floor);
  }
}
