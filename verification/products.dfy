/** Quantity sold per product name, and the top-10 table of
    `top10mostselling` and `top_this_month`. */
module Products {
  import opened Records
  import opened Grouping
  import opened Sorting

  /** The (name, quantity) columns of the frame. */
  function NameItems(rs: seq<FlatRecord>): (items: seq<(string, nat)>)
    ensures |items| == |rs|
  {
    seq(|rs|, i requires 0 <= i < |rs| => (rs[i].name, rs[i].quantity))
  }

  /** `groupby("name")['quantity'].sum().reset_index()`. */
  function NameGroups(rs: seq<FlatRecord>): (gs: seq<Group<string>>)
    ensures Ascending(gs, StrLess)
  {
    StrLessOrder();
    GroupSum(NameItems(rs), StrLess)
  }

  /** The sum of the quantity column. */
  function Quantity(rs: seq<FlatRecord>): nat
  {
    if |rs| == 0 then 0 else rs[0].quantity + Quantity(rs[1..])
  }

  lemma {:induction false} NameItemsQuantity(rs: seq<FlatRecord>)
    ensures SumQuantities(NameItems(rs)) == Quantity(rs)
  {
    if |rs| > 0 {
      assert NameItems(rs)[1..] == NameItems(rs[1..]);
      NameItemsQuantity(rs[1..]);
    }
  }

  /** Grouping by name: one row per distinct name, each holding the sum of
      the quantities of exactly the records with that name, and all rows
      together holding the total quantity. */
  lemma NameGroupsSums(rs: seq<FlatRecord>)
    ensures DistinctKeys(NameGroups(rs))
    ensures Keys(NameGroups(rs)) == set r | r in rs :: r.name
    ensures forall i :: 0 <= i < |NameGroups(rs)| ==>
      NameGroups(rs)[i].total == SumWhere(NameItems(rs), NameGroups(rs)[i].key)
    ensures SumTotals(NameGroups(rs)) == Quantity(rs)
  {
    StrLessOrder();
    GroupRows(NameItems(rs), StrLess);
    NameItemsQuantity(rs);
    var items := NameItems(rs);
    forall n ensures n in ItemKeys(items) <==> n in set r | r in rs :: r.name {
      if n in ItemKeys(items) {
        var it :| it in items && it.0 == n;
        var i :| 0 <= i < |items| && items[i] == it;
        assert rs[i] in rs;
      }
      if n in set r | r in rs :: r.name {
        var r :| r in rs && r.name == n;
        var i :| 0 <= i < |rs| && rs[i] == r;
        assert items[i] in items;
      }
    }
  }

  /** The sort key `total_sold`. */
  function SoldKey(g: Group<string>): int
  {
    g.total
  }

  /** `head(n)`: the first `n` rows, or all of them when there are fewer. */
  function Head<T>(s: seq<T>, n: nat): (r: seq<T>)
    ensures |r| <= n && |r| <= |s|
    ensures |r| == n || r == s
    ensures r <= s
  {
    if |s| <= n then s else s[..n]
  }

  /** A row of a permutation of `head(n)` sits at some position before `n`. */
  lemma PositionInHead(gs: seq<Group<string>>, n: nat, rows: seq<Group<string>>, g: Group<string>)
    returns (i: nat)
    requires multiset(rows) == multiset(Head(gs, n))
    requires g in rows
    ensures i < |Head(gs, n)| && gs[i] == g
  {
    assert g in multiset(Head(gs, n));
    i :| 0 <= i < |Head(gs, n)| && Head(gs, n)[i] == g;
  }

  /** A name missing from a permutation of `head(n)` sits at or after `n`. */
  lemma PositionDropped(gs: seq<Group<string>>, n: nat, rows: seq<Group<string>>, name: string)
    returns (j: nat)
    requires multiset(rows) == multiset(Head(gs, n))
    requires name in Keys(gs) && name !in Keys(rows)
    ensures |Head(gs, n)| <= j < |gs| && gs[j].key == name
  {
    var head := Head(gs, n);
    forall k | 0 <= k < |head|
      ensures head[k].key in Keys(rows)
    {
      assert head[k] in multiset(rows);
    }
    var h :| h in gs && h.key == name;
    j :| 0 <= j < |gs| && gs[j] == h;
    assert j >= |head|;
  }

  /** Rows that are a permutation of the first `n` ascending groups carry
      only names that come before every name left out. */
  lemma HeadKeepsFirstNames(gs: seq<Group<string>>, n: nat, rows: seq<Group<string>>)
    requires Ascending(gs, StrLess)
    requires multiset(rows) == multiset(Head(gs, n))
    ensures forall g, name :: g in rows && name in Keys(gs) && name !in Keys(rows) ==> StrLess(g.key, name)
  {
    forall g, name | g in rows && name in Keys(gs) && name !in Keys(rows)
      ensures StrLess(g.key, name)
    {
      var i := PositionInHead(gs, n, rows, g);
      var j := PositionDropped(gs, n, rows, name);
      assert StrLess(gs[i].key, gs[j].key);
    }
  }

  /** Rows drawn from the grouped rows keep their exact sums. */
  lemma RowsKeepSums(rs: seq<FlatRecord>, n: nat, rows: seq<Group<string>>)
    requires multiset(rows) == multiset(Head(NameGroups(rs), n))
    ensures forall g :: g in rows ==> g.total == SumWhere(NameItems(rs), g.key)
  {
    NameGroupsSums(rs);
    var gs := NameGroups(rs);
    forall g | g in rows
      ensures g.total == SumWhere(NameItems(rs), g.key)
    {
      assert g in multiset(Head(gs, n));
      var i :| 0 <= i < |Head(gs, n)| && Head(gs, n)[i] == g;
      assert gs[i] == g;
    }
  }

  /** The top-10 table: group by name, keep the first ten groups in name
      order, then sort them by `total_sold`, largest first. The ten rows are
      chosen by name, not by quantity: every kept name precedes every
      dropped one. */
  method TopTen(rs: seq<FlatRecord>) returns (rows: seq<Group<string>>)
    ensures |rows| <= 10
    ensures multiset(rows) == multiset(Head(NameGroups(rs), 10))
    ensures Ordered(rows, SoldKey, true)
    ensures forall g :: g in rows ==> g.total == SumWhere(NameItems(rs), g.key)
    ensures forall g, n :: g in rows && n in (set r | r in rs :: r.name) && n !in Keys(rows) ==>
      StrLess(g.key, n)
  {
    var gs := NameGroups(rs);
    rows := Sorted(Head(gs, 10), SoldKey, true);
    NameGroupsSums(rs);
    RowsKeepSums(rs, 10, rows);
    HeadKeepsFirstNames(gs, 10, rows);
  }
}
