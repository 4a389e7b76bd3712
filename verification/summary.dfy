/** The overall statistics of `/history/details`: total earnings and the
    number of distinct orders. */
module Summary {
  import opened Records
  import opened Sorting

  datatype Stats = Stats(totalEarnings: nat, totalOrders: nat)

  /** The `total_amount` column: quantity times price of one row. */
  function Amount(r: FlatRecord): nat
  {
    r.quantity * r.price
  }

  /** The sum of the `total_amount` column: no row's amount exceeds it. */
  function Earnings(rs: seq<FlatRecord>): (e: nat)
    ensures forall i :: 0 <= i < |rs| ==> Amount(rs[i]) <= e
  {
    if |rs| == 0 then 0 else Amount(rs[0]) + Earnings(rs[1..])
  }

  /** The `order_id` values that occur, each once. */
  function OrderIds(rs: seq<FlatRecord>): set<string>
  {
    set r | r in rs :: r.orderId
  }

  /** The number of groups of `groupby("order_id")`: several records may
      share an order, so there are at most as many orders as records, and
      at least one order when there is a record. */
  function OrderCount(rs: seq<FlatRecord>): (c: nat)
    ensures c <= |rs|
    ensures |rs| > 0 ==> c >= 1
  {
    OrderCountBounds(rs);
    |OrderIds(rs)|
  }

  lemma {:induction false} EarningsAppend(a: seq<FlatRecord>, b: seq<FlatRecord>)
    ensures Earnings(a + b) == Earnings(a) + Earnings(b)
  {
    if |a| > 0 {
      assert (a + b)[1..] == a[1..] + b;
      EarningsAppend(a[1..], b);
    } else {
      assert a + b == b;
    }
  }

  /** Row `j` counted separately from the others gives the same earnings. */
  lemma EarningsRemove(b: seq<FlatRecord>, j: nat)
    requires j < |b|
    ensures Earnings(b) == Amount(b[j]) + Earnings(b[..j] + b[j + 1..])
  {
    assert b == b[..j] + b[j..];
    assert b[j..][1..] == b[j + 1..];
    EarningsAppend(b[..j], b[j..]);
    EarningsAppend(b[..j], b[j + 1..]);
  }

  /** Total earnings do not depend on the order of the records. */
  lemma {:induction false} EarningsPermutation(a: seq<FlatRecord>, b: seq<FlatRecord>)
    requires multiset(a) == multiset(b)
    ensures Earnings(a) == Earnings(b)
  {
    if |a| == 0 {
      assert |multiset(b)| == 0;
    } else {
      var j := PermutationSplit(a, b);
      EarningsPermutation(a[1..], b[..j] + b[j + 1..]);
      EarningsRemove(b, j);
    }
  }

  /** The order count does not depend on the order of the records. */
  lemma OrderCountPermutation(a: seq<FlatRecord>, b: seq<FlatRecord>)
    requires multiset(a) == multiset(b)
    ensures OrderCount(a) == OrderCount(b)
  {
    assert forall r :: r in a <==> r in b by {
      forall r ensures r in a <==> r in b {
        assert r in a <==> r in multiset(a);
        assert r in b <==> r in multiset(b);
      }
    }
    assert OrderIds(a) == OrderIds(b);
  }

  /** There are at most as many distinct order ids as records, and at least
      one when there is a record. */
  lemma {:induction false} OrderCountBounds(rs: seq<FlatRecord>)
    ensures |OrderIds(rs)| <= |rs|
    ensures |rs| > 0 ==> |OrderIds(rs)| >= 1
  {
    if |rs| > 0 {
      OrderCountBounds(rs[1..]);
      assert rs == [rs[0]] + rs[1..];
      assert OrderIds(rs) == {rs[0].orderId} + OrderIds(rs[1..]);
    }
  }

  /** The `/history/details` handler: flatten, then both statistics. */
  function HistoryDetails(hs: seq<History>): (r: Result<Stats>)
    ensures r.Err? <==> |hs| == 0
    ensures r.Err? ==> r.error == MissingProductColumn
    ensures r.Ok? ==> r.value.totalEarnings == Earnings(Flatten(hs).value)
    ensures r.Ok? ==> r.value.totalOrders == |set h | h in hs :: h.orderId|
    ensures r.Ok? ==> 1 <= r.value.totalOrders <= |hs|
  {
    match Flatten(hs)
    case Err(e) => Err(e)
    case Ok(rs) =>
      FlattenOrderIds(hs);
      Ok(Stats(Earnings(rs), OrderCount(rs)))
  }

  /** Flattening keeps the order ids of the history records. */
  lemma FlattenOrderIds(hs: seq<History>)
    requires |hs| > 0
    ensures OrderIds(Flatten(hs).value) == set h | h in hs :: h.orderId
  {
    var rs := Flatten(hs).value;
    forall o
      ensures o in OrderIds(rs) <==> o in set h | h in hs :: h.orderId
    {
      if o in OrderIds(rs) {
        var r :| r in rs && r.orderId == o;
        var i :| 0 <= i < |rs| && rs[i] == r;
        assert NestOf(rs[i]) == hs[i] && hs[i] in hs;
      }
      if o in set h | h in hs :: h.orderId {
        var h :| h in hs && h.orderId == o;
        var i :| 0 <= i < |hs| && hs[i] == h;
        assert NestOf(rs[i]) == hs[i] && rs[i] in rs;
      }
    }
  }

  /** Three records, two of them for Rose: earnings 2*10 + 3*8 + 1*10 = 54
      over three orders. */
  lemma DetailsExample()
    ensures HistoryDetails([
      History("1", "2024-03-05", 2, Product("p1", "Rose", 10)),
      History("2", "2024-03-06", 3, Product("p2", "Tulip", 8)),
      History("3", "2024-03-06", 1, Product("p1", "Rose", 10))]) == Ok(Stats(54, 3))
  {
    var hs := [
      History("1", "2024-03-05", 2, Product("p1", "Rose", 10)),
      History("2", "2024-03-06", 3, Product("p2", "Tulip", 8)),
      History("3", "2024-03-06", 1, Product("p1", "Rose", 10))];
    var rs := Flatten(hs).value;
    assert rs == [FlatOf(hs[0]), FlatOf(hs[1]), FlatOf(hs[2])];
    assert OrderIds(rs) == {"1", "2", "3"};
  }
}
