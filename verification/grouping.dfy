/** `groupby(key)[col].sum().reset_index()` as the handlers use it: one row
    per distinct key, in ascending key order, holding the sum of the
    quantities of the records with that key. Also the row filter that
    boolean indexing (`df[mask]`) performs. */
module Grouping {

  /** One grouped row: a key and the summed quantity (`total_sold`). */
  datatype Group<K> = Group(key: K, total: nat)

  /** `less` orders keys strictly and totally, as groupby's key sort needs. */
  ghost predicate StrictTotalOrder<K(!new)>(less: (K, K) -> bool)
  {
    && (forall a :: !less(a, a))
    && (forall a, b, c :: less(a, b) && less(b, c) ==> less(a, c))
    && (forall a, b :: a != b ==> less(a, b) || less(b, a))
  }

  /** Keys strictly ascending; in particular, pairwise distinct. */
  predicate Ascending<K>(gs: seq<Group<K>>, less: (K, K) -> bool)
  {
    forall i, j :: 0 <= i < j < |gs| ==> less(gs[i].key, gs[j].key)
  }

  predicate DistinctKeys<K(==)>(gs: seq<Group<K>>)
  {
    forall i, j :: 0 <= i < j < |gs| ==> gs[i].key != gs[j].key
  }

  function Keys<K(==)>(gs: seq<Group<K>>): set<K>
  {
    set g | g in gs :: g.key
  }

  function ItemKeys<K(==)>(items: seq<(K, nat)>): set<K>
  {
    set it | it in items :: it.0
  }

  /** The total of the first row with key `k`, or 0 if there is none. */
  function TotalOf<K(==)>(gs: seq<Group<K>>, k: K): (t: nat)
    ensures k !in Keys(gs) ==> t == 0
  {
    if |gs| == 0 then 0
    else if gs[0].key == k then gs[0].total
    else TotalOf(gs[1..], k)
  }

  /** The sum of the quantities of exactly the items whose key is `k`. */
  function SumWhere<K(==)>(items: seq<(K, nat)>, k: K): nat
  {
    if |items| == 0 then 0
    else (if items[0].0 == k then items[0].1 else 0) + SumWhere(items[1..], k)
  }

  function SumQuantities<K>(items: seq<(K, nat)>): nat
  {
    if |items| == 0 then 0 else items[0].1 + SumQuantities(items[1..])
  }

  function SumTotals<K>(gs: seq<Group<K>>): nat
  {
    if |gs| == 0 then 0 else gs[0].total + SumTotals(gs[1..])
  }

  lemma KeysCons<K>(g: Group<K>, gs: seq<Group<K>>)
    ensures Keys([g] + gs) == {g.key} + Keys(gs)
  {
    assert forall x :: x in [g] + gs <==> x == g || x in gs;
  }

  /** Adds one item to ascending groups: into the row with its key, or as a
      new row at its place in key order. */
  function Insert<K(==)>(gs: seq<Group<K>>, k: K, q: nat, less: (K, K) -> bool): (r: seq<Group<K>>)
    ensures |r| <= |gs| + 1
  {
    if |gs| == 0 then [Group(k, q)]
    else if gs[0].key == k then [Group(k, gs[0].total + q)] + gs[1..]
    else if less(k, gs[0].key) then [Group(k, q)] + gs
    else [gs[0]] + Insert(gs[1..], k, q, less)
  }

  lemma {:induction false} InsertKeys<K>(gs: seq<Group<K>>, k: K, q: nat, less: (K, K) -> bool)
    ensures Keys(Insert(gs, k, q, less)) == Keys(gs) + {k}
  {
    if |gs| > 0 {
      assert gs == [gs[0]] + gs[1..];
      KeysCons(gs[0], gs[1..]);
      if gs[0].key == k {
        KeysCons(Group(k, gs[0].total + q), gs[1..]);
      } else if less(k, gs[0].key) {
        KeysCons(Group(k, q), gs);
      } else {
        InsertKeys(gs[1..], k, q, less);
        KeysCons(gs[0], Insert(gs[1..], k, q, less));
      }
    } else {
      KeysCons(Group(k, q), gs);
    }
  }

  /** Insertion keeps the keys strictly ascending. */
  lemma {:induction false} InsertAscending<K(!new)>(gs: seq<Group<K>>, k: K, q: nat, less: (K, K) -> bool)
    requires StrictTotalOrder(less)
    requires Ascending(gs, less)
    ensures Ascending(Insert(gs, k, q, less), less)
  {
    if |gs| > 0 && gs[0].key != k && !less(k, gs[0].key) {
      var rest := Insert(gs[1..], k, q, less);
      InsertAscending(gs[1..], k, q, less);
      InsertKeys(gs[1..], k, q, less);
      forall j | 0 <= j < |rest|
        ensures less(gs[0].key, rest[j].key)
      {
        assert rest[j].key in Keys(rest);
        if rest[j].key != k {
          var g :| g in gs[1..] && g.key == rest[j].key;
          var i :| 0 <= i < |gs[1..]| && gs[1..][i] == g;
          assert gs[i + 1] == g;
        }
      }
    }
  }

  /** Insertion adds `q` to the total of key `k` and changes no other total. */
  lemma {:induction false} InsertTotals<K(!new)>(gs: seq<Group<K>>, k: K, q: nat, less: (K, K) -> bool)
    requires StrictTotalOrder(less)
    requires Ascending(gs, less)
    ensures forall k' :: TotalOf(Insert(gs, k, q, less), k') == TotalOf(gs, k') + (if k' == k then q else 0)
  {
    if |gs| > 0 {
      if gs[0].key == k {
        assert gs == [gs[0]] + gs[1..];
        KeysCons(gs[0], gs[1..]);
        forall g | g in gs[1..]
          ensures g.key != k
        {
          var i :| 0 <= i < |gs[1..]| && gs[1..][i] == g;
          assert gs[i + 1] == g;
        }
        assert k !in Keys(gs[1..]);
      } else if !less(k, gs[0].key) {
        InsertTotals(gs[1..], k, q, less);
      }
    }
  }

  lemma {:induction false} InsertSum<K>(gs: seq<Group<K>>, k: K, q: nat, less: (K, K) -> bool)
    ensures SumTotals(Insert(gs, k, q, less)) == SumTotals(gs) + q
  {
    if |gs| > 0 && gs[0].key != k && !less(k, gs[0].key) {
      InsertSum(gs[1..], k, q, less);
    }
  }

  /** Groups the (key, quantity) items: the model of
      `groupby(key)[quantity].sum().reset_index()`. */
  function GroupSum<K(==,!new)>(items: seq<(K, nat)>, less: (K, K) -> bool): (r: seq<Group<K>>)
    requires StrictTotalOrder(less)
    ensures Ascending(r, less)
    ensures Keys(r) == ItemKeys(items)
    ensures forall k :: TotalOf(r, k) == SumWhere(items, k)
    ensures SumTotals(r) == SumQuantities(items)
    ensures |r| <= |items|
  {
    if |items| == 0 then []
    else
      var rest := GroupSum(items[1..], less);
      assert items == [items[0]] + items[1..];
      assert ItemKeys(items) == {items[0].0} + ItemKeys(items[1..]);
      InsertKeys(rest, items[0].0, items[0].1, less);
      InsertAscending(rest, items[0].0, items[0].1, less);
      InsertTotals(rest, items[0].0, items[0].1, less);
      InsertSum(rest, items[0].0, items[0].1, less);
      Insert(rest, items[0].0, items[0].1, less)
  }

  lemma AscendingDistinct<K(!new)>(gs: seq<Group<K>>, less: (K, K) -> bool)
    requires StrictTotalOrder(less)
    requires Ascending(gs, less)
    ensures DistinctKeys(gs)
  {
  }

  /** In rows with distinct keys, the total looked up by a row's key is that
      row's own total. */
  lemma {:induction false} TotalOfRow<K>(gs: seq<Group<K>>, i: nat)
    requires DistinctKeys(gs)
    requires i < |gs|
    ensures TotalOf(gs, gs[i].key) == gs[i].total
  {
    if i > 0 {
      TotalOfRow(gs[1..], i - 1);
    }
  }

  /** Every grouped row holds the sum over exactly the items with its key,
      and no two rows share a key. */
  lemma GroupRows<K(!new)>(items: seq<(K, nat)>, less: (K, K) -> bool)
    requires StrictTotalOrder(less)
    ensures DistinctKeys(GroupSum(items, less))
    ensures forall i :: 0 <= i < |GroupSum(items, less)| ==>
      GroupSum(items, less)[i].total == SumWhere(items, GroupSum(items, less)[i].key)
  {
    var gs := GroupSum(items, less);
    AscendingDistinct(gs, less);
    forall i | 0 <= i < |gs|
      ensures gs[i].total == SumWhere(items, gs[i].key)
    {
      TotalOfRow(gs, i);
    }
  }

  /** Rows with distinct keys are as many as their keys. */
  lemma {:induction false} DistinctKeysCount<K>(gs: seq<Group<K>>)
    requires DistinctKeys(gs)
    ensures |Keys(gs)| == |gs|
  {
    if |gs| > 0 {
      var rest := gs[1..];
      assert gs == [gs[0]] + rest;
      KeysCons(gs[0], rest);
      assert DistinctKeys(rest) by {
        forall i, j | 0 <= i < j < |rest|
          ensures rest[i].key != rest[j].key
        {
          assert rest[i] == gs[i + 1] && rest[j] == gs[j + 1];
        }
      }
      DistinctKeysCount(rest);
      forall g | g in rest
        ensures g.key != gs[0].key
      {
        var j :| 0 <= j < |rest| && rest[j] == g;
        assert gs[j + 1] == g;
      }
      assert gs[0].key !in Keys(rest);
    }
  }

  /** There is one grouped row per distinct key among the items. */
  lemma GroupCount<K(!new)>(items: seq<(K, nat)>, less: (K, K) -> bool)
    requires StrictTotalOrder(less)
    ensures |GroupSum(items, less)| == |ItemKeys(items)|
  {
    var gs := GroupSum(items, less);
    AscendingDistinct(gs, less);
    DistinctKeysCount(gs);
  }

  /** Boolean-mask row selection: the rows satisfying `p`, in their order. */
  function Where<T(!new)>(s: seq<T>, p: T -> bool): (r: seq<T>)
    ensures |r| <= |s|
    ensures forall x :: multiset(r)[x] == if p(x) then multiset(s)[x] else 0
  {
    if |s| == 0 then []
    else
      var rest := Where(s[1..], p);
      assert s == [s[0]] + s[1..];
      if p(s[0]) then [s[0]] + rest else rest
  }

  lemma WhereMembers<T(!new)>(s: seq<T>, p: T -> bool)
    ensures forall x :: x in Where(s, p) <==> x in s && p(x)
  {
    var r := Where(s, p);
    forall x
      ensures x in r <==> x in s && p(x)
    {
      assert x in r <==> multiset(r)[x] > 0;
      assert x in s <==> multiset(s)[x] > 0;
    }
  }

  /** A relation that holds between every earlier and later row still holds
      after filtering: the selection keeps the rows' relative order. */
  lemma {:induction false} WhereKeepsOrder<T(!new)>(s: seq<T>, p: T -> bool, before: (T, T) -> bool)
    requires forall i, j :: 0 <= i < j < |s| ==> before(s[i], s[j])
    ensures forall i, j :: 0 <= i < j < |Where(s, p)| ==> before(Where(s, p)[i], Where(s, p)[j])
  {
    if |s| > 0 {
      WhereKeepsOrder(s[1..], p, before);
      var rest := Where(s[1..], p);
      WhereMembers(s[1..], p);
      if p(s[0]) {
        forall j | 0 <= j < |rest|
          ensures before(s[0], rest[j])
        {
          assert rest[j] in s[1..];
        }
      }
    }
  }

  /** A weaker condition selects at least as many rows. */
  lemma {:induction false} WhereGrows<T(!new)>(s: seq<T>, p: T -> bool, q: T -> bool)
    requires forall x :: p(x) ==> q(x)
    ensures |Where(s, p)| <= |Where(s, q)|
  {
    if |s| > 0 {
      WhereGrows(s[1..], p, q);
    }
  }

  /** When every row satisfies the condition, all rows are kept. */
  lemma {:induction false} WhereAll<T(!new)>(s: seq<T>, p: T -> bool)
    requires forall i :: 0 <= i < |s| ==> p(s[i])
    ensures Where(s, p) == s
  {
    if |s| > 0 {
      WhereAll(s[1..], p);
      assert s == [s[0]] + s[1..];
    }
  }

  /** Python's string order: lexicographic by code point. */
  function StrLess(a: string, b: string): bool
  {
    if |b| == 0 then false
    else if |a| == 0 then true
    else if a[0] != b[0] then a[0] < b[0]
    else StrLess(a[1..], b[1..])
  }

  lemma {:induction false} StrLessIrreflexive(a: string)
    ensures !StrLess(a, a)
  {
    if |a| > 0 {
      StrLessIrreflexive(a[1..]);
    }
  }

  lemma {:induction false} StrLessTransitive(a: string, b: string, c: string)
    requires StrLess(a, b) && StrLess(b, c)
    ensures StrLess(a, c)
  {
    if |a| > 0 && a[0] == b[0] && b[0] == c[0] {
      StrLessTransitive(a[1..], b[1..], c[1..]);
    }
  }

  lemma {:induction false} StrLessTotal(a: string, b: string)
    requires a != b
    ensures StrLess(a, b) || StrLess(b, a)
  {
    if |a| > 0 && |b| > 0 && a[0] == b[0] {
      assert a == [a[0]] + a[1..] && b == [b[0]] + b[1..];
      StrLessTotal(a[1..], b[1..]);
    }
  }

  lemma StrLessOrder()
    ensures StrictTotalOrder(StrLess)
  {
    forall a ensures !StrLess(a, a) {
      StrLessIrreflexive(a);
    }
    forall a, b, c | StrLess(a, b) && StrLess(b, c) ensures StrLess(a, c) {
      StrLessTransitive(a, b, c);
    }
    forall a, b | a != b ensures StrLess(a, b) || StrLess(b, a) {
      StrLessTotal(a, b);
    }
  }

  /** The order of a two-column key such as `(_id, name)`: first column
      first, the second breaking ties. */
  function PairLess(a: (string, string), b: (string, string)): bool
  {
    StrLess(a.0, b.0) || (a.0 == b.0 && StrLess(a.1, b.1))
  }

  lemma PairLessOrder()
    ensures StrictTotalOrder(PairLess)
  {
    StrLessOrder();
  }

  function IntLess(a: int, b: int): bool
  {
    a < b
  }

  lemma IntLessOrder()
    ensures StrictTotalOrder(IntLess)
  {
  }
}
