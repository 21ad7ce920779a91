/**
 * OrderItemAnalyticsRepository: the two JPQL aggregation queries over order items, as functions.
 * Each keeps the items whose order was created within [start, end], groups them by a key (the
 * product, or the order's user), sums quantity and unit price times quantity per group, and
 * orders the groups by one of the sums, largest first.
 */
module OrderItemAnalyticsRepository {

  /** An order item joined with its order: the columns the queries read. */
  datatype ItemRow = ItemRow(productId: int, userId: int, createdAt: int, quantity: int, unitPrice: int)

  /** One group of a result: its key and its two sums. */
  datatype Entry = Entry(key: int, quantity: int, revenue: int)

  /** Which sum a query orders by. */
  datatype SortKey = ByQuantity | ByRevenue

  function Weight(e: Entry, order: SortKey): int {
    match order
    case ByQuantity => e.quantity
    case ByRevenue => e.revenue
  }

  /** `createdAt BETWEEN :start AND :end`, both ends included. */
  function InRange(items: seq<ItemRow>, start: int, end: int): (r: seq<ItemRow>)
    ensures forall x :: x in r <==> x in items && start <= x.createdAt <= end
    decreases |items|
  {
    if |items| == 0 then []
    else
      var rest := InRange(items[..|items| - 1], start, end);
      var last := items[|items| - 1];
      assert items == items[..|items| - 1] + [last];
      if start <= last.createdAt <= end then rest + [last] else rest
  }

  /** The range filter distributes over concatenation, so it keeps every in-range item, with its
      multiplicity, in order. */
  lemma {:induction false} InRangeAppend(a: seq<ItemRow>, b: seq<ItemRow>, start: int, end: int)
    ensures InRange(a + b, start, end) == InRange(a, start, end) + InRange(b, start, end)
    decreases |b|
  {
    if |b| == 0 {
      assert a + b == a;
    } else {
      var init := b[..|b| - 1];
      assert (a + b)[..|a + b| - 1] == a + init;
      assert (a + b)[|a + b| - 1] == b[|b| - 1];
      InRangeAppend(a, init, start, end);
    }
  }

  /** The position of the group with that key, or -1. */
  function KeyIndex(rows: seq<Entry>, key: int): (k: int)
    ensures -1 <= k < |rows|
    ensures k >= 0 ==> rows[k].key == key
    ensures k == -1 <==> forall j :: 0 <= j < |rows| ==> rows[j].key != key
    decreases |rows|
  {
    if |rows| == 0 then -1
    else if rows[0].key == key then 0
    else
      var j := KeyIndex(rows[1..], key);
      if j == -1 then -1 else j + 1
  }

  predicate KeysDistinct(rows: seq<Entry>) {
    forall i, j :: 0 <= i < j < |rows| ==> rows[i].key != rows[j].key
  }

  /** The sum of the quantities of the entries with that key. */
  function SumQuantity(es: seq<Entry>, key: int): int
    decreases |es|
  {
    if |es| == 0 then 0
    else SumQuantity(es[..|es| - 1], key) + (if es[|es| - 1].key == key then es[|es| - 1].quantity else 0)
  }

  /** The sum of the revenues of the entries with that key. */
  function SumRevenue(es: seq<Entry>, key: int): int
    decreases |es|
  {
    if |es| == 0 then 0
    else SumRevenue(es[..|es| - 1], key) + (if es[|es| - 1].key == key then es[|es| - 1].revenue else 0)
  }

  /** The sum of all revenues. */
  function TotalRevenue(es: seq<Entry>): int
    decreases |es|
  {
    if |es| == 0 then 0 else TotalRevenue(es[..|es| - 1]) + es[|es| - 1].revenue
  }

  /** A key occurs in a sequence when it occurs before the last entry or is the last entry's. */
  lemma HasKeyLast(es: seq<Entry>, key: int)
    requires |es| > 0
    ensures HasKey(es, key) <==> HasKey(es[..|es| - 1], key) || es[|es| - 1].key == key
  {
    var pre := es[..|es| - 1];
    if HasKey(pre, key) {
      var j :| 0 <= j < |pre| && pre[j].key == key;
      assert es[j] == pre[j];
    }
  }

  /** A key that no entry has sums to zero. */
  lemma {:induction false} AbsentKeySumsToZero(es: seq<Entry>, key: int)
    requires !HasKey(es, key)
    ensures SumQuantity(es, key) == 0 && SumRevenue(es, key) == 0
    decreases |es|
  {
    if |es| > 0 {
      HasKeyLast(es, key);
      AbsentKeySumsToZero(es[..|es| - 1], key);
    }
  }

  /** Adds one entry to the groups: into its key's group, or as a new group at the end. */
  function AddEntry(rows: seq<Entry>, e: Entry): seq<Entry> {
    var k := KeyIndex(rows, e.key);
    if k >= 0 then rows[k := Entry(e.key, rows[k].quantity + e.quantity, rows[k].revenue + e.revenue)]
    else rows + [e]
  }

  /** `GROUP BY key` with `SUM` of both columns; groups appear in the order their key first occurs. */
  function GroupSum(es: seq<Entry>): seq<Entry>
    decreases |es|
  {
    if |es| == 0 then [] else AddEntry(GroupSum(es[..|es| - 1]), es[|es| - 1])
  }

  /** True when some entry has the key. */
  predicate HasKey(es: seq<Entry>, key: int) {
    exists j :: 0 <= j < |es| && es[j].key == key
  }

  /** Adding an entry keeps the keys distinct and adds its key to the keys present. */
  lemma AddEntryKeys(rows: seq<Entry>, e: Entry)
    requires KeysDistinct(rows)
    ensures KeysDistinct(AddEntry(rows, e))
    ensures forall key :: KeyIndex(AddEntry(rows, e), key) >= 0 <==> KeyIndex(rows, key) >= 0 || key == e.key
  {
    var after := AddEntry(rows, e);
    var k := KeyIndex(rows, e.key);
    forall key ensures KeyIndex(after, key) >= 0 <==> KeyIndex(rows, key) >= 0 || key == e.key {
      if KeyIndex(rows, key) >= 0 {
        assert after[KeyIndex(rows, key)].key == key;
      }
      if key == e.key && k < 0 {
        assert after[|rows|].key == key;
      }
      if KeyIndex(after, key) >= 0 && key != e.key {
        assert rows[KeyIndex(after, key)].key == key;
      }
    }
  }

  /** Grouping gives distinct keys, exactly the keys that occur. */
  lemma {:induction false} GroupSumKeys(es: seq<Entry>)
    ensures KeysDistinct(GroupSum(es))
    ensures forall key :: KeyIndex(GroupSum(es), key) >= 0 <==> HasKey(es, key)
    decreases |es|
  {
    if |es| > 0 {
      var pre, e := es[..|es| - 1], es[|es| - 1];
      GroupSumKeys(pre);
      AddEntryKeys(GroupSum(pre), e);
      forall key ensures HasKey(es, key) <==> HasKey(pre, key) || e.key == key {
        HasKeyLast(es, key);
      }
    }
  }

  /** Each group holds the sums of its key's entries. */
  lemma {:induction false} GroupSumSums(es: seq<Entry>)
    ensures forall i :: 0 <= i < |GroupSum(es)| ==>
      GroupSum(es)[i].quantity == SumQuantity(es, GroupSum(es)[i].key) &&
      GroupSum(es)[i].revenue == SumRevenue(es, GroupSum(es)[i].key)
    decreases |es|
  {
    if |es| > 0 {
      var pre, e := es[..|es| - 1], es[|es| - 1];
      GroupSumSums(pre);
      GroupSumKeys(pre);
      var rows := GroupSum(pre);
      var after := GroupSum(es);
      assert after == AddEntry(rows, e);
      if KeyIndex(rows, e.key) < 0 {
        AbsentKeySumsToZero(pre, e.key);
      }
      forall i | 0 <= i < |after|
        ensures after[i].quantity == SumQuantity(es, after[i].key) && after[i].revenue == SumRevenue(es, after[i].key)
      {
        if i < |rows| && rows[i].key != e.key {
          assert after[i] == rows[i];
        }
      }
    }
  }

  /**
   * Grouping gives one group per key that occurs and no other; each group holds the sums of its
   * key's entries.
   */
  lemma GroupSumSpec(es: seq<Entry>)
    ensures KeysDistinct(GroupSum(es))
    ensures forall key :: KeyIndex(GroupSum(es), key) >= 0 <==> HasKey(es, key)
    ensures forall i :: 0 <= i < |GroupSum(es)| ==>
      GroupSum(es)[i].quantity == SumQuantity(es, GroupSum(es)[i].key) &&
      GroupSum(es)[i].revenue == SumRevenue(es, GroupSum(es)[i].key)
  {
    GroupSumKeys(es);
    GroupSumSums(es);
  }

  /** The groups' revenues add up to the revenue of all entries. */
  lemma {:induction false} GroupSumTotal(es: seq<Entry>)
    ensures TotalRevenue(GroupSum(es)) == TotalRevenue(es)
    decreases |es|
  {
    if |es| > 0 {
      var pre, e := es[..|es| - 1], es[|es| - 1];
      GroupSumTotal(pre);
      assert GroupSum(es) == AddEntry(GroupSum(pre), e);
      assert TotalRevenue(es) == TotalRevenue(pre) + e.revenue;
      AddEntryTotal(GroupSum(pre), e);
    }
  }

  /** Adding an entry to the groups adds its revenue to their total. */
  lemma AddEntryTotal(rows: seq<Entry>, e: Entry)
    ensures TotalRevenue(AddEntry(rows, e)) == TotalRevenue(rows) + e.revenue
  {
    var k := KeyIndex(rows, e.key);
    if k >= 0 {
      TotalRevenueUpdate(rows, k, Entry(e.key, rows[k].quantity + e.quantity, rows[k].revenue + e.revenue));
    } else {
      assert (rows + [e])[..|rows|] == rows;
    }
  }

  /** Replacing one entry changes the total by the difference of the two revenues. */
  lemma {:induction false} TotalRevenueUpdate(rows: seq<Entry>, k: nat, x: Entry)
    requires k < |rows|
    ensures TotalRevenue(rows[k := x]) == TotalRevenue(rows) - rows[k].revenue + x.revenue
    decreases |rows|
  {
    var n := |rows| - 1;
    if k < n {
      assert rows[k := x][..n] == rows[..n][k := x];
      TotalRevenueUpdate(rows[..n], k, x);
    } else {
      assert rows[k := x][..n] == rows[..n];
    }
  }

  predicate SortedDesc(rows: seq<Entry>, order: SortKey) {
    forall i, j :: 0 <= i < j < |rows| ==> Weight(rows[i], order) >= Weight(rows[j], order)
  }

  /** Inserts an entry before the first entry it outweighs. */
  function InsertDesc(rows: seq<Entry>, x: Entry, order: SortKey): (r: seq<Entry>)
    requires SortedDesc(rows, order)
    ensures SortedDesc(r, order)
    ensures multiset(r) == multiset(rows) + multiset{x}
    ensures |r| > 0 && (r[0] == x || (|rows| > 0 && r[0] == rows[0]))
    decreases |rows|
  {
    if |rows| == 0 then [x]
    else if Weight(x, order) > Weight(rows[0], order) then
      SortedDescCons(x, rows, order);
      [x] + rows
    else
      var rest := InsertDesc(rows[1..], x, order);
      assert multiset(rows) == multiset{rows[0]} + multiset(rows[1..]) by {
        assert rows == [rows[0]] + rows[1..];
      }
      SortedDescCons(rows[0], rest, order);
      [rows[0]] + rest
  }

  /** An entry at least as heavy as the head of a sorted list can go in front of it. */
  lemma SortedDescCons(x: Entry, rest: seq<Entry>, order: SortKey)
    requires SortedDesc(rest, order)
    requires |rest| > 0 ==> Weight(x, order) >= Weight(rest[0], order)
    ensures SortedDesc([x] + rest, order)
  {
    var s := [x] + rest;
    forall i, j | 0 <= i < j < |s| ensures Weight(s[i], order) >= Weight(s[j], order) {
      assert s[j] == rest[j - 1];
      if i > 0 {
        assert s[i] == rest[i - 1];
      } else if j > 1 {
        assert Weight(rest[0], order) >= Weight(rest[j - 1], order);
      }
    }
  }

  /**
   * `ORDER BY ... DESC`: an insertion sort on the chosen sum. The first group goes into the sorted
   * rest behind the groups of equal weight, so groups of equal weight come out in the reverse of
   * their input order.
   */
  function SortDesc(rows: seq<Entry>, order: SortKey): (r: seq<Entry>)
    ensures SortedDesc(r, order)
    ensures multiset(r) == multiset(rows)
    decreases |rows|
  {
    if |rows| == 0 then []
    else
      var sorted := SortDesc(rows[1..], order);
      assert multiset(rows) == multiset(rows[1..]) + multiset{rows[0]} by {
        assert rows == [rows[0]] + rows[1..];
      }
      InsertDesc(sorted, rows[0], order)
  }

  /** Sorting keeps distinct keys distinct. */
  lemma {:induction false} SortKeepsKeysDistinct(rows: seq<Entry>, order: SortKey)
    requires KeysDistinct(rows)
    ensures KeysDistinct(SortDesc(rows, order))
    decreases |rows|
  {
    if |rows| > 0 {
      var tail := rows[1..];
      assert KeysDistinct(tail) by {
        forall i, j | 0 <= i < j < |tail| ensures tail[i].key != tail[j].key {
          assert tail[i] == rows[i + 1] && tail[j] == rows[j + 1];
        }
      }
      SortKeepsKeysDistinct(tail, order);
      var sorted := SortDesc(tail, order);
      forall y | y in sorted ensures y.key != rows[0].key {
        assert y in multiset(tail);
        var j :| 0 <= j < |tail| && tail[j] == y;
        assert rows[j + 1] == y;
      }
      InsertKeepsKeysDistinct(sorted, rows[0], order);
    }
  }

  lemma {:induction false} InsertKeepsKeysDistinct(rows: seq<Entry>, x: Entry, order: SortKey)
    requires SortedDesc(rows, order) && KeysDistinct(rows)
    requires forall y :: y in rows ==> y.key != x.key
    ensures KeysDistinct(InsertDesc(rows, x, order))
    decreases |rows|
  {
    if |rows| == 0 || Weight(x, order) > Weight(rows[0], order) {
      KeysDistinctCons(x, rows);
    } else {
      var tail := rows[1..];
      assert KeysDistinct(tail) by {
        forall i, j | 0 <= i < j < |tail| ensures tail[i].key != tail[j].key {
          assert tail[i] == rows[i + 1] && tail[j] == rows[j + 1];
        }
      }
      assert forall y :: y in tail ==> y in rows;
      InsertKeepsKeysDistinct(tail, x, order);
      var rest := InsertDesc(tail, x, order);
      assert InsertDesc(rows, x, order) == [rows[0]] + rest;
      forall y | y in rest ensures y.key != rows[0].key {
        assert y in multiset(tail) + multiset{x};
        if y != x {
          var j :| 0 <= j < |tail| && tail[j] == y;
          assert rows[j + 1] == y;
        }
      }
      KeysDistinctCons(rows[0], rest);
    }
  }

  /** An entry whose key no later entry has can go in front of a list with distinct keys. */
  lemma KeysDistinctCons(x: Entry, rest: seq<Entry>)
    requires KeysDistinct(rest) && forall y :: y in rest ==> y.key != x.key
    ensures KeysDistinct([x] + rest)
  {
    var s := [x] + rest;
    forall i, j | 0 <= i < j < |s| ensures s[i].key != s[j].key {
      assert s[j] == rest[j - 1];
      if i > 0 {
        assert s[i] == rest[i - 1];
      }
    }
  }

  /** Each item as an entry under a key: its product or its order's user. */
  function ProductEntries(items: seq<ItemRow>): (es: seq<Entry>)
    ensures |es| == |items|
    ensures forall i :: 0 <= i < |items| ==>
      es[i] == Entry(items[i].productId, items[i].quantity, items[i].unitPrice * items[i].quantity)
  {
    seq(|items|, i requires 0 <= i < |items| => Entry(items[i].productId, items[i].quantity, items[i].unitPrice * items[i].quantity))
  }

  function CustomerEntries(items: seq<ItemRow>): (es: seq<Entry>)
    ensures |es| == |items|
    ensures forall i :: 0 <= i < |items| ==>
      es[i] == Entry(items[i].userId, items[i].quantity, items[i].unitPrice * items[i].quantity)
  {
    seq(|items|, i requires 0 <= i < |items| => Entry(items[i].userId, items[i].quantity, items[i].unitPrice * items[i].quantity))
  }

  /** `findTopProducts`: (product id, summed quantity, summed revenue), most units first. */
  function FindTopProducts(items: seq<ItemRow>, start: int, end: int): seq<Entry> {
    SortDesc(GroupSum(ProductEntries(InRange(items, start, end))), ByQuantity)
  }

  /** `findTopCustomers`: (user id, summed revenue), highest revenue first. */
  function FindTopCustomers(items: seq<ItemRow>, start: int, end: int): seq<Entry> {
    SortDesc(GroupSum(CustomerEntries(InRange(items, start, end))), ByRevenue)
  }

  /** What a sorted grouping promises: distinct keys, exactly the keys that occur, the sums per key, the order. */
  ghost predicate IsSortedGrouping(es: seq<Entry>, rows: seq<Entry>, order: SortKey) {
    && KeysDistinct(rows)
    && SortedDesc(rows, order)
    && (forall i :: 0 <= i < |rows| ==>
          HasKey(es, rows[i].key) && rows[i].quantity == SumQuantity(es, rows[i].key) && rows[i].revenue == SumRevenue(es, rows[i].key))
    && (forall key :: HasKey(es, key) ==> exists i :: 0 <= i < |rows| && rows[i].key == key)
  }

  lemma SortedGroupSum(es: seq<Entry>, order: SortKey)
    ensures IsSortedGrouping(es, SortDesc(GroupSum(es), order), order)
  {
    var grouped := GroupSum(es);
    var rows := SortDesc(grouped, order);
    GroupSumSpec(es);
    SortKeepsKeysDistinct(grouped, order);
    forall i | 0 <= i < |rows|
      ensures HasKey(es, rows[i].key) && rows[i].quantity == SumQuantity(es, rows[i].key) && rows[i].revenue == SumRevenue(es, rows[i].key)
    {
      assert rows[i] in multiset(grouped);
      var j :| 0 <= j < |grouped| && grouped[j] == rows[i];
      assert KeyIndex(grouped, rows[i].key) >= 0;
    }
    forall key | HasKey(es, key) ensures exists i :: 0 <= i < |rows| && rows[i].key == key {
      var j := KeyIndex(grouped, key);
      assert grouped[j] in multiset(rows);
      var i :| 0 <= i < |rows| && rows[i] == grouped[j];
    }
  }

  /**
   * `findTopProducts` gives one row per product sold in the range and no other, with that
   * product's summed quantity and revenue over the in-range items, ordered by quantity, largest first.
   */
  lemma TopProductsSpec(items: seq<ItemRow>, start: int, end: int)
    ensures IsSortedGrouping(ProductEntries(InRange(items, start, end)), FindTopProducts(items, start, end), ByQuantity)
  {
    SortedGroupSum(ProductEntries(InRange(items, start, end)), ByQuantity);
  }

  /** `findTopCustomers`: one row per buying user in the range, with summed revenue, ordered by revenue. */
  lemma TopCustomersSpec(items: seq<ItemRow>, start: int, end: int)
    ensures IsSortedGrouping(CustomerEntries(InRange(items, start, end)), FindTopCustomers(items, start, end), ByRevenue)
  {
    SortedGroupSum(CustomerEntries(InRange(items, start, end)), ByRevenue);
  }

  /** Items outside the range contribute nothing: only in-range items have entries. */
  lemma OutOfRangeIgnored(items: seq<ItemRow>, start: int, end: int, x: ItemRow)
    requires x.createdAt < start || x.createdAt > end
    ensures InRange(items + [x], start, end) == InRange(items, start, end)
  {
    assert (items + [x])[..|items|] == items;
  }
}
