/** The dashboard's counters and its low-stock summary text
    (src/components/DashboardStats.tsx). */
module DashboardStats {
  import opened Wrappers
  import opened Seqs
  import opened Text
  import opened InventoryTypes

  /** Counted "In Stock": status "In Stock" and a quantity above the threshold. */
  predicate CountsInStock(item: Item) {
    item.status == InStock && item.quantity > LowStockThreshold
  }

  predicate IsOrdered(item: Item) {
    item.status == Ordered
  }

  predicate IsDiscontinued(item: Item) {
    item.status == Discontinued
  }

  /** `items.reduce((sum, item) => sum + item.quantity, 0)`: 0 for no items,
      and not negative when no quantity is. */
  function TotalQuantity(items: seq<Item>): (r: int)
    ensures items == [] ==> r == 0
    ensures (forall x | x in items :: x.quantity >= 0) ==> r >= 0
    decreases |items|
  {
    if items == [] then 0
    else
      var init := items[..|items| - 1];
      assert forall x | x in init :: x in items;
      assert items[|items| - 1] in items;
      TotalQuantity(init) + items[|items| - 1].quantity
  }

  /** The total over two lists joined is the sum of their totals. */
  lemma {:induction false} TotalQuantityConcat(a: seq<Item>, b: seq<Item>)
    ensures TotalQuantity(a + b) == TotalQuantity(a) + TotalQuantity(b)
    decreases |b|
  {
    if b == [] {
      assert a + b == a;
    } else {
      var init := b[..|b| - 1];
      assert (a + b)[..|a + b| - 1] == a + init;
      TotalQuantityConcat(a, init);
    }
  }

  /** The dashboard figures. */
  datatype Stats = Stats(
    totalItems: nat,
    inStock: nat,
    lowStock: nat,
    ordered: nat,
    discontinued: nat,
    categories: nat,
    totalQuantity: int)

  /** The counters: the items needing attention (status "Low Stock" or
      quantity at most the threshold), the items in stock above the
      threshold, the ordered and the discontinued items, the distinct
      categories, and the sum of the quantities. */
  function ComputeStats(items: seq<Item>): (st: Stats)
    ensures st.totalItems == |items|
    ensures st.lowStock == |Filter(items, NeedsAttention)|
    ensures st.inStock == |Filter(items, CountsInStock)|
    ensures st.ordered == |Filter(items, IsOrdered)|
    ensures st.discontinued == |Filter(items, IsDiscontinued)|
    ensures st.categories == |Dedup(CategoriesOf(items))|
    ensures st.totalQuantity == TotalQuantity(items)
    ensures items == [] ==> st == Stats(0, 0, 0, 0, 0, 0, 0)
    ensures st.lowStock + st.inStock <= st.totalItems
    ensures st.ordered + st.discontinued <= st.totalItems
    ensures st.categories <= st.totalItems
    ensures st.categories == 0 <==> st.totalItems == 0
    ensures (forall x | x in items :: x.quantity >= 0) ==> st.totalQuantity >= 0
  {
    FilterDisjointCounts(items, NeedsAttention, CountsInStock);
    FilterDisjointCounts(items, IsOrdered, IsDiscontinued);
    Stats(
      |items|,
      |Filter(items, CountsInStock)|,
      |Filter(items, NeedsAttention)|,
      |Filter(items, IsOrdered)|,
      |Filter(items, IsDiscontinued)|,
      |Dedup(CategoriesOf(items))|,
      TotalQuantity(items))
  }

  /** Which items each counter counts: one more item raises the low-stock
      counter exactly when its status is "Low Stock" or its quantity is at
      most the threshold, the in-stock counter exactly when it is "In Stock"
      above the threshold, the ordered and discontinued counters by status,
      the category count exactly when its category is new, and the total by
      its quantity. With the empty list giving all zeros, this fixes every
      counter for every list. */
  lemma CountedItems(items: seq<Item>, x: Item)
    ensures var st, st' := ComputeStats(items), ComputeStats(items + [x]);
      && st'.totalItems == st.totalItems + 1
      && st'.lowStock == st.lowStock + (if x.status == LowStock || x.quantity <= LowStockThreshold then 1 else 0)
      && st'.inStock == st.inStock + (if x.status == InStock && x.quantity > LowStockThreshold then 1 else 0)
      && st'.ordered == st.ordered + (if x.status == Ordered then 1 else 0)
      && st'.discontinued == st.discontinued + (if x.status == Discontinued then 1 else 0)
      && st'.categories == st.categories + (if exists y :: y in items && y.category == x.category then 0 else 1)
      && st'.totalQuantity == st.totalQuantity + x.quantity
  {
    CountedByStatus(items, x);
    CountedCategories(items, x);
    TotalQuantityConcat(items, [x]);
    assert TotalQuantity([x]) == x.quantity by {
      assert [x][..0] == [];
    }
  }

  /** The four status counters under one more item. */
  lemma CountedByStatus(items: seq<Item>, x: Item)
    ensures |Filter(items + [x], NeedsAttention)| == |Filter(items, NeedsAttention)| + (if NeedsAttention(x) then 1 else 0)
    ensures |Filter(items + [x], CountsInStock)| == |Filter(items, CountsInStock)| + (if CountsInStock(x) then 1 else 0)
    ensures |Filter(items + [x], IsOrdered)| == |Filter(items, IsOrdered)| + (if IsOrdered(x) then 1 else 0)
    ensures |Filter(items + [x], IsDiscontinued)| == |Filter(items, IsDiscontinued)| + (if IsDiscontinued(x) then 1 else 0)
  {
    FilterAppend(items, x, NeedsAttention);
    FilterAppend(items, x, CountsInStock);
    FilterAppend(items, x, IsOrdered);
    FilterAppend(items, x, IsDiscontinued);
  }

  /** The category count under one more item: it grows exactly when the
      item's category is new. */
  lemma CountedCategories(items: seq<Item>, x: Item)
    ensures |Dedup(CategoriesOf(items + [x]))| ==
      |Dedup(CategoriesOf(items))| + (if exists y :: y in items && y.category == x.category then 0 else 1)
  {
    var cats := CategoriesOf(items);
    assert CategoriesOf(items + [x]) == cats + [x.category];
    DedupFromAppend(cats, x.category, {});
    if exists y :: y in items && y.category == x.category {
      var y :| y in items && y.category == x.category;
      var i :| 0 <= i < |items| && items[i] == y;
      assert cats[i] == x.category;
    } else {
      assert x.category !in cats;
    }
  }

  /** The fallback alert shown when the summary request fails. */
  function FallbackAlert(low: seq<Item>): (s: string)
    ensures "Alert: " + NatToString(|low|) + " items need attention" <= s
    ensures s != WellStockedMessage
  {
    var head := "Alert: " + NatToString(|low|) + " items need attention";
    var s := head + ". Priority items: " + Join(PriorityNames(low), ", ") + ".";
    assert s[..|head|] == head;
    assert s[2] != WellStockedMessage[2];
    s
  }

  /** The summary the dashboard shows: `fetched` is the reply of the summary
      request, None when it failed. Exactly the fixed message when nothing
      needs attention. */
  function DashboardSummary(items: seq<Item>, fetched: Option<string>): (s: string)
    ensures (forall x | x in items :: !NeedsAttention(x)) ==> s == WellStockedMessage
    ensures (exists x :: x in items && NeedsAttention(x)) && fetched.Some? ==> s == fetched.value
    ensures (exists x :: x in items && NeedsAttention(x)) && fetched.None? ==>
      s == FallbackAlert(Filter(items, NeedsAttention)) && s != WellStockedMessage
  {
    var low := Filter(items, NeedsAttention);
    if |low| == 0 then WellStockedMessage
    else
      assert low[0] in low;
      match fetched
      case Some(summary) => summary
      case None => FallbackAlert(low)
  }
}
