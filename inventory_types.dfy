/** The inventory record, its four-valued status and the create/patch inputs
    (backend/src/types/inventory.ts), with the list transforms that the
    backend service and the browser components both apply to item lists. */
module InventoryTypes {
  import opened Wrappers
  import opened Seqs

  /** "In Stock" | "Low Stock" | "Ordered" | "Discontinued". */
  datatype Status = InStock | LowStock | Ordered | Discontinued

  /** One stored inventory record; timestamps are ISO strings. */
  datatype Item = Item(
    id: string,
    name: string,
    quantity: int,
    category: string,
    description: string,
    status: Status,
    createdAt: string,
    updatedAt: string)

  /** The body of a create request; `status` is optional. */
  datatype CreateItemData = CreateItemData(
    name: string,
    quantity: int,
    category: string,
    description: string,
    status: Option<Status>)

  /** `Partial<CreateItemData>`: only the fields the caller supplied are present. */
  datatype ItemPatch = ItemPatch(
    name: Option<string>,
    quantity: Option<int>,
    category: Option<string>,
    description: Option<string>,
    status: Option<Status>)

  /** Quantities at or below this count as low stock. */
  const LowStockThreshold: int := 5

  const WellStockedMessage: string := "All items are well-stocked!"

  /** The two statuses the read-time low-stock rule never overrides. */
  predicate IsSticky(s: Status) {
    s == Ordered || s == Discontinued
  }

  /** The test both the low-stock summary and the dashboard counter apply:
      status "Low Stock" or quantity at most the threshold. */
  predicate NeedsAttention(item: Item) {
    item.status == LowStock || item.quantity <= LowStockThreshold
  }

  /** `items.filter((item) => item.id !== id)`. */
  function RemoveId(items: seq<Item>, id: string): (r: seq<Item>)
    ensures forall x :: x in r <==> x in items && x.id != id
    ensures IsSubseq(r, items)
    ensures |r| == |items| <==> forall x | x in items :: x.id != id
    ensures (forall x | x in items :: x.id != id) ==> r == items
    ensures forall x :: multiset(r)[x] == if x.id != id then multiset(items)[x] else 0
  {
    FilterMultiplicity(items, (x: Item) => x.id != id);
    Filter(items, (x: Item) => x.id != id)
  }

  /** `items.map((item) => item.category)`. */
  function CategoriesOf(items: seq<Item>): (r: seq<string>)
    ensures |r| == |items|
    ensures forall i :: 0 <= i < |items| ==> r[i] == items[i].category
  {
    seq(|items|, i requires 0 <= i < |items| => items[i].category)
  }

  /** `items.slice(0, 3).map((item) => item.name)`: the names of at most the
      first three items, in order. */
  function PriorityNames(items: seq<Item>): (r: seq<string>)
    ensures |r| == if |items| < 3 then |items| else 3
    ensures forall i :: 0 <= i < |r| ==> r[i] == items[i].name
  {
    var names := seq(|items|, i requires 0 <= i < |items| => items[i].name);
    Take(names, 3)
  }
}
