/** The backend item store (backend/src/services/inventoryService.ts): the
    JSON file becomes the `file` field of an `InventoryService` object, and
    every operation reads it whole and replaces it whole. */
module Inventory {
  import opened Wrappers
  import opened Seqs
  import opened Text
  import opened InventoryTypes

  /** Read-time status resolution: a quantity at or below the threshold turns
      any non-sticky status into "Low Stock"; nothing but `status` changes. */
  function UpdateItemStatus(item: Item): (r: Item)
    ensures r.(status := item.status) == item
    ensures r.status == LowStock <==>
      item.status == LowStock || (item.quantity <= LowStockThreshold && !IsSticky(item.status))
    ensures r.status != LowStock ==> r == item
  {
    if item.quantity <= LowStockThreshold && item.status != Ordered && item.status != Discontinued
    then item.(status := LowStock)
    else item
  }

  /** Resolving a resolved item changes nothing. */
  lemma UpdateItemStatusIdempotent(item: Item)
    ensures UpdateItemStatus(UpdateItemStatus(item)) == UpdateItemStatus(item)
  {
  }

  /** Resolution does not change which items need attention. */
  lemma ResolutionKeepsAttention(item: Item)
    ensures NeedsAttention(UpdateItemStatus(item)) == NeedsAttention(item)
  {
  }

  /** `items.map(this.updateItemStatus)`. */
  function ResolveAll(items: seq<Item>): (r: seq<Item>)
    ensures |r| == |items|
    ensures forall i :: 0 <= i < |items| ==> r[i] == UpdateItemStatus(items[i])
  {
    seq(|items|, i requires 0 <= i < |items| => UpdateItemStatus(items[i]))
  }

  /** After resolution exactly the same stored items need attention. */
  lemma ResolveAllKeepsAttention(items: seq<Item>)
    ensures (forall x | x in ResolveAll(items) :: !NeedsAttention(x)) <==>
            (forall x | x in items :: !NeedsAttention(x))
  {
    var r := ResolveAll(items);
    if exists x :: x in items && NeedsAttention(x) {
      var x :| x in items && NeedsAttention(x);
      var i :| 0 <= i < |items| && items[i] == x;
      assert r[i] in r && NeedsAttention(r[i]);
    }
    if exists x :: x in r && NeedsAttention(x) {
      var x :| x in r && NeedsAttention(x);
      var i :| 0 <= i < |r| && r[i] == x;
      assert items[i] in items && NeedsAttention(items[i]);
    }
  }

  /** `items.findIndex((item) => item.id === id)`, None for -1. */
  function FindIndex(items: seq<Item>, id: string): (k: Option<nat>)
    ensures k.None? <==> forall x | x in items :: x.id != id
    ensures k.Some? ==> k.value < |items| && items[k.value].id == id
    ensures k.Some? ==> forall j :: 0 <= j < k.value ==> items[j].id != id
  {
    if items == [] then None
    else if items[0].id == id then Some(0)
    else
      match FindIndex(items[1..], id)
      case None => None
      case Some(k) => Some(k + 1)
  }

  /** The record `createItem` builds: the supplied fields, the given id, the
      two timestamps read from the clock one after the other, and a status forced to "Low Stock" for a quantity at or below
      the threshold whatever status was supplied, else the supplied status or
      "In Stock". */
  function NewItem(data: CreateItemData, id: string, createdAt: string, updatedAt: string): (r: Item)
    ensures r.id == id && r.createdAt == createdAt && r.updatedAt == updatedAt
    ensures r.name == data.name && r.quantity == data.quantity
    ensures r.category == data.category && r.description == data.description
    ensures data.quantity <= LowStockThreshold ==> r.status == LowStock
    ensures data.quantity > LowStockThreshold && data.status.Some? ==> r.status == data.status.value
    ensures data.quantity > LowStockThreshold && data.status.None? ==> r.status == InStock
  {
    Item(id, data.name, data.quantity, data.category, data.description,
         if data.quantity <= LowStockThreshold then LowStock else data.status.GetOr(InStock),
         createdAt, updatedAt)
  }

  /** A created record is already resolved: reading it back gives it unchanged. */
  lemma NewItemIsResolved(data: CreateItemData, id: string, createdAt: string, updatedAt: string)
    ensures UpdateItemStatus(NewItem(data, id, createdAt, updatedAt)) == NewItem(data, id, createdAt, updatedAt)
  {
  }

  /** The record `updateItem` stores: the patch's fields over the current record,
      the same id and creation time, a fresh `updatedAt`, and a status forced
      to "Low Stock" when the patch carries a quantity at or below the
      threshold (even over "Ordered" or "Discontinued"), else the patch's
      status or the current one. */
  function MergePatch(current: Item, patch: ItemPatch, now: string): (r: Item)
    ensures r.id == current.id && r.createdAt == current.createdAt && r.updatedAt == now
    ensures r.name == (if patch.name.Some? then patch.name.value else current.name)
    ensures r.quantity == (if patch.quantity.Some? then patch.quantity.value else current.quantity)
    ensures r.category == (if patch.category.Some? then patch.category.value else current.category)
    ensures r.description == (if patch.description.Some? then patch.description.value else current.description)
    ensures patch.quantity.Some? && patch.quantity.value <= LowStockThreshold ==> r.status == LowStock
    ensures !(patch.quantity.Some? && patch.quantity.value <= LowStockThreshold) ==>
      r.status == (if patch.status.Some? then patch.status.value else current.status)
  {
    current.(
      name := patch.name.GetOr(current.name),
      quantity := patch.quantity.GetOr(current.quantity),
      category := patch.category.GetOr(current.category),
      description := patch.description.GetOr(current.description),
      status :=
        if patch.quantity.Some? && patch.quantity.value <= LowStockThreshold then LowStock
        else patch.status.GetOr(current.status),
      updatedAt := now)
  }

  /** The write-time rule is not sticky: an "Ordered" item whose quantity is
      patched to 1 is stored, and returned, as "Low Stock". */
  lemma OrderedItemPatchedLowIsStoredLowStock(current: Item, now: string)
    requires current.status == Ordered
    ensures MergePatch(current, ItemPatch(None, Some(1), None, None, None), now).status == LowStock
    ensures UpdateItemStatus(MergePatch(current, ItemPatch(None, Some(1), None, None, None), now)).status == LowStock
  {
  }

  /** The stored and the returned record of an update can differ: a
      low-quantity item patched only to "In Stock" is stored "In Stock" but
      returned "Low Stock". */
  lemma StoredAndReturnedCanDiffer(current: Item, now: string)
    requires current.quantity <= LowStockThreshold
    ensures MergePatch(current, ItemPatch(None, None, None, None, Some(InStock)), now).status == InStock
    ensures UpdateItemStatus(MergePatch(current, ItemPatch(None, None, None, None, Some(InStock)), now)).status == LowStock
  {
  }

  /** `Math.max(a, b)` on two numbers. */
  function Max(a: int, b: int): int {
    if a >= b then a else b
  }

  /** `suggestReorderQuantity` with `jitter` standing for
      `Math.floor(Math.random() * 10)`: the outer floor of 5 never binds, so
      the result is twice the quantity (at least 10) plus a variation in
      [-5, 4]. */
  function SuggestReorderQuantity(item: Item, jitter: int): (r: int)
    requires 0 <= jitter <= 9
    ensures r == Max(10, 2 * item.quantity) + jitter - 5
    ensures 5 <= r <= Max(10, 2 * item.quantity) + 4
  {
    var baseReorder := Max(10, item.quantity * 2);
    var randomVariation := jitter - 5;
    Max(5, baseReorder + randomVariation)
  }

  /** For a fixed jitter the suggestion does not decrease with the quantity. */
  lemma SuggestReorderQuantityMonotone(a: Item, b: Item, jitter: int)
    requires 0 <= jitter <= 9
    requires a.quantity <= b.quantity
    ensures SuggestReorderQuantity(a, jitter) <= SuggestReorderQuantity(b, jitter)
  {
  }

  /** What the low-stock alert reports: how many items need attention, their
      distinct categories, and the names of the first three. */
  datatype LowStockReport = LowStockReport(count: nat, categories: seq<string>, priority: seq<string>)

  function LowStockReportOf(items: seq<Item>): (r: LowStockReport)
    ensures r.count == |Filter(items, NeedsAttention)|
    ensures forall c :: c in r.categories <==> exists x :: x in items && NeedsAttention(x) && x.category == c
    ensures NoDuplicates(r.categories)
    ensures forall c :: c in r.categories ==> c in CategoriesOf(Filter(items, NeedsAttention))
    ensures forall i, j :: 0 <= i < j < |r.categories| ==>
      FirstIndex(CategoriesOf(Filter(items, NeedsAttention)), r.categories[i]) <
      FirstIndex(CategoriesOf(Filter(items, NeedsAttention)), r.categories[j])
    ensures |r.priority| == if r.count < 3 then r.count else 3
    ensures forall i :: 0 <= i < |r.priority| ==> r.priority[i] == Filter(items, NeedsAttention)[i].name
  {
    var low := Filter(items, NeedsAttention);
    var cats := CategoriesOf(low);
    DedupKeepsFirstOccurrenceOrder(cats);
    assert forall c :: c in cats <==> exists x :: x in low && x.category == c by {
      forall c | c in cats ensures exists x :: x in low && x.category == c {
        var i :| 0 <= i < |cats| && cats[i] == c;
        assert low[i] in low;
      }
      forall c | exists x :: x in low && x.category == c ensures c in cats {
        var x :| x in low && x.category == c;
        var i :| 0 <= i < |low| && low[i] == x;
        assert cats[i] == c;
      }
    }
    LowStockReport(|low|, Dedup(cats), PriorityNames(low))
  }

  /** The alert text: "Alert: N items need attention across M categories
      (c1, c2). Priority items: n1, n2, n3." */
  function RenderAlert(rep: LowStockReport): (s: string)
    ensures "Alert: " + NatToString(rep.count) + " items need attention" <= s
    ensures s != WellStockedMessage
  {
    var head := "Alert: " + NatToString(rep.count) + " items need attention";
    var s := head + " across " + NatToString(|rep.categories|) + " categories ("
      + Join(rep.categories, ", ") + "). Priority items: " + Join(rep.priority, ", ") + ".";
    assert s[..|head|] == head;
    assert s[2] != WellStockedMessage[2];
    s
  }

  /** `generateLowStockSummary` over already resolved items: the fixed message
      exactly when no item needs attention, else the rendered report. */
  function LowStockSummary(items: seq<Item>): (s: string)
    ensures s == WellStockedMessage <==> forall x | x in items :: !NeedsAttention(x)
    ensures s != WellStockedMessage ==> s == RenderAlert(LowStockReportOf(items))
  {
    var low := Filter(items, NeedsAttention);
    if |low| == 0 then WellStockedMessage
    else
      assert low[0] in low;
      RenderAlert(LowStockReportOf(items))
  }

  /** The backing JSON file: its parsed contents, or unreadable (missing or
      corrupt), which `readData` reads as an empty list. */
  datatype StoreFile = Parsed(items: seq<Item>) | Unreadable

  /** `writeData` threw "Failed to save data". */
  datatype ServiceError = SaveFailed

  class InventoryService {
    var file: StoreFile

    constructor (file: StoreFile)
      ensures this.file == file
    {
      this.file := file;
    }

    /** `readData`: the stored list, or none when the file cannot be read. */
    function ReadData(): (items: seq<Item>)
      reads this
      ensures file.Unreadable? ==> items == []
      ensures file.Parsed? ==> items == file.items
    {
      match file
      case Parsed(items) => items
      case Unreadable => []
    }

    /** `writeData`: replaces the whole file; `writeSucceeds` is the outcome
        of the file system write, and a failed write leaves the file as it was. */
    method WriteData(items: seq<Item>, writeSucceeds: bool) returns (saved: bool)
      modifies this
      ensures saved == writeSucceeds
      ensures saved ==> file == Parsed(items) && ReadData() == items
      ensures !saved ==> file == old(file)
    {
      if writeSucceeds {
        file := Parsed(items);
      }
      saved := writeSucceeds;
    }

    /** `getAllItems`: every stored item, resolved, in stored order. */
    method GetAllItems() returns (r: seq<Item>)
      ensures |r| == |ReadData()|
      ensures forall i :: 0 <= i < |r| ==> r[i] == UpdateItemStatus(ReadData()[i])
      ensures forall i :: 0 <= i < |r| ==> r[i].id == ReadData()[i].id
    {
      r := ResolveAll(ReadData());
    }

    /** `getItemById`: None exactly when no stored item has the id, else the
        first stored item with it, resolved. */
    method GetItemById(id: string) returns (r: Option<Item>)
      ensures r.None? <==> forall x | x in ReadData() :: x.id != id
      ensures r.Some? ==>
        exists k ::
          && 0 <= k < |ReadData()| && ReadData()[k].id == id
          && (forall j :: 0 <= j < k ==> ReadData()[j].id != id)
          && r.value == UpdateItemStatus(ReadData()[k])
    {
      var items := ReadData();
      match FindIndex(items, id)
      case None =>
        r := None;
      case Some(k) =>
        r := Some(UpdateItemStatus(items[k]));
    }

    /** `createItem`: appends the new record at the end and returns it; a
        failed write throws and leaves the file unchanged. */
    method CreateItem(data: CreateItemData, id: string, createdAt: string, updatedAt: string, writeSucceeds: bool)
      returns (r: Result<Item, ServiceError>)
      modifies this
      ensures r.Success? <==> writeSucceeds
      ensures r.Success? ==> r.value == NewItem(data, id, createdAt, updatedAt)
      ensures r.Success? ==> file == Parsed(old(ReadData()) + [r.value])
      ensures r.Failure? ==> r.error == SaveFailed && file == old(file)
    {
      var items := ReadData();
      var newItem := NewItem(data, id, createdAt, updatedAt);
      items := items + [newItem];
      var saved := WriteData(items, writeSucceeds);
      if !saved {
        return Failure(SaveFailed);
      }
      r := Success(newItem);
    }

    /** `updateItem`: None, and no write, when no stored item has the id;
        otherwise the first item with the id is replaced by the merged record
        and the merged record is returned resolved. */
    method UpdateItem(id: string, patch: ItemPatch, now: string, writeSucceeds: bool)
      returns (r: Result<Option<Item>, ServiceError>)
      modifies this
      ensures FindIndex(old(ReadData()), id).None? ==> r == Success(None) && file == old(file)
      ensures FindIndex(old(ReadData()), id).Some? ==>
        var k := FindIndex(old(ReadData()), id).value;
        var stored := MergePatch(old(ReadData())[k], patch, now);
        (writeSucceeds ==>
          r == Success(Some(UpdateItemStatus(stored))) && file == Parsed(old(ReadData())[k := stored]))
        && (!writeSucceeds ==> r == Failure(SaveFailed) && file == old(file))
    {
      var items := ReadData();
      var itemIndex := FindIndex(items, id);
      if itemIndex.None? {
        return Success(None);
      }
      var k := itemIndex.value;
      var updatedItem := MergePatch(items[k], patch, now);
      items := items[k := updatedItem];
      var saved := WriteData(items, writeSucceeds);
      if !saved {
        return Failure(SaveFailed);
      }
      r := Success(Some(UpdateItemStatus(updatedItem)));
    }

    /** `deleteItem`: false, and no write, when no stored item has the id;
        otherwise every item with the id is removed and the rest kept in order. */
    method DeleteItem(id: string, writeSucceeds: bool) returns (r: Result<bool, ServiceError>)
      modifies this
      ensures (forall x | x in old(ReadData()) :: x.id != id) ==> r == Success(false) && file == old(file)
      ensures (exists x :: x in old(ReadData()) && x.id == id) ==>
        (writeSucceeds ==> r == Success(true) && file == Parsed(RemoveId(old(ReadData()), id)))
        && (!writeSucceeds ==> r == Failure(SaveFailed) && file == old(file))
    {
      var items := ReadData();
      var filteredItems := RemoveId(items, id);
      if |filteredItems| == |items| {
        return Success(false);
      }
      var saved := WriteData(filteredItems, writeSucceeds);
      if !saved {
        return Failure(SaveFailed);
      }
      r := Success(true);
    }

    /** `generateLowStockSummary`: the fixed message exactly when no stored
        item needs attention, else the alert over the resolved items. */
    method GenerateLowStockSummary() returns (summary: string)
      ensures summary == WellStockedMessage <==> forall x | x in ReadData() :: !NeedsAttention(x)
      ensures summary != WellStockedMessage ==> summary == RenderAlert(LowStockReportOf(ResolveAll(ReadData())))
    {
      var items := GetAllItems();
      assert items == ResolveAll(ReadData());
      ResolveAllKeepsAttention(ReadData());
      summary := LowStockSummary(items);
    }
  }

  /** Create then read: with an id no stored item has, the created record is
      the first match for its id and reads back unchanged. */
  lemma CreateThenGet(items: seq<Item>, data: CreateItemData, id: string, createdAt: string, updatedAt: string)
    requires forall x | x in items :: x.id != id
    ensures FindIndex(items + [NewItem(data, id, createdAt, updatedAt)], id) == Some(|items|)
    ensures UpdateItemStatus((items + [NewItem(data, id, createdAt, updatedAt)])[|items|]) == NewItem(data, id, createdAt, updatedAt)
  {
    var s := items + [NewItem(data, id, createdAt, updatedAt)];
    assert s[|items|] in s;
  }

  /** Delete then read: after a deletion no stored item has the id. */
  lemma DeleteThenGet(items: seq<Item>, id: string)
    ensures FindIndex(RemoveId(items, id), id).None?
  {
  }

  /** An update changes only the first item with the id, keeps the length,
      and keeps that item's id. */
  lemma UpdateFrame(items: seq<Item>, id: string, patch: ItemPatch, now: string)
    requires FindIndex(items, id).Some?
    ensures var k := FindIndex(items, id).value;
      var updated := items[k := MergePatch(items[k], patch, now)];
      |updated| == |items| && updated[k].id == id
      && (forall i :: 0 <= i < |items| && i != k ==> updated[i] == items[i])
      && (forall i :: 0 <= i < |items| ==> updated[i].id == items[i].id)
  {
  }
}
