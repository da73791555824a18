/** The inventory page's list logic (src/app/page.tsx): the search, status
    and category filter, the category list, and the list updates its add,
    edit and delete handlers make to the page state. Calls to the API are
    represented by their outcome, passed in. */
module HomePage {
  import opened Wrappers
  import opened Seqs
  import opened Text
  import opened InventoryTypes

  /** The status selector: "All" or one status. */
  datatype StatusFilter = All | Only(status: Status)

  /** Name, description or category includes the search term, ignoring case. */
  predicate MatchesSearch(item: Item, searchTerm: string): (b: bool)
    ensures searchTerm == "" ==> b
    ensures b ==> |searchTerm| <= |item.name| || |searchTerm| <= |item.description| || |searchTerm| <= |item.category|
  {
    ContainsEmpty(Lower(item.name));
    var term := Lower(searchTerm);
    Contains(Lower(item.name), term)
    || Contains(Lower(item.description), term)
    || Contains(Lower(item.category), term)
  }

  /** The `filteredItems` predicate; an empty category filter admits every category. */
  predicate MatchesFilters(item: Item, searchTerm: string, statusFilter: StatusFilter, categoryFilter: string)
    : (b: bool)
    ensures b && statusFilter.Only? ==> item.status == statusFilter.status
    ensures b && categoryFilter != "" ==> item.category == categoryFilter
    ensures searchTerm == "" && statusFilter == All && categoryFilter == "" ==> b
  {
    && MatchesSearch(item, searchTerm)
    && (statusFilter == All || item.status == statusFilter.status)
    && (categoryFilter == "" || item.category == categoryFilter)
  }

  /** `filteredItems`: the items passing the search, status and category
      filters, in list order. */
  function FilterItems(items: seq<Item>, searchTerm: string, statusFilter: StatusFilter, categoryFilter: string)
    : (r: seq<Item>)
    ensures IsSubseq(r, items)
    ensures forall x :: x in r <==> x in items && MatchesFilters(x, searchTerm, statusFilter, categoryFilter)
    ensures statusFilter.Only? ==> forall x | x in r :: x.status == statusFilter.status
    ensures categoryFilter != "" ==> forall x | x in r :: x.category == categoryFilter
    ensures (forall x | x in items :: MatchesFilters(x, searchTerm, statusFilter, categoryFilter)) ==> r == items
    ensures forall x :: (
      multiset(r)[x] == if MatchesFilters(x, searchTerm, statusFilter, categoryFilter) then multiset(items)[x] else 0)
  {
    FilterMultiplicity(items, (x: Item) => MatchesFilters(x, searchTerm, statusFilter, categoryFilter));
    Filter(items, (x: Item) => MatchesFilters(x, searchTerm, statusFilter, categoryFilter))
  }

  /** With an empty search, status "All" and no category every item is shown. */
  lemma NoFiltersShowAll(items: seq<Item>)
    ensures FilterItems(items, "", All, "") == items
  {
    forall x | x in items ensures MatchesFilters(x, "", All, "") {
      ContainsEmpty(Lower(x.name));
    }
  }

  /** The search ignores case: searching for the lower-cased term shows the
      same items as searching for the term itself. */
  lemma SearchIgnoresCase(item: Item, searchTerm: string)
    ensures MatchesSearch(item, Lower(searchTerm)) == MatchesSearch(item, searchTerm)
  {
    LowerIdempotent(searchTerm);
  }

  /** Every shown item has the lower-cased search term at some position of
      its lower-cased name, description or category. */
  lemma ShownItemsContainSearchTerm(
    items: seq<Item>, searchTerm: string, statusFilter: StatusFilter, categoryFilter: string, x: Item)
    requires x in FilterItems(items, searchTerm, statusFilter, categoryFilter)
    ensures exists i ::
      || OccursAt(Lower(x.name), Lower(searchTerm), i)
      || OccursAt(Lower(x.description), Lower(searchTerm), i)
      || OccursAt(Lower(x.category), Lower(searchTerm), i)
  {
    var term := Lower(searchTerm);
    ContainsIff(Lower(x.name), term);
    ContainsIff(Lower(x.description), term);
    ContainsIff(Lower(x.category), term);
  }

  /** `[...new Set(items.map((item) => item.category))]`: every category
      once, in order of first appearance. */
  function DistinctCategories(items: seq<Item>): (r: seq<string>)
    ensures NoDuplicates(r)
    ensures forall c :: c in r <==> c in CategoriesOf(items)
    ensures forall i, j :: 0 <= i < j < |r| ==>
      FirstIndex(CategoriesOf(items), r[i]) < FirstIndex(CategoriesOf(items), r[j])
  {
    DedupKeepsFirstOccurrenceOrder(CategoriesOf(items));
    Dedup(CategoriesOf(items))
  }

  /** `items.map((item) => item.id === id ? updated : item)`. */
  function ReplaceById(items: seq<Item>, id: string, updated: Item): (r: seq<Item>)
    ensures |r| == |items|
    ensures forall i :: 0 <= i < |items| && items[i].id == id ==> r[i] == updated
    ensures forall i :: 0 <= i < |items| && items[i].id != id ==> r[i] == items[i]
  {
    seq(|items|, i requires 0 <= i < |items| => if items[i].id == id then updated else items[i])
  }

  /** Replacing by an item with the same id keeps the list's ids, in order. */
  lemma ReplaceByIdKeepsIds(items: seq<Item>, id: string, updated: Item)
    requires updated.id == id
    ensures forall i :: 0 <= i < |items| ==> ReplaceById(items, id, updated)[i].id == items[i].id
  {
  }

  /** The page component's state. */
  class Home {
    var items: seq<Item>
    var showForm: bool
    var editingItem: Option<Item>
    var searchTerm: string
    var statusFilter: StatusFilter
    var categoryFilter: string
    var loading: bool
    var error: Option<string>

    constructor ()
      ensures items == [] && !showForm && editingItem == None
      ensures searchTerm == "" && statusFilter == All && categoryFilter == ""
      ensures loading && error == None
    {
      items := [];
      showForm := false;
      editingItem := None;
      searchTerm := "";
      statusFilter := All;
      categoryFilter := "";
      loading := true;
      error := None;
    }

    /** The mount effect: `loaded` is the fetched list, None when loading threw. */
    method FetchData(loaded: Option<seq<Item>>)
      modifies this`items, this`error, this`loading
      ensures !loading
      ensures loaded.Some? ==> items == loaded.value && error == None
      ensures loaded.None? ==> items == old(items) && error == Some("Failed to load inventory data")
    {
      loading := true;
      if loaded.Some? {
        items := loaded.value;
        error := None;
      } else {
        error := Some("Failed to load inventory data");
      }
      loading := false;
    }

    /** `handleAddItem`: `saved` is the created item, None when saving threw.
        The item is appended at the end and the form closed. */
    method HandleAddItem(saved: Option<Item>)
      modifies this`items, this`showForm, this`error
      ensures saved.Some? ==> items == old(items) + [saved.value] && !showForm && error == None
      ensures saved.None? ==>
        items == old(items) && showForm == old(showForm) && error == Some("Failed to add item")
    {
      if saved.Some? {
        items := items + [saved.value];
        showForm := false;
        error := None;
      } else {
        error := Some("Failed to add item");
      }
    }

    /** `handleEditItem`: nothing without an item being edited; otherwise
        `updated` is the server's copy, None when the update threw, and every
        item with the edited id is replaced by it. */
    method HandleEditItem(updated: Option<Item>)
      modifies this`items, this`editingItem, this`showForm, this`error
      ensures old(editingItem).None? ==>
        && items == old(items) && editingItem == old(editingItem)
        && showForm == old(showForm) && error == old(error)
      ensures old(editingItem).Some? && updated.Some? ==>
        && items == ReplaceById(old(items), old(editingItem).value.id, updated.value)
        && editingItem == None && !showForm && error == None
      ensures old(editingItem).Some? && updated.None? ==>
        && items == old(items) && editingItem == old(editingItem)
        && showForm == old(showForm) && error == Some("Failed to update item")
    {
      if editingItem.None? {
        return;
      }
      if updated.Some? {
        items := ReplaceById(items, editingItem.value.id, updated.value);
        editingItem := None;
        showForm := false;
        error := None;
      } else {
        error := Some("Failed to update item");
      }
    }

    /** `handleDeleteItem`: nothing unless the user confirms; `deleted`
        tells whether the server call succeeded, and on success every item
        with the id is removed and the rest kept in order. */
    method HandleDeleteItem(id: string, confirmed: bool, deleted: bool)
      modifies this`items, this`error
      ensures !confirmed ==> items == old(items) && error == old(error)
      ensures confirmed && deleted ==> items == RemoveId(old(items), id) && error == None
      ensures confirmed && !deleted ==> items == old(items) && error == Some("Failed to delete item")
    {
      if !confirmed {
        return;
      }
      if deleted {
        items := RemoveId(items, id);
        error := None;
      } else {
        error := Some("Failed to delete item");
      }
    }

    /** `openEditForm`. */
    method OpenEditForm(item: Item)
      modifies this`editingItem, this`showForm
      ensures editingItem == Some(item) && showForm
    {
      editingItem := Some(item);
      showForm := true;
    }

    /** `closeForm`. */
    method CloseForm()
      modifies this`editingItem, this`showForm
      ensures editingItem == None && !showForm
    {
      showForm := false;
      editingItem := None;
    }

    /** The items the page shows under its current filters. */
    function FilteredItems(): (r: seq<Item>)
      reads this
      ensures IsSubseq(r, items)
      ensures forall x :: x in r <==> x in items && MatchesFilters(x, searchTerm, statusFilter, categoryFilter)
      ensures statusFilter.Only? ==> forall x | x in r :: x.status == statusFilter.status
      ensures categoryFilter != "" ==> forall x | x in r :: x.category == categoryFilter
      ensures searchTerm == "" && statusFilter == All && categoryFilter == "" ==> r == items
      ensures r == FilterItems(items, searchTerm, statusFilter, categoryFilter)
    {
      FilterItems(items, searchTerm, statusFilter, categoryFilter)
    }

    /** The category choices the page offers: each category of its items once. */
    function Categories(): (r: seq<string>)
      reads this
      ensures NoDuplicates(r)
      ensures forall c :: c in r <==> exists x :: x in items && x.category == c
      ensures r == DistinctCategories(items)
      ensures forall i, j :: 0 <= i < j < |r| ==>
        FirstIndex(CategoriesOf(items), r[i]) < FirstIndex(CategoriesOf(items), r[j])
    {
      var r := DistinctCategories(items);
      assert forall c :: c in CategoriesOf(items) <==> exists x :: x in items && x.category == c by {
        forall c | c in CategoriesOf(items) ensures exists x :: x in items && x.category == c {
          var i :| 0 <= i < |items| && CategoriesOf(items)[i] == c;
          assert items[i] in items;
        }
        forall c | exists x :: x in items && x.category == c ensures c in CategoriesOf(items) {
          var x :| x in items && x.category == c;
          var i :| 0 <= i < |items| && items[i] == x;
          assert CategoriesOf(items)[i] == c;
        }
      }
      r
    }
  }
}
