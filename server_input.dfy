/** How the HTTP layer (backend/src/server.ts) shapes the service's inputs:
    the required-field check of POST /api/inventory. The PUT handler copies
    each supplied field into the patch, which is what `ItemPatch`'s Option
    fields already express. */
module ServerInput {
  import opened Wrappers
  import opened InventoryTypes
  import opened Inventory

  /** The create request body's fields, each possibly absent. A body without a
      non-empty name, a quantity, or a non-empty category is refused (400);
      otherwise a missing description becomes "". */
  function CreateRequest(
    name: Option<string>, quantity: Option<int>, category: Option<string>,
    description: Option<string>, status: Option<Status>): (r: Option<CreateItemData>)
    ensures r.Some? <==>
      name.Some? && name.value != "" && quantity.Some? && category.Some? && category.value != ""
    ensures r.Some? ==>
      && r.value.name == name.value && r.value.quantity == quantity.value
      && r.value.category == category.value && r.value.status == status
    ensures r.Some? && description.Some? ==> r.value.description == description.value
    ensures r.Some? && description.None? ==> r.value.description == ""
  {
    if name.None? || name.value == "" || quantity.None? || category.None? || category.value == "" then None
    else Some(CreateItemData(name.value, quantity.value, category.value, description.GetOr(""), status))
  }

  /** A body the endpoint accepts becomes a stored record with a non-empty
      name and category, the given quantity, a description ("" when none
      was sent), and "Low Stock" whenever the quantity is at most 5. */
  lemma AcceptedRequestCreatesItem(
    name: Option<string>, quantity: Option<int>, category: Option<string>,
    description: Option<string>, status: Option<Status>, id: string, createdAt: string, updatedAt: string)
    requires CreateRequest(name, quantity, category, description, status).Some?
    ensures var item := NewItem(CreateRequest(name, quantity, category, description, status).value, id, createdAt, updatedAt);
      && item.name == name.value && item.name != ""
      && item.category == category.value && item.category != ""
      && item.quantity == quantity.value
      && item.description == description.GetOr("")
      && (quantity.value <= LowStockThreshold ==> item.status == LowStock)
      && UpdateItemStatus(item) == item
  {
    NewItemIsResolved(CreateRequest(name, quantity, category, description, status).value, id, createdAt, updatedAt);
  }
}
