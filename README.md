# Inventory store, status rules and permission checks

A Dafny model of the core of a small inventory-tracking application: the
backend item store (`InventoryService`) with its status rules and advisory
heuristics, the backend's authentication and permission guards, the
browser's role table and `hasPermission` check, and the list logic of the
inventory page and the dashboard.

Modules follow the source files:

- `InventoryTypes`: the item record, its four statuses, the create and
  patch inputs, and item-list transforms shared by backend and browser
  (removal by id, the "needs attention" test, the first three names).
- `Inventory`: the `InventoryService` class. Its `file` field stands for the
  JSON file: either the parsed list of items or `Unreadable`. Every operation
  reads the whole list and replaces it whole. `getAllItems`, `getItemById`
  and `generateLowStockSummary` only read. `createItem`, `updateItem` and
  `deleteItem` change `file` and state the new contents. The pure rules are
  module-level functions with lemmas: read-time status resolution, the
  record built on create, the patch merge, the reorder formula and the
  low-stock summary.
- `ServerInput`: the required-field check of the create endpoint.
- `AuthMiddleware`: `authenticate` and `requirePermission` as decision
  functions. The `Exchange` class applies them to one request's
  `req.user`, error response and `next()` count.
- `AuthRoles`: `ROLE_PERMISSIONS`, `MOCK_USERS` and `hasPermission`.
- `HomePage`: the page's filter, category list and list updates. The `Home`
  class holds the component state and one method per handler.
- `DashboardStats`: the counters and the summary text.
- `Seqs`, `Text`, `Wrappers`: JavaScript built-ins the source relies on.
  These are `filter`, `slice`, `[...new Set(xs)]`, `join`, `includes`,
  `replace` with a string pattern, `toLowerCase` and number formatting.
  `Wrappers` holds Option and Result.

## Behaviour of the code worth knowing

- The status chosen when an item is written ignores "Ordered" and
  "Discontinued" for low quantities. `createItem`
  (backend/src/services/inventoryService.ts:57) stores "Low Stock" for any
  quantity at or below 5, even when another status is supplied. `updateItem`
  (:78-81) does the same whenever the patch carries such a quantity. So an
  "Ordered" item updated to quantity 1 is stored and returned as "Low Stock"
  (`Inventory.OrderedItemPatchedLowIsStoredLowStock`). Only the rule applied
  when items are read (:31-40) leaves "Ordered" and "Discontinued" as they are.
- `updateItem` stores the merged record but returns it resolved (:85-87), so
  the two can differ. For example, a low-quantity item patched only to
  "In Stock" is stored "In Stock" and returned "Low Stock"
  (`Inventory.StoredAndReturnedCanDiffer`).
- The reorder suggestion is `max(5, max(10, 2q) + r - 5)` with r in 0..9. The
  floor of 5 never binds: the result is always `max(10, 2q) + r - 5`.
- Ids come from the clock, so they need not be unique. Properties that need a
  fresh id (`Inventory.CreateThenGet`) require it explicitly. Two identical
  records can therefore coexist, and `filter` keeps every copy
  (`Seqs.FilterMultiplicity`).
- The bearer prefix is removed by `replace`, which drops the first occurrence
  of "Bearer " wherever it is: "X Bearer abc" yields the token "X abc"
  (`AuthMiddleware.MidHeaderToken`).
- Creating an item while the file is unreadable replaces the file with a
  list holding only the new item, because the unreadable file reads as an
  empty list.

## Model

| member | source | states |
|---|---|---|
| `Inventory.UpdateItemStatus` | backend/src/services/inventoryService.ts:31-40 | only `status` changes; the result is "Low Stock" exactly when the item was "Low Stock" or has quantity ≤ 5 and a status other than Ordered/Discontinued; otherwise the item is returned unchanged |
| `Inventory.UpdateItemStatusIdempotent` | backend/src/services/inventoryService.ts:31-40 | resolving twice equals resolving once |
| `Inventory.ResolutionKeepsAttention` | backend/src/services/inventoryService.ts:110-113 | resolution does not change whether an item needs attention (status "Low Stock" or quantity ≤ 5) |
| `Inventory.ResolveAllKeepsAttention` | backend/src/services/inventoryService.ts:110-113 | no resolved item needs attention iff no stored item does |
| `Inventory.ResolveAll` | backend/src/services/inventoryService.ts:43 | same length, each element the resolution of the stored one at the same index |
| `Inventory.FindIndex` | backend/src/services/inventoryService.ts:69 | None iff no item has the id; otherwise the index of the first item with the id |
| `Inventory.NewItem` | backend/src/services/inventoryService.ts:54-60 | the created record carries the supplied fields, the given id, and the two separately read timestamps as createdAt and updatedAt (which may differ); status "Low Stock" when quantity ≤ 5 whatever was supplied, else the supplied status or "In Stock" |
| `Inventory.NewItemIsResolved` | backend/src/services/inventoryService.ts:57 | a created record reads back unchanged through resolution |
| `Inventory.MergePatch` | backend/src/services/inventoryService.ts:75-83 | id and createdAt kept, updatedAt refreshed, each field taken from the patch when present and kept otherwise; status "Low Stock" when the patch's quantity is ≤ 5, else the patch's status or the old one |
| `Inventory.OrderedItemPatchedLowIsStoredLowStock` | backend/src/services/inventoryService.ts:78-81 | an "Ordered" item patched to quantity 1 is stored and returned "Low Stock" |
| `Inventory.StoredAndReturnedCanDiffer` | backend/src/services/inventoryService.ts:85-87 | a low-quantity item patched to "In Stock" is stored "In Stock" but returned "Low Stock" |
| `Inventory.SuggestReorderQuantity` | backend/src/services/inventoryService.ts:103-107 | the suggestion is max(10, 2q) + jitter − 5, so it lies between 5 and max(10, 2q) + 4 |
| `Inventory.SuggestReorderQuantityMonotone` | backend/src/services/inventoryService.ts:103-107 | for a fixed jitter the suggestion does not decrease as the quantity grows |
| `Inventory.LowStockReportOf` | backend/src/services/inventoryService.ts:111-125 | the count of items needing attention; their categories, each once, in first-appearance order, exactly those of such items; the names of the first min(3, count) such items, in order |
| `Inventory.RenderAlert` | backend/src/services/inventoryService.ts:120-125 | the alert starts "Alert: <count> items need attention" and is never the well-stocked message |
| `Inventory.LowStockSummary` | backend/src/services/inventoryService.ts:109-126 | exactly "All items are well-stocked!" iff no item needs attention; otherwise the rendered report |
| `Inventory.InventoryService.ReadData` | backend/src/services/inventoryService.ts:12-20 | the stored list, or the empty list when the file cannot be read |
| `Inventory.InventoryService.WriteData` | backend/src/services/inventoryService.ts:22-29 | a successful write replaces the whole file; a failed one reports failure and leaves the file as it was |
| `Inventory.InventoryService.GetAllItems` | backend/src/services/inventoryService.ts:42-44 | same length and ids in the same order as the store, each element the resolved stored item |
| `Inventory.InventoryService.GetItemById` | backend/src/services/inventoryService.ts:46-50 | None iff no stored item has the id; otherwise the resolved first stored item with it |
| `Inventory.InventoryService.CreateItem` | backend/src/services/inventoryService.ts:52-65 | on a successful write the store becomes the old list plus the new record at the end and the record is returned; a failed write changes nothing and reports "Failed to save data" |
| `Inventory.InventoryService.UpdateItem` | backend/src/services/inventoryService.ts:67-88 | an absent id returns None without writing; otherwise only the first item with the id is replaced by the merged record, and the merged record is returned resolved; a failed write changes nothing |
| `Inventory.InventoryService.DeleteItem` | backend/src/services/inventoryService.ts:90-100 | false, with no write, iff no stored item has the id; otherwise the store becomes the list without every item with the id, the rest in order |
| `Inventory.InventoryService.GenerateLowStockSummary` | backend/src/services/inventoryService.ts:109-126 | the well-stocked message iff no stored item needs attention, else the alert over the resolved items |
| `Inventory.CreateThenGet` | backend/src/services/inventoryService.ts:52-65 | with a fresh id, the created record is the first match for its id and reads back unchanged |
| `Inventory.DeleteThenGet` | backend/src/services/inventoryService.ts:90-100 | after a deletion no item with the id remains |
| `Inventory.UpdateFrame` | backend/src/services/inventoryService.ts:67-88 | an update keeps the length and every id, and changes no item but the first with the id |
| `InventoryTypes.RemoveId` | backend/src/services/inventoryService.ts:92 | the items without the id, in order, every copy of each kept record kept; as long as the input iff no item has the id, and then equal to it |
| `InventoryTypes.CategoriesOf` | backend/src/services/inventoryService.ts:117 | same length, each entry the category of the item at that index |
| `InventoryTypes.PriorityNames` | backend/src/services/inventoryService.ts:122-125 | the names of at most the first three items, in order |
| `ServerInput.CreateRequest` | backend/src/server.ts:45-56 | a create body is accepted iff it has a non-empty name, a quantity and a non-empty category; a missing description becomes "" |
| `ServerInput.AcceptedRequestCreatesItem` | backend/src/server.ts:45-58 | an accepted body becomes a record with a non-empty name and category, the sent quantity, the description or "", "Low Stock" at quantity ≤ 5, unchanged by resolution on read |
| `AuthMiddleware.ExtractToken` | backend/src/middleware/auth.ts:11-12 | no header gives no token; a header without "Bearer " is used whole; a header starting with it loses that prefix; any other header loses its first occurrence, wherever it is |
| `AuthMiddleware.MidHeaderToken` | backend/src/middleware/auth.ts:12 | "X Bearer abc" yields the token "X abc" |
| `AuthMiddleware.BearerHeaderToken` | backend/src/middleware/auth.ts:12 | "Bearer t" yields the token t |
| `AuthMiddleware.Authentication` | backend/src/middleware/auth.ts:6-30 | a missing header or empty token answers 401 "no token"; every failure answers 401; success iff the token verifies and its userId names a known user, who is the result |
| `AuthMiddleware.NoTokenIgnoresVerifier` | backend/src/middleware/auth.ts:14-18 | without a token the answer does not depend on the token verifier or the user lookup |
| `AuthMiddleware.RolePermissions` | backend/src/middleware/auth.ts:39-45 | each role's list has no repeats; non-empty exactly for admin, manager and viewer, and then holds "view"; only admin holds "delete" |
| `AuthMiddleware.PermissionCheck` | backend/src/middleware/auth.ts:33-55 | no user answers 401; otherwise allowed iff the role's list holds the permission, else 403 |
| `AuthMiddleware.AdminAllowed` | backend/src/middleware/auth.ts:39-43 | admin may view, create, edit and delete |
| `AuthMiddleware.ManagerCannotDelete` | backend/src/middleware/auth.ts:40-51 | manager is refused "delete" with 403 |
| `AuthMiddleware.ViewerOnlyViews` | backend/src/middleware/auth.ts:42 | viewer is allowed a permission iff it is "view" |
| `AuthMiddleware.UnknownRoleDenied` | backend/src/middleware/auth.ts:45-51 | a role outside the table is refused every permission with 403 |
| `AuthMiddleware.RolesNested` | backend/src/middleware/auth.ts:39-43 | what viewer may do manager may, and what manager may do admin may |
| `AuthMiddleware.Exchange.Authenticate` | backend/src/middleware/auth.ts:28-29 | on success `req.user` is the looked-up user and `next()` runs once; on failure the error is sent and neither happens |
| `AuthMiddleware.Exchange.RequirePermission` | backend/src/middleware/auth.ts:34-54 | `next()` runs once when allowed; otherwise the 401/403 is sent and `next()` does not run |
| `AuthRoles.RolePermissions` | src/types/auth.ts:25-36 | each role's list has no repeats and holds view_inventory and view_stats; admin lists 6 permissions, manager 4, viewer 2 |
| `AuthRoles.HasPermission` | src/contexts/AuthContext.tsx:78-81 | false with nobody logged in, otherwise membership in the role's permission list |
| `AuthRoles.AdminHoldsAll` | src/types/auth.ts:26-33 | admin holds all six permissions |
| `AuthRoles.ManagerAndViewerPermissions` | src/types/auth.ts:34-35 | manager holds everything but delete_item and manage_users; viewer holds exactly view_inventory and view_stats |
| `AuthRoles.HasPermissionMonotone` | src/types/auth.ts:25-36 | a user whose role is at least another's (viewer ≤ manager ≤ admin) holds every permission the other holds |
| `AuthRoles.MockUsersDistinct` | src/types/auth.ts:39-61 | the three demo users have distinct ids and emails and are admin, manager and viewer |
| `HomePage.MatchesSearch` | src/app/page.tsx:101-104 | an empty search matches every item; a match needs a field at least as long as the term |
| `HomePage.MatchesFilters` | src/app/page.tsx:100-110 | a passing item has the selected status and category; with no search, status "All" and no category every item passes |
| `HomePage.SearchIgnoresCase` | src/app/page.tsx:101-104 | searching for the lower-cased term matches the same items as the term itself |
| `HomePage.FilterItems` | src/app/page.tsx:100-111 | an order-preserving subsequence holding exactly the items that pass, every copy of a passing item kept; a status filter keeps only that status; a category filter keeps only that category |
| `HomePage.NoFiltersShowAll` | src/app/page.tsx:100-111 | empty search, status "All" and no category show every item |
| `HomePage.ShownItemsContainSearchTerm` | src/app/page.tsx:101-104 | every shown item's lower-cased name, description or category has the lower-cased term at some position |
| `HomePage.DistinctCategories` | src/app/page.tsx:113 | each item category exactly once, in first-appearance order |
| `HomePage.ReplaceById` | src/app/page.tsx:62-66 | same length; every item with the id replaced, every other kept in place |
| `HomePage.ReplaceByIdKeepsIds` | src/app/page.tsx:62-66 | replacing with an item of the same id keeps the ids in order |
| `HomePage.Home.constructor` | src/app/page.tsx:17-24 | the initial page state: no items, form closed, nothing edited, empty search, status "All", no category, loading, no error |
| `HomePage.Home.FetchData` | src/app/page.tsx:27-43 | loaded data replaces the list and clears the error; a failed load keeps the list and sets the error; loading ends either way |
| `HomePage.Home.HandleAddItem` | src/app/page.tsx:45-55 | a saved item is appended at the end and the form closed; a failure only sets the error |
| `HomePage.Home.HandleEditItem` | src/app/page.tsx:57-74 | nothing without an item being edited; on success every item with the edited id is replaced and the form closed; a failure only sets the error |
| `HomePage.Home.HandleDeleteItem` | src/app/page.tsx:76-87 | nothing unless confirmed; on success every item with the id is removed, the rest kept in order; a failure only sets the error |
| `HomePage.Home.OpenEditForm` | src/app/page.tsx:89-92 | the item becomes the one being edited and the form opens |
| `HomePage.Home.CloseForm` | src/app/page.tsx:94-97 | the form closes and nothing is being edited |
| `HomePage.Home.FilteredItems` | src/app/page.tsx:100-111 | exactly `FilterItems` over the page's items and current filters: an order-preserving subsequence, only the selected status and category, everything with no filter set |
| `HomePage.Home.Categories` | src/app/page.tsx:113 | each category of the page's items once, in order of first appearance (`DistinctCategories`) |
| `DashboardStats.ComputeStats` | src/components/DashboardStats.tsx:10-23 | each counter is the size of the filter of its test, the category count the number of distinct categories, the total the quantity sum; all zero for no items; low-stock and in-stock together, and ordered and discontinued together, never exceed the item count; categories ≤ items and 0 iff no items |
| `DashboardStats.CountedItems` | src/components/DashboardStats.tsx:10-23 | one more item raises low stock iff it is "Low Stock" or quantity ≤ 5, in stock iff "In Stock" and quantity > 5, ordered/discontinued by status, categories iff its category is new, and the total by its quantity |
| `DashboardStats.CountedByStatus` | src/components/DashboardStats.tsx:11-20 | the four status counters under one more item grow by one exactly when the item passes their test |
| `DashboardStats.CountedCategories` | src/components/DashboardStats.tsx:22 | the distinct-category count grows by one exactly when the new item's category is new |
| `DashboardStats.TotalQuantity` | src/components/DashboardStats.tsx:23 | 0 for no items; not negative when no quantity is |
| `DashboardStats.TotalQuantityConcat` | src/components/DashboardStats.tsx:23 | the total of two joined lists is the sum of their totals |
| `DashboardStats.FallbackAlert` | src/components/DashboardStats.tsx:35-42 | the fallback starts "Alert: <count> items need attention" and is never the well-stocked message |
| `DashboardStats.DashboardSummary` | src/components/DashboardStats.tsx:28-48 | exactly the well-stocked message when nothing needs attention; otherwise the fetched summary, or the fallback alert when the request failed |
| `Seqs.Filter` | src/app/page.tsx:100 | `filter`: an order-preserving subsequence holding exactly the passing elements; equal to the input iff all pass |
| `Seqs.FilterMultiplicity` | src/app/page.tsx:100 | `filter` keeps every copy of a passing element and none of a failing one |
| `Seqs.FilterAppend` | src/components/DashboardStats.tsx:11-20 | filtering a list with one more element adds it at the end exactly when it passes |
| `Seqs.Take` | backend/src/services/inventoryService.ts:123 | `slice(0, n)`: a prefix of length min(n, length) |
| `Seqs.FilterDisjointCounts` | src/components/DashboardStats.tsx:11-16 | two tests no element passes together select at most the list's length between them |
| `Seqs.Dedup` | src/app/page.tsx:113 | `[...new Set(xs)]`: no duplicates, the same elements, empty iff the input is |
| `Seqs.DedupKeepsFirstOccurrenceOrder` | src/app/page.tsx:113 | the distinct values come in order of first occurrence |
| `Seqs.DedupFromAppend` | src/components/DashboardStats.tsx:22 | one more value is added at the end of the distinct list exactly when it is new |
| `Text.ContainsIff` | src/app/page.tsx:102 | `includes` holds iff the term occurs at some index |
| `Text.Contains` | src/app/page.tsx:102 | `includes`: holds only when the term is no longer than the text, and for equal lengths exactly when they are equal |
| `Text.Lower` | src/app/page.tsx:102 | ASCII `toLowerCase`: each character lower-cased on its own, upper-case letters mapped to their lower-case letter, nothing else changed |
| `Text.LowerIdempotent` | src/app/page.tsx:102 | lower-casing twice is lower-casing once |
| `Text.FindSub` | backend/src/middleware/auth.ts:12 | the first index where the pattern occurs, None iff it does not occur |
| `Text.ReplaceFirst` | backend/src/middleware/auth.ts:12 | `replace` with a string pattern: unchanged when the pattern is absent, otherwise the first occurrence (`FindSub`) replaced and the rest kept |
| `Text.NatToString` | backend/src/services/inventoryService.ts:120 | a count prints as non-empty decimal digits, with a leading 0 only for 0 |
| `Text.Join` | backend/src/services/inventoryService.ts:120-125 | `join`: "" for no parts, the part itself for one, and the first part then the separator at the start for more |
| `Text.JoinAppend` | backend/src/services/inventoryService.ts:120-125 | joining two non-empty lists of parts is joining each with one separator between, which fixes every part's place in the result |
| `Text.ParseNatToString` | backend/src/services/inventoryService.ts:120 | the decimal text a template literal prints for a count reads back as that count |

## Left out

- File I/O and JSON (`fs`, `JSON.parse`, `JSON.stringify`) are not modelled. The file is the `file` field. A missing or corrupt file is `Unreadable`. The outcome of a write is the `writeSucceeds` parameter.
- Clock values are parameters: `Date.now()` ids and ISO timestamps. The two clock reads in `createItem` (backend/src/services/inventoryService.ts:58-59) are two separate parameters. Id uniqueness is not guaranteed by the code, so it is not proved.
- `Math.random` is not modelled. The jitter `Math.floor(Math.random() * 10)` is a parameter in 0..9.
- Express routing and the mapping of outcomes to status codes in backend/src/server.ts are not modelled. Only the create endpoint's required-field check is. `parseInt` producing NaN, and non-integer quantities, fall outside the model, since quantity is an integer.
- `jsonwebtoken` and `bcryptjs` are foreign libraries. Token verification and user lookup (backend/src/services/authService.ts) are parameters of `Authentication`. Login and token issuance are not modelled.
- A role that names an inherited object property (such as "constructor") is not modelled. With such a role the role table lookup at backend/src/middleware/auth.ts:45 would yield a non-array. The model gives every role outside the table an empty list. Roles come from a fixed user table, so this does not arise there.
- Network and storage code is not modelled: `fetch`, `localStorage`, and login/logout in src/contexts/AuthContext.tsx. API outcomes reach the page handlers as parameters. The fallback reorder formula in src/lib/inventory.ts:161-163 is the formula of `Inventory.SuggestReorderQuantity`.
- The dashboard's summary request is not modelled. Its reply is a parameter of `DashboardStats.DashboardSummary`. The `aiSummary`/`loadingSummary` state, and re-running the effect when the low-stock count changes, are not modelled. The request function in src/lib/inventory.ts catches its own errors, so in the source the fallback alert is reached only if that function rejects.
- React rendering is not modelled: components, styling, the loading view, and the status-to-colour maps.
- Concurrent requests are not modelled, for example lost updates between load and save. The model is sequential.
- JavaScript numbers are doubles; the model uses unbounded integers. Rounding in `quantity * 2`, in the `reduce` sum, and for quantities beyond 2^53 is not modelled.
- The server does not check `status`, so a create or update body may carry any string as status, and it is stored as sent. The model restricts status to the four values of `Status`.
- Unicode `toLowerCase` is not modelled. `Text.Lower` changes only ASCII letters.
- The frontend item type (src/types/inventory.ts) is not part of this model. The browser's item is taken to have the backend record's shape, with timestamps as strings.
- `Inventory.RenderAlert`: its contract states only the leading count and that it differs from the well-stocked message. The categories and names the alert lists are stated on `Inventory.LowStockReportOf`. The exact punctuation of the template is not stated.
- `DashboardStats.FallbackAlert`: its contract states only the leading count and that it differs from the well-stocked message. The names it lists are those of `InventoryTypes.PriorityNames`.
