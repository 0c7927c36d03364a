# Category and item route handlers, modelled in Dafny

This project models the two route modules of the supplier back end:
`server/routes/categories.routes.ts` and `server/routes/item.routes.ts`.
Each handler is modelled as an operation on an abstract record table. It
takes the caller's supplier id and the request fields. It returns a reply
and, for the write handlers, the table it leaves behind.

- `replies.dfy` (module `Replies`): the reply of a handler. It is either a
  200 with its payload, or an error with its status code (401, 402, 422 or
  500) and the `errorType` of its body (`validation`, `not allowed` or
  `internal`). An error also carries the guard that produced it, which
  stands in for the message text. The module also defines the JavaScript
  truthiness of an optional string field.
- `store.dfy` (module `Store`): the record store as the handlers see it. It
  is a `map` from id to record. A query returns the selected rows in
  ascending id order.
- `category_routes.dfy` (module `CategoryRoutes`): the five category
  handlers. `GetCategories` and `GetCategory` are pure functions of the
  table. `CreateCategory`, `UpdateCategory` and `DeleteCategory` state the
  outcome of each write handler. The class `CategoryTable` holds the table
  and the store's auto-increment counter. Its methods `Create`, `Update` and
  `Delete` perform the same checks step by step and change the table in
  place. Each method is proved to produce exactly the outcome its function
  states.
- `category_properties.dfy` (module `CategoryProperties`): properties that
  span several calls, and the preservation of the invariant "no two
  categories share a name" by all three writes.
- `item_routes.dfy` (module `ItemRoutes`): the item handlers. The reads are
  functions. `create` is both a function (`CreateItem`) and a method of
  `ItemStore`. The method builds the record field by field before it
  validates, as the handler does. `put` and `delete` send no response and
  touch nothing.
- `item_properties.dfy` (module `ItemProperties`): the stock and price
  invariant, the boundaries of the two checks, the dropped `categoriesIds`,
  and the fact that item names may repeat.

The model follows the code as written, not the corrected design:

- The duplicate-name check of category `create` and `update` is global. A
  supplier cannot use a name that another supplier already uses.
- `update` returns 402, not 422, for a validation failure.
- `update` judges ownership on the record that the name lookup returns
  first, not on the target record. A consequence is proved: a successful
  update never renames a category, and only its description changes. An
  update to a name that no record has always ends in a 500.
- A missing record is reported as 500, not as "not found". The handler reads
  a field of the `undefined` lookup result, which throws.
- `getCategory` runs without the auth middleware. The caller's identity may
  therefore be absent, and then every existing record is refused with 401.

Assumptions about the store, whose code is not part of this model:

- A lookup of a missing id yields no record (`undefined`).
- A lookup by name returns every record with that name, across all
  suppliers, in ascending id order. Under the name-uniqueness invariant it
  returns at most one record, so the order then does not matter
  (`ByNameAtMostOne`).
- `getCategories` with a supplier returns that supplier's records, and
  without one returns all records.
- An insert assigns the next value of an auto-increment counter, which is
  never the id of a stored record.
- An update of `{name, description}` keeps the record's supplier.

## Model

| member | source | states |
|---|---|---|
| `CategoryRoutes.ByName` | server/routes/categories.routes.ts:62-64 | The name lookup is empty exactly when no record, of any supplier, has the name; it returns exactly the records with that name, one row each, lowest id first |
| `CategoryRoutes.FirstNamed` | server/routes/categories.routes.ts:97-99 | `category[0]` is a record with the requested name whose id is no larger than that of any other record with that name |
| `CategoryRoutes.GetCategories` | server/routes/categories.routes.ts:8-25 | Always 200; lists exactly the stored records that match the supplier filter (all records when there is no filter), one row per record |
| `CategoryRoutes.GetCategory` | server/routes/categories.routes.ts:28-47 | 200 with the record iff it exists and its supplier equals the caller; 401 when it exists and the supplier differs (always when the caller is absent); 500 when it is missing |
| `CategoryRoutes.CreateCategory` | server/routes/categories.routes.ts:50-74 | Succeeds iff name and description are truthy and no record of any supplier has the name; an empty or absent field gives 422 validation before the duplicate check; a duplicate gives 422; every failure leaves the table unchanged; success stores the record under the new id with the caller as supplier |
| `CategoryRoutes.UpdateCategory` | server/routes/categories.routes.ts:85-123 | Empty or absent field gives 402; otherwise no record with the name gives 500; otherwise the lowest-id record with the name decides: another supplier's gives 401, another id gives 402, else 200; every failure leaves the table unchanged; success changes only the description of record `id` |
| `CategoryRoutes.DeleteCategory` | server/routes/categories.routes.ts:126-150 | Succeeds iff the record exists and belongs to the caller; missing gives 500, another supplier's gives 401, both leaving the table unchanged; success removes exactly key `id` and keeps every other record |
| `CategoryRoutes.CategoryTable.Create` | server/routes/categories.routes.ts:50-83 | The in-place create produces the reply and new table that `CreateCategory` states, using the next auto-increment id, which is not in the table; the counter advances by one exactly when the record is inserted; it keeps "no two categories share a name" |
| `CategoryRoutes.CategoryTable.Update` | server/routes/categories.routes.ts:85-124 | The in-place update produces the reply and new table that `UpdateCategory` states, and keeps "no two categories share a name" |
| `CategoryRoutes.CategoryTable.Delete` | server/routes/categories.routes.ts:126-151 | The in-place delete produces the reply and new table that `DeleteCategory` states, and keeps "no two categories share a name" |
| `CategoryProperties.CreateAddsOneRecord` | server/routes/categories.routes.ts:71-74 | A successful create with a fresh id adds exactly one key, holding the given name and description and the caller as supplier, and keeps every other record |
| `CategoryProperties.CreatePreservesUniqueNames` | server/routes/categories.routes.ts:62-71 | Create keeps "no two categories share a name" |
| `CategoryProperties.CreateSameNameTwice` | server/routes/categories.routes.ts:62-69 | After a successful create, a second create with the same name and a non-empty description fails with 422 duplicate, whichever supplier sends it, and changes nothing |
| `CategoryProperties.CreateDrinksTwoSuppliers` | server/routes/categories.routes.ts:62-69 | Supplier 1 creates "Drinks"; supplier 2 then fails to create "Drinks": the duplicate check is not scoped to the supplier |
| `CategoryProperties.UpdateKeepsIdentity` | server/routes/categories.routes.ts:106-116 | A successful update requires record `id` to exist, belong to the caller and already carry the requested name; keys, id, supplier, name and every other record are unchanged and the description is the new one |
| `CategoryProperties.UpdateToFreshNameFails` | server/routes/categories.routes.ts:97-122 | An update to a name no record has reads a field of an empty lookup and always yields 500 with the table unchanged |
| `CategoryProperties.UpdateOwnRecordRefused` | server/routes/categories.routes.ts:97-104 | A supplier updating its own record to a name held by another supplier's record gets 401: ownership is judged on the name-matched record |
| `CategoryProperties.UpdatePreservesUniqueNames` | server/routes/categories.routes.ts:97-113 | Update keeps "no two categories share a name" |
| `CategoryProperties.ByNameAtMostOne` | server/routes/categories.routes.ts:97-106 | Under name uniqueness the lookup by name returns at most one record, so `category[0]` is the only match |
| `CategoryProperties.DeletePreservesUniqueNames` | server/routes/categories.routes.ts:130-139 | Delete keeps "no two categories share a name" |
| `CategoryProperties.DeleteThenGet` | server/routes/categories.routes.ts:130-139 | After a successful delete, reading the record back yields 500 for every caller |
| `CategoryProperties.GetCategoryIsolation` | server/routes/categories.routes.ts:32-40 | The owner reads the record; any other caller, including an absent one, gets 401 |
| `ItemRoutes.GetItems` | server/routes/item.routes.ts:10-23 | Always 200 with exactly the stored items, one row per item, with no caller check |
| `ItemRoutes.GetItem` | server/routes/item.routes.ts:25-40 | Always 200, for any caller; the item when it exists, an empty body otherwise |
| `ItemRoutes.KeptIfTruthy` | server/routes/item.routes.ts:52-53 | An optional field is kept exactly when it is truthy, and then unchanged |
| `ItemRoutes.Inserted` | server/routes/item.routes.ts:43-53 | The inserted record has the request's name, price and stock, has `desc` and `picture` exactly when they are truthy, and holds no category ids |
| `ItemRoutes.CreateItem` | server/routes/item.routes.ts:42-74 | Succeeds iff price > 0 and stock >= 0; price <= 0 gives 422 invalid price whatever the stock; a valid price with stock < 0 gives 422 invalid stock; failures leave the table unchanged; success adds the inserted record, which has positive price and non-negative stock |
| `ItemRoutes.ItemStore.Create` | server/routes/item.routes.ts:42-84 | Building the record in place and then inserting it yields the reply and table that `CreateItem` states, under the next auto-increment id, which is not in the table; the counter advances by one exactly when the item is inserted; it keeps "every stored item has a positive price and a non-negative stock" |
| `ItemRoutes.ItemStore.Put` | server/routes/item.routes.ts:86-88 | Sends no response; the method has no write frame, so the store is untouched |
| `ItemRoutes.ItemStore.Delete` | server/routes/item.routes.ts:90-92 | Sends no response; the method has no write frame, so the store is untouched |
| `ItemProperties.CreatePreservesWellStocked` | server/routes/item.routes.ts:55-70 | Create keeps "every stored item has a positive price and a non-negative stock" |
| `ItemProperties.CreateIgnoresCategoryIds` | server/routes/item.routes.ts:43-70 | The outcome of create does not depend on `categoriesIds` |
| `ItemProperties.CreateSameNameTwice` | server/routes/item.routes.ts:69-74 | The same valid request sent twice inserts two items with the same contents: names are not unique |
| `ItemProperties.CreateBoundaries` | server/routes/item.routes.ts:55-67 | Price 0 is refused as an invalid price, price 0.01 with stock -1 as an invalid stock, and price 0.01 with stock 0 is accepted |
| `ItemProperties.EmptyOptionalsDropped` | server/routes/item.routes.ts:51-53 | An empty `desc` or `picture` is stored as absent |

## Left out

- Express routing, response serialisation, message strings and console logging. Replies keep the status code, the `errorType` and the guard that fired.
- The auth middleware and token handling. The write routes run behind the middleware, which rejects a request without an identity, so their caller is a plain supplier id. `getCategory` has no middleware, so its caller is optional.
- Failures of the store itself (an unreachable database, a rejected insert). They would give 500 on every route. The model has only the 500s that the handlers' own logic produces.
- The store's internals. `CategoryService` and `ItemService` are not part of this model. Their behaviour is the list of assumptions above.
- JavaScript coercions: `Number(id)`, the truthiness of the `supplierId` query string, and comparisons on a missing or non-numeric `price` or `inStock`. Inputs are taken as well typed: ids and the supplier filter as integers, an item's name as a string, price as a real and stock as an integer. The item handler does not check that the name is present.
- Concurrency. Each request runs alone, so the race between the duplicate-name lookup and the insert is not represented.
- The unused `envs` import of the item routes.
- `ItemRoutes.ItemStore.Put` and `ItemRoutes.ItemStore.Delete`: the handlers never answer, so the request hangs. The model returns "no response" (`None`) and does not model the timeout that follows.
