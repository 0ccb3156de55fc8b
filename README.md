# Shopping-list caches and store creation, in Dafny

This project models the stateful core of a small shop/pantry application in
which a store ("boutique") holds departments ("magasins") and each department
holds items with an ideal and a current quantity.

- **Department cache** (`composables/useMagasinState.ts`): the client keeps a
  local list of one department's items. It derives two views from it:
  - the shopping list: the items whose current quantity is below the ideal
    one, each annotated with `toBuy`;
  - the inventory: a name-sorted copy of the list.

  After each successful request it appends, replaces or removes items by id.
  Modelled by `MagasinState.MagasinCache`, a class whose `items` field is a
  `seq`, together with the pure view functions `ShoppingList` and
  `Inventory`.
- **Store cache** (`composables/useBoutiqueState.ts`): the client keeps a
  local list of the store's departments, appends and removes them by id, and
  adds up their `shoppingCount`. Modelled by `BoutiqueState.BoutiqueCache` and
  `TotalShoppingCount`.
- **Store creation** (`server/api/boutique/create.post.ts`): the handler
  rejects a blank name (400), then a code that is not exactly six digits
  (400), then a code already in use (409). Otherwise it stores the trimmed
  name with the code. Modelled by the pure `BoutiqueCreate.Handle` and by
  `BoutiqueCreate.BoutiqueTable.Create`, a method on a class that holds the
  stored rows.

Each server reply is an input. The awaited result of a request is passed to
each cache operation as a `Fetch.Reply`: either `Ok` with the decoded body
or `Failed` with the error's optional message. An operation that rethrows
returns the same `Failed` value and leaves its list unchanged.

Modules: `Fetch` (replies and the load-error text), `IdLists` (find, replace
and remove by id, generic over the record type), `Names` (the name order),
`MagasinState`, `BoutiqueState`, `BoutiqueCreate`.

## Model

| member | source | states |
|---|---|---|
| Fetch.OrEmpty | composables/useMagasinState.ts:55 | an absent list reads as the empty list (the fallback to `[]`, also at useBoutiqueState.ts:48); a present one is taken as it is |
| Fetch.LoadErrorText | composables/useMagasinState.ts:59 | the stored load error is the error's message when it is present and non-empty, and "Erreur de chargement" otherwise; it is never empty |
| IdLists.IndexOfId | composables/useMagasinState.ts:90 | `findIndex` by id: -1 exactly when no record has the id, otherwise the first position that has it |
| IdLists.FindIndex | composables/useMagasinState.ts:105 | the linear search behind `findIndex` returns what `IndexOfId` specifies: -1 exactly when no record matches, otherwise the first match |
| IdLists.ReplaceFirst | composables/useMagasinState.ts:90-91 | the length is kept; only the first record with the id becomes the reply, and every other position is unchanged; with no match the list is unchanged |
| IdLists.RemoveFirst | composables/useMagasinState.ts:105-106 | with no match the list is unchanged; otherwise exactly the first matching record is dropped, the records before it stay in place, those after it shift down by one, and the multiset loses just that record |
| Names.NameLe | composables/useMagasinState.ts:41 | the name order standing for `localeCompare`; a name sorts before every name it is a prefix of; `NameLeReflexive`, `NameLeTotal`, `NameLeAntisymmetric` and `NameLeTransitive` make it a total order |
| Names.NameLeReflexive | composables/useMagasinState.ts:41 | every name sorts with itself (the order used in place of `localeCompare`) |
| Names.NameLeTotal | composables/useMagasinState.ts:41 | any two names are comparable |
| Names.NameLeAntisymmetric | composables/useMagasinState.ts:41 | two names that each sort before the other are equal |
| Names.NameLeTransitive | composables/useMagasinState.ts:41 | the name order is transitive |
| Names.NotLeIsGreater | composables/useMagasinState.ts:41 | a name that does not sort before another sorts strictly after it |
| MagasinState.ShoppingList | composables/useMagasinState.ts:30-37 | the `shoppingList` view; it has no more entries than there are items; `ShoppingListEntries`, `ShoppingListSelectsInOrder` and `ShoppingListMembers` characterise its entries, their order and membership |
| MagasinState.ShoppingListEntries | composables/useMagasinState.ts:30-37 | every entry is made from an item with current < ideal and has `toBuy == ideal - current > 0` |
| MagasinState.NeedIndices | composables/useMagasinState.ts:32 | the positions kept by the filter all lie inside the list |
| MagasinState.NeedIndicesSpec | composables/useMagasinState.ts:32 | the kept positions are strictly increasing; each holds an item with current < ideal; every such item's position is among them |
| MagasinState.ShoppingListCons | composables/useMagasinState.ts:30-37 | the view of a list is the first item's entry (if it needs shopping) followed by the view of the rest |
| MagasinState.ShoppingListSuffix | composables/useMagasinState.ts:30-37 | the view of any suffix of the list is its kept items, annotated, in order |
| MagasinState.ShoppingListSelectsInOrder | composables/useMagasinState.ts:30-36 | the k-th entry of the shopping list is the annotated k-th item with current < ideal, so the relative order is the original one and all other fields are the item's |
| MagasinState.ShoppingListMembers | composables/useMagasinState.ts:30-36 | an item's entry is in the shopping list if and only if the item is in the list and current < ideal |
| MagasinState.ShoppingListAppend | composables/useMagasinState.ts:30-37 | the view of a concatenation is the concatenation of the views |
| MagasinState.WithName | composables/useMagasinState.ts:41 | the items with a given name are exactly the members of the list that carry it |
| MagasinState.InsertByName | composables/useMagasinState.ts:41 | one insertion step adds exactly the inserted item to the multiset |
| MagasinState.Inventory | composables/useMagasinState.ts:40-42 | the inventory is a permutation of the items; the item list, a value, is not reordered |
| MagasinState.InsertByNameMembers | composables/useMagasinState.ts:41 | an insertion step introduces no element other than the inserted one |
| MagasinState.SortedTail | composables/useMagasinState.ts:41 | the tail of a name-sorted list is name-sorted |
| MagasinState.SortedCons | composables/useMagasinState.ts:41 | an item whose name sorts before every name of a sorted list can head it |
| MagasinState.InsertByNameBounded | composables/useMagasinState.ts:41 | a lower bound of the inserted item and of the list bounds every element after the insertion |
| MagasinState.InsertByNameSorted | composables/useMagasinState.ts:41 | inserting into a name-sorted list keeps it name-sorted |
| MagasinState.InventorySorted | composables/useMagasinState.ts:40-42 | the inventory is ordered by name |
| MagasinState.InsertByNameStable | composables/useMagasinState.ts:41 | an insertion step puts the new item before every item of the same name |
| MagasinState.InventoryStable | composables/useMagasinState.ts:40-42 | the sort is stable: the items of any one name keep their relative order |
| MagasinState.MagasinCache.constructor | composables/useMagasinState.ts:19-27 | initial state: the given id, empty name, the cart emoji, no items, loading, no error |
| MagasinState.MagasinCache.Load | composables/useMagasinState.ts:44-62 | loading is over in every case; a reply with a body replaces id, name, emoji and items (absent items give []); an empty reply changes nothing; a failure keeps them and stores the error text; the error is cleared otherwise (one load at a time) |
| MagasinState.MagasinCache.AddItem | composables/useMagasinState.ts:64-79 | on success the returned item is appended and earlier items are unchanged; on failure the list is unchanged and the error is rethrown |
| MagasinState.MagasinCache.ApplyItemReply | composables/useMagasinState.ts:90-91 | on success the first item with the id is replaced by the returned one; on failure nothing changes |
| MagasinState.MagasinCache.UpdateItem | composables/useMagasinState.ts:81-97 | on success only the first item with the id becomes the returned item; on failure the list is unchanged and the error is rethrown |
| MagasinState.MagasinCache.DeleteItem | composables/useMagasinState.ts:99-111 | on success exactly the first item with the id is removed; on failure the list is unchanged and the error is rethrown |
| MagasinState.MagasinCache.Consume | composables/useMagasinState.ts:113-129 | on success only the first item with the id becomes the returned item; on failure the list is unchanged and the error is rethrown |
| MagasinState.MagasinCache.Restock | composables/useMagasinState.ts:131-147 | on success only the first item with the id becomes the returned item; on failure the list is unchanged and the error is rethrown |
| MagasinState.MagasinCache.MarkAsPurchased | composables/useMagasinState.ts:150-152 | behaves as a restock |
| MagasinState.ShoppingListAfterAdd | composables/useMagasinState.ts:73 | appending an item appends its entry, if any, to the shopping list and keeps the earlier entries |
| MagasinState.ShoppingListAfterRemove | composables/useMagasinState.ts:106 | removing an item from between two parts of the list removes only that item's entry, if any, from the shopping list |
| BoutiqueState.CountOf | composables/useBoutiqueState.ts:86 | a department's count is its `shoppingCount`, or 0 when that is absent |
| BoutiqueState.TotalShoppingCount | composables/useBoutiqueState.ts:85-87 | the total is non-negative when every department's count is |
| BoutiqueState.TotalAppend | composables/useBoutiqueState.ts:85-87 | the total over a concatenation is the sum of the totals |
| BoutiqueState.TotalFromFront | composables/useBoutiqueState.ts:85-87 | the total is the first department's count plus the total of the rest |
| BoutiqueState.TotalIsCountSum | composables/useBoutiqueState.ts:85-87 | the fold equals the plain sum of every department's `shoppingCount`, counting a missing one as 0 |
| BoutiqueState.TotalAround | composables/useBoutiqueState.ts:85-87 | the total of a list split around one department is the two parts' totals plus its count |
| BoutiqueState.TotalAfterRemove | composables/useBoutiqueState.ts:76-77 | removing the first department with an id lowers the total by exactly that department's count; with no match it is unchanged |
| BoutiqueState.TotalAfterAdd | composables/useBoutiqueState.ts:63 | appending a department raises the total by its count |
| BoutiqueState.BoutiqueCache.constructor | composables/useBoutiqueState.ts:29-37 | initial state: id 0, empty name, the given code, no departments, loading, no error |
| BoutiqueState.BoutiqueCache.Load | composables/useBoutiqueState.ts:39-55 | loading is over in every case; a reply with a body replaces id, name, code and departments (absent departments give []); an empty reply changes nothing; a failure keeps them and stores the error text |
| BoutiqueState.BoutiqueCache.AddMagasin | composables/useBoutiqueState.ts:57-69 | on success the returned department is appended and the total rises by its count; on failure nothing changes and the error is rethrown |
| BoutiqueState.BoutiqueCache.RemoveMagasin | composables/useBoutiqueState.ts:71-82 | on success exactly the first department with the id is removed and the total drops by its count; on failure nothing changes and the error is rethrown |
| BoutiqueCreate.Trim | server/api/boutique/create.post.ts:34 | `trim()`, also applied in the name check at line 7: never longer than its input; `TrimBlank`, `TrimShape`, `TrimEdges` and `TrimIdempotent` characterise it |
| BoutiqueCreate.TrimStart | server/api/boutique/create.post.ts:7 | a suffix of the input; everything dropped is whitespace; the result does not start with whitespace |
| BoutiqueCreate.TrimEnd | server/api/boutique/create.post.ts:7 | a prefix of the input; everything dropped is whitespace; the result does not end with whitespace |
| BoutiqueCreate.TrimBlank | server/api/boutique/create.post.ts:7 | a name trims to "" if and only if every character is whitespace |
| BoutiqueCreate.TrimShape | server/api/boutique/create.post.ts:34 | the stored name is a contiguous part `s[i..j]` of the input, and everything outside that part is whitespace |
| BoutiqueCreate.TrimEdges | server/api/boutique/create.post.ts:34 | the stored name has whitespace at neither end |
| BoutiqueCreate.TrimIdempotent | server/api/boutique/create.post.ts:34 | trimming the stored name again changes nothing |
| BoutiqueCreate.MatchesDigits | server/api/boutique/create.post.ts:15 | the anchored pattern `^\d{n}$`, one character at a time; a string it accepts has exactly n characters |
| BoutiqueCreate.IsPin | server/api/boutique/create.post.ts:15 | `/^\d{6}$/.test(code)`; an accepted code has six characters (`PinShape` states exactly which) |
| BoutiqueCreate.NameMissing | server/api/boutique/create.post.ts:7 | the name is absent or blank after trimming; a name that is not missing is present and non-empty |
| BoutiqueCreate.CodeMalformed | server/api/boutique/create.post.ts:15 | the code is absent or fails the six-digit pattern; a code that is not malformed is present and six characters long |
| BoutiqueCreate.MatchesDigitsShape | server/api/boutique/create.post.ts:15 | `^\d{n}$` accepts a string if and only if it has exactly n characters, all digits |
| BoutiqueCreate.PinShape | server/api/boutique/create.post.ts:15 | a code passes if and only if it is six characters, each in '0'..'9' |
| BoutiqueCreate.Handle | server/api/boutique/create.post.ts:7-39 | a blank name gets 400 before any code check; then a malformed code gets 400; then a code in use gets 409, if and only if it is in use; every refusal leaves the table unchanged; a request succeeds if and only if the name is not blank and the code is well formed and unused; a success appends exactly one store, with the trimmed name and the code |
| BoutiqueCreate.HandleKeepsCodesDistinct | server/api/boutique/create.post.ts:23-37 | one request keeps the stored codes pairwise distinct |
| BoutiqueCreate.ReplayKeepsCodesDistinct | server/api/boutique/create.post.ts:23-37 | any run of sequential requests keeps the stored codes pairwise distinct |
| BoutiqueCreate.BoutiqueTable.FindByCode | server/api/boutique/create.post.ts:23 | finds a stored store with the code if and only if the code is in use |
| BoutiqueCreate.BoutiqueTable.Create | server/api/boutique/create.post.ts:5-40 | the handler's reply and new table are those of `Handle`; the uniqueness of codes and the key counter are kept |

## Left out

- Request bodies are left out. The item name, `idealQuantity`, the update fields, the quantity for consume and restock, and a department's name and emoji go only to the server. The local state depends only on the reply, so these are not parameters.
- The server side of consume and restock is not part of this model. The item they return is an input.
- Vue reactivity, `onMounted(load)`, `$fetch`, `console.error`, `readBody` and `createError` are plumbing. A reply is an input value: a failed request reaches the caches as a `Fetch.Failed` value, and the creation handler's HTTP error is a `Refused` value.
- MagasinState.MagasinCache.Load: `isLoading` and `error` are set when `load` is called, before the request is awaited. A load is applied in one step here, so overlapping loads are not modelled: a failure of an earlier load that lands while a later one is pending stays visible after the later one succeeds, whereas the model clears it. Only the final state of a single load is modelled, so the passing `isLoading == true` is not observable.
- BoutiqueState.BoutiqueCache.Load: the same as for the department cache: `isLoading` and `error` are set when `load` is called, before the request is awaited. A load is applied in one step here, so overlapping loads are not modelled: an earlier load's failure that lands while a later one is pending stays visible after the later one succeeds, whereas the model clears it.
- MagasinState.MagasinCache.Load: a reply body without a `magasin` field would throw inside the `try` and be reported as a load error. Here a reply body always has its summary.
- Names.NameLe: `localeCompare` orders names by the user's locale. The model uses lexicographic order on characters instead. The proofs rely only on its being a total order, but the order the inventory shows depends on which order is used. `localeCompare` also returns 0 for some distinct strings (canonically equivalent forms, for example); the stable sort keeps such names in input order, while `NameLe` orders them by their characters.
- BoutiqueState.TotalShoppingCount: JavaScript numbers are floating point. Counts are unbounded integers here, and a `NaN` count is not modelled.
- BoutiqueCreate.Handle: a `name` or `code` in the JSON body that is not a string is not modelled. For example, a numeric code would pass the pattern test through string conversion.
- BoutiqueCreate.BoutiqueTable.Create: the database's own unique constraint and the race between lookup and insert under concurrent requests are left out. Only sequential calls are modelled.
- BoutiqueCreate.Boutique: the created record's other columns are not modelled. Its key is drawn from a counter that stands for the table's auto-increment.
- Authentication (`composables/useAuth.ts`), the item search, the shared shopping lists and the other CRUD routes are not part of this model.
