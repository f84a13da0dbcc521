# Shopping list aggregate, modelled in Dafny

This project models the `ShoppingList` aggregate of `ShoppingList.ts`. The aggregate has a header (`name`, `description`, `listid`, `owner`) and two ordered item sequences:

- `entries`: the to-do items. New ones go in front.
- `checkedEntries`: the done items.

The model covers these operations:

- the constructor and `ShoppingList.from`, which build items from plain records and trim their names;
- the `globalEntries` view;
- the two-stage search `findEntryGlobal`;
- `checkItem`, which moves an item between the two sequences;
- `createItem`, `renameItem` and `clearDone`;
- the projection `toInterface` back to the persisted record.

Layout:

- `wrappers.dfy` (`Wrappers`): `Option`, `Result` and `Outcome` stand in for `undefined` and thrown errors.
- `text.dfy` (`Text`): whitespace trimming as `String.prototype.trim` does it. The whitespace set is ECMAScript's WhiteSpace and LineTerminator code points.
- `items.dfy` (`Items`): the stored item (`ShoppingListItem`), the persisted item record (`IShoppingListItem`) and the conversions between them. It also holds the `forEach`/`push` loop that the constructor runs.
- `search.dfy` (`Search`): `Array.prototype.find` and `splice(start, 1)` as the list uses them. This includes the `find` whose callback writes each index it visits into an outer variable.
- `list_model.dfy` (`ListModel`): the contents of a list as a value (`ListState`) and one function per operation that gives its effect. The lemmas state what each operation keeps.
- `shopping_list.dfy` (`Aggregate`): the class `ShoppingList` with mutable sequence fields, changed in place by its methods. `CheckItem`, `CreateItem` and `RenameItem` are proved to leave the state the matching `ListModel` function gives, `FindEntryGlobal` changes nothing and returns what `ListModel.FindEntryGlobal` gives, and `ClearDone` states its effect directly.

Behaviour reproduced as written:

- **`checkItem` reuses one index.** Each `find` callback writes every index it visits into the shared `i`. So after a successful search, `i` is the item's position in the sequence where it was found. The move then splices `i` out of `entries` when `check` is true and out of `checkedEntries` otherwise, whichever sequence the item was found in, and appends the item to the other one.
  - Checking an item that is already done leaves it in place, appends a second copy to the done sequence, and drops the to-do item at the same index, if there is one.
  - Unchecking an item that is still to do duplicates it at the end of the to-do sequence, and drops the done item at that index.
  - `ListModel.CheckItemAlreadyDone`, `ListModel.CheckItemAlreadyTodo` and `ListModel.CheckItemAlreadyDoneDropsEntry` state this, including that ids are no longer unique afterwards.
  - When the flag matches where the item is, the clean properties hold: the item moves to the end of the other sequence, the multiset of all items is kept, and unique ids stay unique.
- **`checkItem` throws without a search id.** An unknown id throws `new ItemNotFoundError()` with no id (`ShoppingList.ts:178`), so the model's error carries `None`. A description of the error as carrying the searched id would disagree with the code; the code is followed.
- **`renameItem` does not throw and does not trim.** Its doc comment says it throws `ItemNotFoundError` (`ShoppingList.ts:211`). The code returns silently on an unknown id (`ShoppingList.ts:217`). It searches only the to-do items and stores the new name untrimmed. The code is followed.
- **`createItem` cannot fail.** It re-fetches the new item by id, and that search always stops at index 0, whether or not the id is fresh. So the throw at `ShoppingList.ts:205` cannot be reached, and the method marks that branch with `assert false`. Freshness matters only to keep ids unique (`ListModel.CreateItemPreservesUniqueIds`).

## Model

| member | source | states |
|---|---|---|
| Text.Trim | ShoppingList.ts:84 | the trimmed name has no whitespace at either end, is no longer than the input, and an already trimmed name is kept unchanged |
| Text.TrimPadded | ShoppingList.ts:84 | trimming removes exactly the blank padding around a trimmed core: `Trim(p + x + q) == x`, so `"  x  "` becomes `"x"` |
| Items.NewItem | ShoppingList.ts:79-87 | an item built with a given id keeps that id and stores exactly `Trim(name)`: a trimmed name, unchanged if it was already trimmed |
| Items.ItemsFromRecords | ShoppingList.ts:114-120 | converting records gives one item per record, in the same order, with the same id and the trimmed name |
| Items.ConvertRecords | ShoppingList.ts:114-120 | the `forEach`/`push` loop builds exactly the converted item sequence |
| Items.ItemsToRecords | ShoppingList.ts:244-245 | projecting items gives one record per item, in order, with the same id and name |
| Items.ItemsRoundTrip | ShoppingList.ts:114-120 | converting projected records back gives the original items when their names are trimmed |
| Search.FirstFrom | ShoppingList.ts:147-152 | the result is the first index at or after the start whose element satisfies the callback; None exactly when no such element exists |
| Search.Find | ShoppingList.ts:147-152 | the `find` loop returns the index of the first element satisfying the callback, or None |
| Search.IndexOfId | ShoppingList.ts:169-172 | the first position holding the id, with no earlier position holding it; None exactly when no element has the id |
| Search.FindRecordingIndex | ShoppingList.ts:168-177 | a found id yields that item and its position in `i`; a missing id leaves `i` at the last index visited, or unchanged for an empty sequence |
| Search.SpliceOne | ShoppingList.ts:184-188 | removing at an index inside the sequence drops exactly that element and keeps the others in order; an index past the end changes nothing; a negative index counts from the end, clamped to the start |
| ListModel.Construct | ShoppingList.ts:107-121 | the header is copied, a missing owner becomes `""`, missing item lists become empty, and each item keeps the id and order of its record with the trimmed name |
| ListModel.RecordRoundTrip | ShoppingList.ts:237-250 | `toInterface` sets the given id and `loading` false, and `from(toInterface(n))` reproduces the header and both sequences when names are trimmed |
| ListModel.FromRecordStable | ShoppingList.ts:127-129 | a list built by `from` survives projection and rebuilding unchanged |
| ListModel.GlobalEntries | ShoppingList.ts:134-136 | the view is the to-do items in order followed by the done items in order |
| ListModel.ContainsGlobal | ShoppingList.ts:134-136 | an id is in the global view exactly when it is in one of the two sequences |
| ListModel.FindEntryGlobal | ShoppingList.ts:142-160 | the first match in the to-do items if any, else the first match in the done items, with its index in that sequence; None exactly when neither has a match |
| ListModel.CheckItemFails | ShoppingList.ts:167-178 | `checkItem` throws exactly when the id is in neither sequence, and the error carries no search id |
| ListModel.CheckItemMarksDone | ShoppingList.ts:167-191 | checking a to-do item at `i` removes it from the to-do items and appends it to the done items; the multiset of all items is kept |
| ListModel.CheckItemMarksTodo | ShoppingList.ts:167-191 | unchecking an item found only among the done items, at `j`, removes it there and appends it to the to-do items; the multiset of all items is kept |
| ListModel.CheckItemAlreadyDone | ShoppingList.ts:167-191 | checking a done item appends a second copy to the done items and splices the to-do sequence at the same index; ids are then not unique |
| ListModel.CheckItemAlreadyTodo | ShoppingList.ts:167-191 | unchecking a to-do item appends a second copy to the to-do items and splices the done sequence at the same index; ids are then not unique |
| ListModel.CheckItemAlreadyDoneDropsEntry | ShoppingList.ts:181-184 | with to-do `[a]` and done `[b]`, checking `b` gives to-do `[]` and done `[b, b]` |
| ListModel.CheckItemMarksDoneUniqueIds | ShoppingList.ts:181-184 | checking a to-do item keeps ids unique |
| ListModel.CheckItemMarksTodoUniqueIds | ShoppingList.ts:185-189 | unchecking an item found only among the done items keeps ids unique |
| ListModel.CheckItemPreservesUniqueIds | ShoppingList.ts:167-191 | when the flag matches where the item is, `checkItem` succeeds and ids stay unique |
| ListModel.CheckThenUncheck | ShoppingList.ts:167-191 | with unique ids, checking and then unchecking a to-do item moves it to the end of the to-do items and restores the done items |
| ListModel.UncheckThenCheck | ShoppingList.ts:167-191 | unchecking and then checking a done item moves it to the end of the done items and restores the to-do items |
| ListModel.CreateItem | ShoppingList.ts:199-207 | the new item has the fresh id and the trimmed name and is put in front of the to-do items; nothing else changes; the re-fetch by id finds it at index 0 |
| ListModel.CreateItemPreservesUniqueIds | ShoppingList.ts:199-201 | creating an item with an id not already in the list keeps ids unique |
| ListModel.RenameItemEffect | ShoppingList.ts:215-220 | only the first to-do item with the id gets exactly the new name; all positions and ids, the done items and the header are kept; an id not among the to-do items changes nothing |
| ListModel.RenameItemKeepsIndex | ShoppingList.ts:215-220 | after a rename, searching by any id finds the same position as before |
| ListModel.RenameItemIdempotent | ShoppingList.ts:215-220 | renaming twice to the same name equals renaming once |
| ListModel.RenameItemPreservesUniqueIds | ShoppingList.ts:215-220 | renaming keeps ids unique |
| Aggregate.ShoppingList.constructor | ShoppingList.ts:107-121 | the new object's contents are those given by `ListModel.Construct` |
| Aggregate.ShoppingList.From | ShoppingList.ts:127-129 | returns a fresh list whose contents are the record's header and converted items |
| Aggregate.ShoppingList.FindEntryGlobal | ShoppingList.ts:142-160 | the two searches return the entry described by `ListModel.FindEntryGlobal` |
| Aggregate.ShoppingList.CheckItem | ShoppingList.ts:167-191 | the new state is the one `ListModel.CheckItem` gives; on the not-found error it fails and leaves both sequences unchanged; the header is never touched |
| Aggregate.ShoppingList.CreateItem | ShoppingList.ts:199-207 | the new state and the returned item are those of `ListModel.CreateItem`; only `entries` changes |
| Aggregate.ShoppingList.RenameItem | ShoppingList.ts:215-220 | the new state is that of `ListModel.RenameItem`; only `entries` changes |
| Aggregate.ShoppingList.ClearDone | ShoppingList.ts:226-231 | returns the previous done items and leaves the done sequence empty with the to-do items untouched, so a second call returns `[]` |

## Left out

- UUID generation (`uuidv4`) is not modelled. `createItem` takes the new id as the parameter `freshId`, and the constructor of `ShoppingListItem` is modelled only with an id given.
- The `console.log` calls in `checkItem` are diagnostic output and are not modelled.
- For `ItemNotFoundError`, only the optional search id is modelled. Its message, its `name` and the stack-trace capture are not.
- The UI-only item data (`additional`: `edit`, `editName`, `focused`) is not modelled. The record's `additional.loading` flag is modelled only as set to false by `toInterface`.
- `LegacyShoppingListItem` is an unused type and is not modelled.
- `recipes/types.ts`, `recipes/types.d.ts`, `events.ts` and `events.d.ts` declare only data shapes and enums, with no behaviour, and are not modelled.
- Object aliasing is not modelled: items are values and the sequences are values. Five consequences:
  - `toInterface` and `clearDone` hand out the live arrays. The model returns copies.
  - `findEntryGlobal` writes an `index` property onto the found item, which is the stored object itself. The model returns the index beside an unchanged item.
  - Unchecking an item that is still to do leaves `entries` holding the same object twice. A later `renameItem` renames both slots; the model renames only the first. A later check of that id then moves one of the copies to `checkedEntries`, so the one object sits in both sequences.
  - Checking an item that is already done leaves `checkedEntries` holding the same object twice. A later uncheck of that id moves one copy to `entries`, so the one object sits in both sequences. A `renameItem` then renames the done copy too; the model renames only the to-do copy.
  - `createItem` returns the stored object, so later renames show through it. The model returns the item's value at creation.
- The `findEntryGlobal` callback is a pure boolean function of element, index and array. Side effects and non-boolean truthy results are not modelled.
- The database id of `toInterface` is an unbounded integer, not a JavaScript double.
- `owner ?? ''` and the optional item lists are modelled as an `Option` argument. `null` and `undefined` are not told apart.
- Strings are sequences of Unicode scalar values, while JavaScript strings are sequences of UTF-16 code units. Every ECMAScript whitespace code point lies in the Basic Multilingual Plane, so `trim` and `===` agree on well-formed strings. Strings holding lone surrogates cannot be represented.
