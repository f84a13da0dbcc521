/**
 * The `ShoppingList` aggregate: a header and two item sequences that its
 * methods change in place. `CheckItem`, `CreateItem`, `RenameItem` and
 * `FindEntryGlobal` are proved against the function of `ListModel` that
 * describes their effect; `ClearDone` states its effect directly.
 */
module Aggregate {
  import opened Wrappers
  import opened Items
  import opened Search
  import ListModel

  class ShoppingList {
    var name: string
    var description: string
    var listid: string
    var owner: string
    /** The to-do items, newest first. */
    var entries: seq<Item>
    /** The done items, in the order they were checked. */
    var checkedEntries: seq<Item>

    /** The current contents of the list as a value. */
    function State(): ListModel.ListState
      reads this
    {
      ListModel.ListState(name, description, listid, owner, entries, checkedEntries)
    }

    /**
     * Builds a list from plain data: the header is copied, a missing owner
     * becomes the empty string, and the record lists are converted item by item.
     */
    constructor (
      listId: string, name: string, description: string, owner: Option<string>,
      entries: Option<seq<ItemRecord>>, checkedEntries: Option<seq<ItemRecord>>)
      ensures State() == ListModel.Construct(listId, name, description, owner, entries, checkedEntries)
    {
      this.name := name;
      this.description := description;
      this.listid := listId;
      this.owner := if owner.Some? then owner.value else "";
      var todo: seq<Item> := [];
      if entries.Some? {
        todo := ConvertRecords(entries.value);
      }
      var done: seq<Item> := [];
      if checkedEntries.Some? {
        done := ConvertRecords(checkedEntries.value);
      }
      this.entries := todo;
      this.checkedEntries := done;
    }

    /** `ShoppingList.from(list)`: a new list built from the fields of a persisted record. */
    static method From(list: ListModel.ListRecord) returns (l: ShoppingList)
      ensures fresh(l)
      ensures l.State() == ListModel.FromRecord(list)
    {
      l := new ShoppingList(list.listid, list.name, list.description,
        Some(list.owner), Some(list.entries), Some(list.checkedEntries));
    }

    /** The `globalEntries` getter. */
    function GlobalEntries(): seq<Item>
      reads this
    {
      ListModel.GlobalEntries(State())
    }

    /** `toInterface(id)`. */
    function ToInterface(id: int): ListModel.ListRecord
      reads this
    {
      ListModel.ToInterface(State(), id)
    }

    /** Searches the to-do items, then the done items, for the first one satisfying `p`. */
    method FindEntryGlobal(p: Condition) returns (entry: Option<ItemWithIndex>)
      ensures entry == ListModel.FindEntryGlobal(State(), p)
    {
      var index := Find(entries, p);
      if index.Some? {
        return Some(ItemWithIndex(entries[index.value], index.value));
      }
      index := Find(checkedEntries, p);
      if index.Some? {
        return Some(ItemWithIndex(checkedEntries[index.value], index.value));
      }
      return None;
    }

    /**
     * Marks the item with `id` done (`check`) or to do (not `check`). Both
     * searches write the index they visit into the one variable `i`. With
     * `check` the item is appended to the done sequence and index `i` is
     * spliced out of the to-do sequence; otherwise index `i` is spliced out of
     * the done sequence and the item is appended to the to-do sequence,
     * whichever sequence the item was found in.
     */
    method CheckItem(id: string, check: bool) returns (outcome: Outcome<ListModel.ItemNotFoundError>)
      modifies this`entries, this`checkedEntries
      ensures match ListModel.CheckItem(old(State()), id, check)
        case Success(after) => outcome == Pass && State() == after
        case Failure(e) => outcome == Fail(e) && State() == old(State())
    {
      var i := -1;
      var item: Option<Item>;
      item, i := FindRecordingIndex(entries, id, i);
      if item.None? {
        item, i := FindRecordingIndex(checkedEntries, id, i);
        if item.None? {
          return Fail(ListModel.ItemNotFoundError(None));
        }
      }
      if check {
        checkedEntries := checkedEntries + [item.value];
        entries := SpliceOne(entries, i);
      } else {
        checkedEntries := SpliceOne(checkedEntries, i);
        entries := entries + [item.value];
      }
      outcome := Pass;
    }

    /**
     * Creates an item named `name` (trimmed) with the id `freshId` in front of
     * the to-do items, then fetches it back by id and returns it.
     */
    method CreateItem(name: string, freshId: string) returns (item: Item)
      modifies this`entries
      ensures (State(), item) == ListModel.CreateItem(old(State()), name, freshId)
    {
      entries := [NewItem(name, freshId)] + entries;
      var found := Find(entries, HasId(freshId));
      if found.Some? {
        item := entries[found.value];
      } else {
        assert false;
        item := Item("", "");
      }
    }

    /** Gives the first to-do item with `id` the name `name`; does nothing when there is none. */
    method RenameItem(id: string, name: string)
      modifies this`entries
      ensures State() == ListModel.RenameItem(old(State()), id, name)
    {
      var found := Find(entries, HasId(id));
      if found.None? {
        return;
      }
      entries := entries[found.value := Item(name, entries[found.value].id)];
    }

    /** Empties the done sequence and returns what it held; the to-do items stay as they are. */
    method ClearDone() returns (del: seq<Item>)
      modifies this`checkedEntries
      ensures del == old(checkedEntries)
      ensures checkedEntries == [] && entries == old(entries)
    {
      del := checkedEntries;
      checkedEntries := [];
    }
  }
}
