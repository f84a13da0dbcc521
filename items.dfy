/**
 * Shopping list items: the stored item (`ShoppingListItem`) and the plain
 * record it is built from and projected to (`IShoppingListItem`).
 */
module Items {
  import opened Text

  /** A stored item. Its name has been trimmed when it was built from a record. */
  datatype Item = Item(name: string, id: string)

  /** The persisted shape of an item. */
  datatype ItemRecord = ItemRecord(id: string, name: string)

  /** An item found by a search, with its position in the sequence it was found in. */
  datatype ItemWithIndex = ItemWithIndex(item: Item, index: nat)

  /** `new ShoppingListItem(name, id)` with the id given: keeps the id and trims the name. */
  function NewItem(name: string, id: string): (it: Item)
    ensures it.id == id && it.name == Trim(name)
    ensures IsTrimmed(it.name) && |it.name| <= |name|
    ensures IsTrimmed(name) ==> it.name == name
  {
    Item(Trim(name), id)
  }

  /** The items a list of records turns into, one per record, in the same order. */
  function ItemsFromRecords(rs: seq<ItemRecord>): (items: seq<Item>)
    ensures |items| == |rs|
    ensures forall k :: 0 <= k < |rs| ==>
      items[k].id == rs[k].id && items[k].name == Trim(rs[k].name)
  {
    if rs == [] then [] else ItemsFromRecords(rs[..|rs| - 1]) + [NewItem(rs[|rs| - 1].name, rs[|rs| - 1].id)]
  }

  /** The records a list of items is projected to, one per item, in the same order. */
  function ItemsToRecords(items: seq<Item>): (rs: seq<ItemRecord>)
    ensures |rs| == |items|
    ensures forall k :: 0 <= k < |items| ==> rs[k].id == items[k].id && rs[k].name == items[k].name
  {
    if items == [] then [] else [ItemRecord(items[0].id, items[0].name)] + ItemsToRecords(items[1..])
  }

  /** Every item name is already trimmed. */
  predicate NamesTrimmed(items: seq<Item>) {
    forall k :: 0 <= k < |items| ==> IsTrimmed(items[k].name)
  }

  /** Projecting items to records and converting them back restores the items when their names are trimmed. */
  lemma ItemsRoundTrip(items: seq<Item>)
    requires NamesTrimmed(items)
    ensures ItemsFromRecords(ItemsToRecords(items)) == items
  {
  }

  /**
   * The `forEach`/`push` loop of the list constructor: converts the records one
   * at a time, appending each new item at the end.
   */
  method ConvertRecords(rs: seq<ItemRecord>) returns (items: seq<Item>)
    ensures items == ItemsFromRecords(rs)
  {
    items := [];
    var k := 0;
    while k < |rs|
      invariant 0 <= k <= |rs|
      invariant items == ItemsFromRecords(rs[..k])
    {
      assert rs[..k + 1][..k] == rs[..k];
      items := items + [NewItem(rs[k].name, rs[k].id)];
      k := k + 1;
    }
    assert rs[..k] == rs;
  }
}
