/**
 * The value of a shopping list and the effect of each of its operations,
 * written as functions over that value, with the properties they keep.
 */
module ListModel {
  import opened Wrappers
  import opened Text
  import opened Items
  import opened Search

  /** `ItemNotFoundError`, carrying the id that was searched for when the thrower passes one. */
  datatype ItemNotFoundError = ItemNotFoundError(searchId: Option<string>)

  /** The persisted record `IShoppingList`; `loading` is the one UI flag it carries. */
  datatype ListRecord = ListRecord(
    id: int, name: string, description: string, listid: string, owner: string,
    entries: seq<ItemRecord>, checkedEntries: seq<ItemRecord>, loading: bool)

  /** The contents of a `ShoppingList`: its header and its to-do and done sequences. */
  datatype ListState = ListState(
    name: string, description: string, listid: string, owner: string,
    entries: seq<Item>, checkedEntries: seq<Item>)

  /** No id occurs twice in `s`. */
  predicate DistinctIds(s: seq<Item>) {
    forall a, b :: 0 <= a < b < |s| ==> s[a].id != s[b].id
  }

  /** No id occurs twice across the to-do and done sequences together. */
  predicate UniqueIds(s: ListState) {
    DistinctIds(GlobalEntries(s))
  }

  // ---------------------------------------------------------------------------
  // Construction and projection
  // ---------------------------------------------------------------------------

  /** The items an optional list of records turns into; a missing list gives none. */
  function ItemsOf(rs: Option<seq<ItemRecord>>): seq<Item> {
    if rs.Some? then ItemsFromRecords(rs.value) else []
  }

  /**
   * `new ShoppingList(listId, name, description, owner?, entries?, checkedEntries?)`:
   * the header is copied, a missing owner becomes the empty string, and each
   * record becomes an item with the same id and the trimmed name, in order.
   */
  function Construct(
    listId: string, name: string, description: string, owner: Option<string>,
    entries: Option<seq<ItemRecord>>, checkedEntries: Option<seq<ItemRecord>>): (s: ListState)
    ensures s.listid == listId && s.name == name && s.description == description
    ensures s.owner == (if owner.Some? then owner.value else "")
    ensures entries.None? ==> s.entries == []
    ensures entries.Some? ==> |s.entries| == |entries.value| && forall k :: 0 <= k < |s.entries| ==>
      s.entries[k].id == entries.value[k].id && s.entries[k].name == Trim(entries.value[k].name)
    ensures checkedEntries.None? ==> s.checkedEntries == []
    ensures checkedEntries.Some? ==> |s.checkedEntries| == |checkedEntries.value| && forall k :: 0 <= k < |s.checkedEntries| ==>
      s.checkedEntries[k].id == checkedEntries.value[k].id && s.checkedEntries[k].name == Trim(checkedEntries.value[k].name)
    ensures NamesTrimmed(s.entries) && NamesTrimmed(s.checkedEntries)
  {
    var o := if owner.Some? then owner.value else "";
    ListState(name, description, listId, o, ItemsOf(entries), ItemsOf(checkedEntries))
  }

  /** `ShoppingList.from(list)`: the constructor applied to the fields of a record. */
  function FromRecord(r: ListRecord): ListState {
    Construct(r.listid, r.name, r.description, Some(r.owner), Some(r.entries), Some(r.checkedEntries))
  }

  /** `toInterface(id)`: the header and both sequences, with the given database id and `loading` off. */
  function ToInterface(s: ListState, id: int): ListRecord {
    ListRecord(id, s.name, s.description, s.listid, s.owner,
      ItemsToRecords(s.entries), ItemsToRecords(s.checkedEntries), false)
  }

  /** Projecting a list and rebuilding it from the record gives the same list when its names are trimmed. */
  lemma RecordRoundTrip(s: ListState, id: int)
    requires NamesTrimmed(s.entries) && NamesTrimmed(s.checkedEntries)
    ensures ToInterface(s, id).id == id && !ToInterface(s, id).loading
    ensures FromRecord(ToInterface(s, id)) == s
  {
  }

  /** Every list built from a record survives a further projection and rebuild unchanged. */
  lemma FromRecordStable(r: ListRecord, id: int)
    ensures FromRecord(ToInterface(FromRecord(r), id)) == FromRecord(r)
  {
  }

  // ---------------------------------------------------------------------------
  // Queries
  // ---------------------------------------------------------------------------

  /** `globalEntries`: all to-do items in order, then all done items in order. */
  function GlobalEntries(s: ListState): (g: seq<Item>)
    ensures |g| == |s.entries| + |s.checkedEntries|
    ensures g[..|s.entries|] == s.entries && g[|s.entries|..] == s.checkedEntries
  {
    s.entries + s.checkedEntries
  }

  /** An id occurs in the concatenation exactly when it occurs in one of the two sequences. */
  lemma ContainsGlobal(s: ListState, id: string)
    ensures Contains(GlobalEntries(s), id) <==> Contains(s.entries, id) || Contains(s.checkedEntries, id)
  {
  }

  /** `w` is the first element of `s` satisfying `p`, with its position in `s`. */
  predicate IsFirstMatch(s: seq<Item>, p: Condition, w: ItemWithIndex) {
    w.index < |s| && w.item == s[w.index] && p(s[w.index], w.index, s)
    && forall k :: 0 <= k < w.index ==> !p(s[k], k, s)
  }

  /**
   * `findEntryGlobal(p)`: the first match in the to-do sequence when there is
   * one, else the first match in the done sequence, each with its index in the
   * sequence it was found in; None when neither sequence has a match.
   */
  function FindEntryGlobal(s: ListState, p: Condition): (r: Option<ItemWithIndex>)
    ensures MatchesFrom(s.entries, p, 0) ==> r.Some? && IsFirstMatch(s.entries, p, r.value)
    ensures !MatchesFrom(s.entries, p, 0) && MatchesFrom(s.checkedEntries, p, 0) ==>
      r.Some? && IsFirstMatch(s.checkedEntries, p, r.value)
    ensures r.None? <==> !MatchesFrom(s.entries, p, 0) && !MatchesFrom(s.checkedEntries, p, 0)
  {
    match FirstMatch(s.entries, p)
    case Some(i) => Some(ItemWithIndex(s.entries[i], i))
    case None =>
      match FirstMatch(s.checkedEntries, p)
      case Some(j) => Some(ItemWithIndex(s.checkedEntries[j], j))
      case None => None
  }

  // ---------------------------------------------------------------------------
  // checkItem
  // ---------------------------------------------------------------------------

  /**
   * The move `checkItem` makes once the item has been found at index `i` of
   * either sequence: with `check` it appends the item to the done sequence and
   * splices index `i` out of the to-do sequence; otherwise it splices index `i`
   * out of the done sequence and appends the item to the to-do sequence.
   */
  function MoveFound(s: ListState, item: Item, i: nat, check: bool): ListState {
    if check then s.(entries := SpliceOne(s.entries, i), checkedEntries := s.checkedEntries + [item])
    else s.(entries := s.entries + [item], checkedEntries := SpliceOne(s.checkedEntries, i))
  }

  /**
   * `checkItem(id, check)`: the id is looked up in the to-do sequence first,
   * then in the done sequence, and the move applies the index where it was
   * found whatever sequence `check` names. An unknown id throws an
   * `ItemNotFoundError` without a search id.
   */
  function CheckItem(s: ListState, id: string, check: bool): Result<ListState, ItemNotFoundError> {
    match IndexOfId(s.entries, id)
    case Some(i) => Success(MoveFound(s, s.entries[i], i, check))
    case None =>
      match IndexOfId(s.checkedEntries, id)
      case Some(j) => Success(MoveFound(s, s.checkedEntries[j], j, check))
      case None => Failure(ItemNotFoundError(None))
  }

  /** `checkItem` throws exactly when the id is in neither sequence, and then without a search id. */
  lemma CheckItemFails(s: ListState, id: string, check: bool)
    ensures CheckItem(s, id, check).Failure? <==> !Contains(GlobalEntries(s), id)
    ensures CheckItem(s, id, check).Failure? ==> CheckItem(s, id, check).error == ItemNotFoundError(None)
  {
  }

  /**
   * Checking an item found in the to-do sequence at `i` removes it from there,
   * appends it to the done sequence and keeps every other field; the items of
   * the list as a whole are the same.
   */
  lemma CheckItemMarksDone(s: ListState, id: string, i: nat)
    requires IndexOfId(s.entries, id) == Some(i)
    ensures CheckItem(s, id, true) == Success(s.(
      entries := s.entries[..i] + s.entries[i + 1..],
      checkedEntries := s.checkedEntries + [s.entries[i]]))
    ensures multiset(GlobalEntries(CheckItem(s, id, true).value)) == multiset(GlobalEntries(s))
  {
  }

  /**
   * Unchecking an item found only in the done sequence, at `j`, removes it
   * from there, appends it to the to-do sequence and keeps every other field;
   * the items of the list as a whole are the same.
   */
  lemma CheckItemMarksTodo(s: ListState, id: string, j: nat)
    requires !Contains(s.entries, id) && IndexOfId(s.checkedEntries, id) == Some(j)
    ensures CheckItem(s, id, false) == Success(s.(
      entries := s.entries + [s.checkedEntries[j]],
      checkedEntries := s.checkedEntries[..j] + s.checkedEntries[j + 1..]))
    ensures multiset(GlobalEntries(CheckItem(s, id, false).value)) == multiset(GlobalEntries(s))
  {
  }

  /**
   * Checking an item that is already done: it stays where it is in the done
   * sequence and is appended to it a second time, while the to-do sequence
   * loses whatever item sits at the same index, if any.
   */
  lemma CheckItemAlreadyDone(s: ListState, id: string, j: nat)
    requires !Contains(s.entries, id) && IndexOfId(s.checkedEntries, id) == Some(j)
    ensures CheckItem(s, id, true) == Success(s.(
      entries := SpliceOne(s.entries, j),
      checkedEntries := s.checkedEntries + [s.checkedEntries[j]]))
    ensures j < |s.entries| ==> CheckItem(s, id, true).value.entries == s.entries[..j] + s.entries[j + 1..]
    ensures !UniqueIds(CheckItem(s, id, true).value)
  {
    var after := CheckItem(s, id, true).value;
    var g := GlobalEntries(after);
    var n := |after.entries|;
    assert g[n + j] == s.checkedEntries[j];
    assert g[n + |s.checkedEntries|] == s.checkedEntries[j];
  }

  /**
   * Unchecking an item that is still to do: it stays where it is in the to-do
   * sequence and is appended to it a second time, while the done sequence
   * loses whatever item sits at the same index, if any.
   */
  lemma CheckItemAlreadyTodo(s: ListState, id: string, i: nat)
    requires IndexOfId(s.entries, id) == Some(i)
    ensures CheckItem(s, id, false) == Success(s.(
      entries := s.entries + [s.entries[i]],
      checkedEntries := SpliceOne(s.checkedEntries, i)))
    ensures !UniqueIds(CheckItem(s, id, false).value)
  {
    var g := GlobalEntries(CheckItem(s, id, false).value);
    assert g[i] == s.entries[i];
    assert g[|s.entries|] == s.entries[i];
  }

  /** A concrete instance: checking the done item "b" again drops the to-do item "a" from the list. */
  lemma CheckItemAlreadyDoneDropsEntry()
    ensures var s := ListState("Weekly", "", "l1", "", [Item("Milk", "a")], [Item("Eggs", "b")]);
      CheckItem(s, "b", true) == Success(s.(entries := [], checkedEntries := [Item("Eggs", "b"), Item("Eggs", "b")]))
  {
    var s := ListState("Weekly", "", "l1", "", [Item("Milk", "a")], [Item("Eggs", "b")]);
    assert IndexOfId(s.entries, "b") == None by {
      assert !Contains(s.entries, "b");
    }
    assert s.checkedEntries[0].id == "b";
    assert IndexOfId(s.checkedEntries, "b") == Some(0);
    assert SpliceOne(s.entries, 0) == [];
    assert CheckItem(s, "b", true) == Success(MoveFound(s, s.checkedEntries[0], 0, true));
    assert MoveFound(s, s.checkedEntries[0], 0, true) == s.(entries := [], checkedEntries := [Item("Eggs", "b"), Item("Eggs", "b")]);
  }

  lemma DistinctMoveToEnd(u: seq<Item>, x: Item, v: seq<Item>)
    requires DistinctIds(u + [x] + v)
    ensures DistinctIds(u + v + [x])
  {
    var o, n := u + [x] + v, u + v + [x];
    forall a, b | 0 <= a < b < |n| ensures n[a].id != n[b].id {
      var fa := if a < |u| then a else if a < |u| + |v| then a + 1 else |u|;
      var fb := if b < |u| then b else if b < |u| + |v| then b + 1 else |u|;
      assert n[a] == o[fa] && n[b] == o[fb];
    }
  }

  lemma DistinctMoveEarlier(u: seq<Item>, w: seq<Item>, x: Item, v: seq<Item>)
    requires DistinctIds(u + w + [x] + v)
    ensures DistinctIds(u + [x] + w + v)
  {
    var o, n := u + w + [x] + v, u + [x] + w + v;
    forall a, b | 0 <= a < b < |n| ensures n[a].id != n[b].id {
      var fa := if a < |u| then a else if a == |u| then |u| + |w| else if a <= |u| + |w| then a - 1 else a;
      var fb := if b < |u| then b else if b == |u| then |u| + |w| else if b <= |u| + |w| then b - 1 else b;
      assert n[a] == o[fa] && n[b] == o[fb];
    }
  }

  /** Checking a to-do item keeps the ids of the list unique. */
  lemma CheckItemMarksDoneUniqueIds(s: ListState, id: string, i: nat)
    requires UniqueIds(s) && IndexOfId(s.entries, id) == Some(i)
    ensures UniqueIds(CheckItem(s, id, true).value)
  {
    var e, c := s.entries, s.checkedEntries;
    var u, x, v := e[..i], e[i], e[i + 1..];
    CheckItemMarksDone(s, id, i);
    var after := CheckItem(s, id, true).value;
    assert after.entries == u + v && after.checkedEntries == c + [x];
    assert e == u + [x] + v;
    assert GlobalEntries(s) == u + [x] + (v + c);
    DistinctMoveToEnd(u, x, v + c);
    assert GlobalEntries(after) == u + (v + c) + [x];
  }

  /** Unchecking a done item that is not also a to-do item keeps the ids of the list unique. */
  lemma CheckItemMarksTodoUniqueIds(s: ListState, id: string, j: nat)
    requires UniqueIds(s) && !Contains(s.entries, id) && IndexOfId(s.checkedEntries, id) == Some(j)
    ensures UniqueIds(CheckItem(s, id, false).value)
  {
    var e, c := s.entries, s.checkedEntries;
    var w, x, v := c[..j], c[j], c[j + 1..];
    CheckItemMarksTodo(s, id, j);
    var after := CheckItem(s, id, false).value;
    assert after.entries == e + [x] && after.checkedEntries == w + v;
    assert c == w + [x] + v;
    assert GlobalEntries(s) == e + w + [x] + v;
    DistinctMoveEarlier(e, w, x, v);
    assert GlobalEntries(after) == e + [x] + w + v;
  }

  /**
   * When `check` names the direction the item can actually move (to done for a
   * to-do item, to to-do for an item found only among the done ones),
   * `checkItem` succeeds and no id ends up twice in the list.
   */
  lemma CheckItemPreservesUniqueIds(s: ListState, id: string, check: bool)
    requires UniqueIds(s)
    requires if check then Contains(s.entries, id) else !Contains(s.entries, id) && Contains(s.checkedEntries, id)
    ensures CheckItem(s, id, check).Success?
    ensures UniqueIds(CheckItem(s, id, check).value)
  {
    if check {
      CheckItemMarksDoneUniqueIds(s, id, IndexOfId(s.entries, id).value);
    } else {
      CheckItemMarksTodoUniqueIds(s, id, IndexOfId(s.checkedEntries, id).value);
    }
  }

  /** An item last in the to-do sequence, whose id occurs nowhere before it, is checked from the end. */
  lemma CheckLastTodo(t: ListState, id: string, e: seq<Item>, x: Item)
    requires t.entries == e + [x] && x.id == id && !Contains(e, id)
    ensures CheckItem(t, id, true) == Success(t.(entries := e, checkedEntries := t.checkedEntries + [x]))
  {
    assert IndexOfId(t.entries, id) == Some(|e|) by {
      forall k | 0 <= k < |e| ensures t.entries[k].id != id {
        assert t.entries[k] == e[k];
      }
      assert t.entries[|e|] == x;
    }
    assert SpliceOne(t.entries, |e|) == e;
  }

  /** An item last in the done sequence, whose id occurs nowhere else, is unchecked from the end. */
  lemma UncheckLastDone(t: ListState, id: string, c: seq<Item>, x: Item)
    requires t.checkedEntries == c + [x] && x.id == id && !Contains(t.entries, id) && !Contains(c, id)
    ensures CheckItem(t, id, false) == Success(t.(entries := t.entries + [x], checkedEntries := c))
  {
    assert IndexOfId(t.checkedEntries, id) == Some(|c|) by {
      forall k | 0 <= k < |c| ensures t.checkedEntries[k].id != id {
        assert t.checkedEntries[k] == c[k];
      }
      assert t.checkedEntries[|c|] == x;
    }
    assert SpliceOne(t.checkedEntries, |c|) == c;
  }

  /**
   * With unique ids, checking a to-do item and unchecking it again brings it
   * back to the to-do sequence, now at its end, and leaves the done sequence
   * as it was.
   */
  lemma CheckThenUncheck(s: ListState, id: string, i: nat)
    requires UniqueIds(s) && IndexOfId(s.entries, id) == Some(i)
    ensures CheckItem(s, id, true).Success?
    ensures CheckItem(CheckItem(s, id, true).value, id, false) == Success(s.(
      entries := s.entries[..i] + s.entries[i + 1..] + [s.entries[i]]))
  {
    var e, c := s.entries, s.checkedEntries;
    CheckItemMarksDone(s, id, i);
    var t := CheckItem(s, id, true).value;
    var g := e + c;
    assert !Contains(t.entries, id) by {
      forall k | 0 <= k < |t.entries| ensures t.entries[k].id != id {
        if k < i { assert t.entries[k] == g[k]; } else { assert t.entries[k] == g[k + 1]; }
      }
    }
    assert !Contains(c, id) by {
      forall k | 0 <= k < |c| ensures c[k].id != id {
        assert c[k] == g[|e| + k] && e[i] == g[i];
      }
    }
    UncheckLastDone(t, id, c, e[i]);
  }

  /**
   * Unchecking a done item that is not also a to-do item and checking it
   * again brings it back to the done sequence, now at its end, and leaves the
   * to-do sequence as it was.
   */
  lemma UncheckThenCheck(s: ListState, id: string, j: nat)
    requires !Contains(s.entries, id) && IndexOfId(s.checkedEntries, id) == Some(j)
    ensures CheckItem(s, id, false).Success?
    ensures CheckItem(CheckItem(s, id, false).value, id, true) == Success(s.(
      checkedEntries := s.checkedEntries[..j] + s.checkedEntries[j + 1..] + [s.checkedEntries[j]]))
  {
    var e, c := s.entries, s.checkedEntries;
    CheckItemMarksTodo(s, id, j);
    var t := CheckItem(s, id, false).value;
    CheckLastTodo(t, id, e, c[j]);
  }

  // ---------------------------------------------------------------------------
  // createItem, renameItem
  // ---------------------------------------------------------------------------

  /**
   * `createItem(name)` with `freshId` in place of the generated UUID: the new
   * item, with the trimmed name, goes in front of the to-do sequence, and the
   * search that re-fetches it by id finds it at index 0.
   */
  function CreateItem(s: ListState, name: string, freshId: string): (r: (ListState, Item))
    ensures r.1.id == freshId && r.1.name == Trim(name)
    ensures r.0 == s.(entries := [r.1] + s.entries)
    ensures IndexOfId(r.0.entries, freshId) == Some(0)
  {
    var item := NewItem(name, freshId);
    (s.(entries := [item] + s.entries), item)
  }

  /** A fresh id keeps the ids of the list unique. */
  lemma CreateItemPreservesUniqueIds(s: ListState, name: string, freshId: string)
    requires UniqueIds(s) && !Contains(GlobalEntries(s), freshId)
    ensures UniqueIds(CreateItem(s, name, freshId).0)
  {
  }

  /**
   * `renameItem(id, name)`: the first to-do item with that id gets exactly
   * `name` (not trimmed); an id that is not in the to-do sequence changes nothing.
   */
  function RenameItem(s: ListState, id: string, name: string): ListState {
    match IndexOfId(s.entries, id)
    case None => s
    case Some(i) => s.(entries := s.entries[i := Item(name, s.entries[i].id)])
  }

  /**
   * Renaming touches only the name of the first to-do item carrying the id:
   * every position and id, the done sequence and the header are kept, and an
   * id missing from the to-do sequence (even one among the done items) is a no-op.
   */
  lemma RenameItemEffect(s: ListState, id: string, name: string)
    ensures var r := RenameItem(s, id, name);
      r.checkedEntries == s.checkedEntries && r.name == s.name && r.description == s.description
      && r.listid == s.listid && r.owner == s.owner && |r.entries| == |s.entries|
    ensures !Contains(s.entries, id) ==> RenameItem(s, id, name) == s
    ensures forall k :: 0 <= k < |s.entries| ==>
      var r := RenameItem(s, id, name);
      r.entries[k].id == s.entries[k].id
      && (if s.entries[k].id == id && forall m :: 0 <= m < k ==> s.entries[m].id != id
          then r.entries[k].name == name
          else r.entries[k] == s.entries[k])
  {
  }

  /** Renaming keeps ids, so the id search finds the same item afterwards. */
  lemma RenameItemKeepsIndex(s: ListState, id: string, name: string, id2: string)
    ensures IndexOfId(RenameItem(s, id, name).entries, id2) == IndexOfId(s.entries, id2)
  {
    var e, r := s.entries, RenameItem(s, id, name).entries;
    RenameItemEffect(s, id, name);
    assert forall k :: 0 <= k < |e| ==> r[k].id == e[k].id;
    assert Contains(r, id2) <==> Contains(e, id2) by {
      if Contains(e, id2) {
        var k :| 0 <= k < |e| && e[k].id == id2;
        assert r[k].id == id2;
      }
      if Contains(r, id2) {
        var k :| 0 <= k < |r| && r[k].id == id2;
        assert e[k].id == id2;
      }
    }
  }

  /** Renaming twice to the same name is the same as renaming once. */
  lemma RenameItemIdempotent(s: ListState, id: string, name: string)
    ensures RenameItem(RenameItem(s, id, name), id, name) == RenameItem(s, id, name)
  {
    RenameItemKeepsIndex(s, id, name, id);
  }

  /** Renaming keeps the ids of the list unique. */
  lemma RenameItemPreservesUniqueIds(s: ListState, id: string, name: string)
    requires UniqueIds(s)
    ensures UniqueIds(RenameItem(s, id, name))
  {
  }
}
