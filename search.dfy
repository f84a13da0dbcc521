/**
 * The array primitives the list relies on: `Array.prototype.find`, with a
 * callback that sees the element, its index and the whole array, and
 * `Array.prototype.splice(start, 1)`.
 */
module Search {
  import opened Wrappers
  import opened Items

  /** A `find` callback: element, index, array. Its truthiness is modelled as a boolean. */
  type Condition = (Item, int, seq<Item>) -> bool

  /** Some element at or after `from` satisfies `p`. */
  predicate MatchesFrom(s: seq<Item>, p: Condition, from: nat) {
    exists k :: from <= k < |s| && p(s[k], k, s)
  }

  /** The first index at or after `from` whose element satisfies `p`. */
  function FirstFrom(s: seq<Item>, p: Condition, from: nat): (r: Option<nat>)
    requires from <= |s|
    ensures r.Some? ==> from <= r.value < |s| && p(s[r.value], r.value, s)
    ensures r.Some? ==> forall k :: from <= k < r.value ==> !p(s[k], k, s)
    ensures r.None? <==> !MatchesFrom(s, p, from)
    decreases |s| - from
  {
    if from == |s| then None
    else if p(s[from], from, s) then Some(from)
    else FirstFrom(s, p, from + 1)
  }

  /** The index of the element `s.find(p)` returns, if any. */
  function FirstMatch(s: seq<Item>, p: Condition): Option<nat> {
    FirstFrom(s, p, 0)
  }

  /** The callback `(t) => t.id === id`. */
  function HasId(id: string): Condition {
    (t: Item, k: int, a: seq<Item>) => t.id == id
  }

  /** Some element of `s` carries `id`. */
  predicate Contains(s: seq<Item>, id: string) {
    exists k :: 0 <= k < |s| && s[k].id == id
  }

  /** The position of the first element of `s` carrying `id`, or None when there is none. */
  function IndexOfId(s: seq<Item>, id: string): (r: Option<nat>)
    ensures r.Some? ==> r.value < |s| && s[r.value].id == id
    ensures r.Some? ==> forall k :: 0 <= k < r.value ==> s[k].id != id
    ensures r.None? <==> !Contains(s, id)
  {
    var r := FirstMatch(s, HasId(id));
    assert r.None? <==> !MatchesFrom(s, HasId(id), 0);
    assert Contains(s, id) ==> MatchesFrom(s, HasId(id), 0) by {
      if Contains(s, id) {
        var k :| 0 <= k < |s| && s[k].id == id;
        assert HasId(id)(s[k], k, s);
      }
    }
    r
  }

  /**
   * `s.find(p)` together with the index the callback records when it returns
   * true: the first match, or None when no element satisfies `p`.
   */
  method Find(s: seq<Item>, p: Condition) returns (r: Option<nat>)
    ensures r == FirstMatch(s, p)
  {
    var i := 0;
    while i < |s|
      invariant 0 <= i <= |s|
      invariant FirstMatch(s, p) == FirstFrom(s, p, i)
    {
      if p(s[i], i, s) {
        return Some(i);
      }
      i := i + 1;
    }
    return None;
  }

  /**
   * `s.find((t, idx) => { i = idx; return t.id === id; })`: the callback writes
   * every index it visits into the outer variable `i` (here `cursor` on entry).
   * When the id is found, `i` is its position; otherwise `i` is the last index
   * of `s`, or keeps its old value when `s` is empty.
   */
  method FindRecordingIndex(s: seq<Item>, id: string, cursor: int) returns (found: Option<Item>, i: int)
    ensures match IndexOfId(s, id)
      case Some(j) => found == Some(s[j]) && i == j
      case None => found == None && i == (if s == [] then cursor else |s| - 1)
  {
    i := cursor;
    found := None;
    var idx := 0;
    while idx < |s|
      invariant 0 <= idx <= |s|
      invariant forall k :: 0 <= k < idx ==> s[k].id != id
      invariant i == (if idx == 0 then cursor else idx - 1)
      invariant found == None
    {
      i := idx;
      if s[idx].id == id {
        found := Some(s[idx]);
        return;
      }
      idx := idx + 1;
    }
  }

  /**
   * `s.splice(start, 1)` on the resulting array: a negative start counts from
   * the end, and a start at or past the end removes nothing.
   */
  function SpliceOne<T>(s: seq<T>, start: int): (r: seq<T>)
    ensures 0 <= start < |s| ==> r == s[..start] + s[start + 1..] && multiset(r) == multiset(s) - multiset{s[start]}
    ensures start >= |s| ==> r == s
    ensures -|s| <= start < 0 ==> r == s[..|s| + start] + s[|s| + start + 1..]
    ensures start < -|s| ==> r == (if s == [] then [] else s[1..])
  {
    var k := if start < 0 then (if |s| + start < 0 then 0 else |s| + start)
             else if start > |s| then |s| else start;
    if k < |s| then
      assert s == s[..k] + [s[k]] + s[k + 1..];
      s[..k] + s[k + 1..]
    else s
  }
}
