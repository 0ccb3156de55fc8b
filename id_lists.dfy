/** The by-id list edits both caches perform after a successful request:
    `findIndex(x => x.id === id)`, then `list[idx] = reply` or
    `list.splice(idx, 1)` when `idx !== -1`.

    Records are generic here; `idOf` projects a record onto its numeric id.
 */
module IdLists {

  /** `idx` is the first position of `s` whose record carries `id`. */
  ghost predicate IsFirstMatch<T>(s: seq<T>, id: int, idOf: T -> int, idx: int)
  {
    0 <= idx < |s| && idOf(s[idx]) == id &&
    forall j :: 0 <= j < idx ==> idOf(s[j]) != id
  }

  /** `Array.prototype.findIndex` with an id test: -1 when no record matches,
      otherwise the first matching position. */
  function IndexOfId<T>(s: seq<T>, id: int, idOf: T -> int): (r: int)
    ensures -1 <= r < |s|
    ensures r == -1 <==> forall j :: 0 <= j < |s| ==> idOf(s[j]) != id
    ensures r != -1 ==> IsFirstMatch(s, id, idOf, r)
  {
    if s == [] then -1
    else if idOf(s[0]) == id then 0
    else
      var r := IndexOfId(s[1..], id, idOf);
      if r == -1 then -1 else r + 1
  }

  /** The linear search that `findIndex` runs. */
  method FindIndex<T>(s: seq<T>, id: int, idOf: T -> int) returns (idx: int)
    ensures idx == IndexOfId(s, id, idOf)
    ensures -1 <= idx < |s|
    ensures idx == -1 <==> forall j :: 0 <= j < |s| ==> idOf(s[j]) != id
    ensures idx != -1 ==> IsFirstMatch(s, id, idOf, idx)
  {
    var i := 0;
    while i < |s|
      invariant 0 <= i <= |s|
      invariant forall j :: 0 <= j < i ==> idOf(s[j]) != id
    {
      if idOf(s[i]) == id {
        return i;
      }
      i := i + 1;
    }
    return -1;
  }

  /** `if (idx !== -1) list[idx] = x`: the first record with `id` is replaced
      by `x`; a list without such a record is left as it was. */
  function ReplaceFirst<T>(s: seq<T>, id: int, x: T, idOf: T -> int): (r: seq<T>)
    ensures |r| == |s|
    ensures forall k :: 0 <= k < |s| ==>
              r[k] == (if IsFirstMatch(s, id, idOf, k) then x else s[k])
    ensures (forall j :: 0 <= j < |s| ==> idOf(s[j]) != id) ==> r == s
  {
    var i := IndexOfId(s, id, idOf);
    if i == -1 then s else s[i := x]
  }

  /** `if (idx !== -1) list.splice(idx, 1)`: the first record with `id` is
      dropped and the others keep their order; a list without such a record
      is left as it was. */
  function RemoveFirst<T>(s: seq<T>, id: int, idOf: T -> int): (r: seq<T>)
    ensures (forall j :: 0 <= j < |s| ==> idOf(s[j]) != id) ==> r == s
    ensures forall i :: IsFirstMatch(s, id, idOf, i) ==>
              |r| == |s| - 1 &&
              (forall k :: 0 <= k < i ==> r[k] == s[k]) &&
              (forall k :: i <= k < |r| ==> r[k] == s[k + 1]) &&
              multiset(r) + multiset{s[i]} == multiset(s)
  {
    var i := IndexOfId(s, id, idOf);
    if i == -1 then s
    else
      assert s == s[..i] + [s[i]] + s[i + 1..];
      s[..i] + s[i + 1..]
  }
}
