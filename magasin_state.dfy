/** The client-side cache of one department ("magasin") and its items
    (composables/useMagasinState.ts).

    The cache mirrors the department's item list; two derived views are
    computed from it: the shopping list (items below their ideal quantity,
    each annotated with how many to buy) and the inventory (all items sorted
    by name, on a copy). Every operation applies the server's reply to the
    local list only once the request has succeeded.
 */
module MagasinState {
  import opened Fetch
  import opened Names
  import IdLists

  datatype Item = Item(
    id: int,
    name: string,
    idealQuantity: int,
    currentQuantity: int,
    magasinId: int)

  /** The id projection the by-id list edits test with. */
  function ItemId(i: Item): int { i.id }

  /** An entry of the shopping list: every field of the item (`...item`)
      plus `toBuy`. */
  datatype ShoppingEntry = ShoppingEntry(
    id: int,
    name: string,
    idealQuantity: int,
    currentQuantity: int,
    magasinId: int,
    toBuy: int)

  /** The item an entry was made from. */
  function Base(e: ShoppingEntry): Item
  {
    Item(e.id, e.name, e.idealQuantity, e.currentQuantity, e.magasinId)
  }

  /** The filter of the shopping list. */
  predicate NeedsShopping(i: Item)
  {
    i.currentQuantity < i.idealQuantity
  }

  /** The map of the shopping list: `{ ...item, toBuy: ideal - current }`. */
  function Annotate(i: Item): ShoppingEntry
  {
    ShoppingEntry(i.id, i.name, i.idealQuantity, i.currentQuantity, i.magasinId,
                  i.idealQuantity - i.currentQuantity)
  }

  /** What one item contributes to the shopping list: its annotated entry
      when it needs shopping, nothing otherwise. */
  function EntryOf(i: Item): seq<ShoppingEntry>
  {
    if NeedsShopping(i) then [Annotate(i)] else []
  }

  // ---------------------------------------------------------------------
  // The shopping-list view: `items.filter(NeedsShopping).map(Annotate)`
  // ---------------------------------------------------------------------

  /** `items.filter(NeedsShopping).map(Annotate)`, item by item; it has no
      more entries than there are items. */
  function ShoppingList(items: seq<Item>): (view: seq<ShoppingEntry>)
    ensures |view| <= |items|
  {
    if items == [] then []
    else EntryOf(items[0]) + ShoppingList(items[1..])
  }

  /** Every entry stands for an item that needs shopping: its `toBuy` is the
      shortfall of that item, hence positive. */
  lemma {:induction false} ShoppingListEntries(items: seq<Item>)
    ensures forall e :: e in ShoppingList(items) ==>
              NeedsShopping(Base(e)) && e.toBuy == e.idealQuantity - e.currentQuantity && e.toBuy > 0
  {
    if items != [] {
      ShoppingListEntries(items[1..]);
      assert ShoppingList(items) == EntryOf(items[0]) + ShoppingList(items[1..]);
    }
  }

  /** The positions, from `from` on, of the items that need shopping: an
      independent statement of what the filter keeps. */
  function NeedIndices(items: seq<Item>, from: nat): (idx: seq<nat>)
    requires from <= |items|
    ensures forall k :: 0 <= k < |idx| ==> from <= idx[k] < |items|
    decreases |items| - from
  {
    if from == |items| then []
    else KeptAt(items, from) + NeedIndices(items, from + 1)
  }

  /** Position `i` when the filter keeps it, nothing otherwise. */
  function KeptAt(items: seq<Item>, i: nat): seq<nat>
    requires i < |items|
  {
    if NeedsShopping(items[i]) then [i] else []
  }

  /** The positions listed are in increasing order, are those of items
      that need shopping, and include every such item's position. */
  lemma {:induction false} NeedIndicesSpec(items: seq<Item>, from: nat)
    requires from <= |items|
    ensures forall k :: 0 <= k < |NeedIndices(items, from)| ==>
              NeedsShopping(items[NeedIndices(items, from)[k]])
    ensures forall k, l :: 0 <= k < l < |NeedIndices(items, from)| ==>
              NeedIndices(items, from)[k] < NeedIndices(items, from)[l]
    ensures forall i :: from <= i < |items| && NeedsShopping(items[i]) ==>
              i in NeedIndices(items, from)
    decreases |items| - from
  {
    if from < |items| {
      NeedIndicesSpec(items, from + 1);
      var h, later := KeptAt(items, from), NeedIndices(items, from + 1);
      assert NeedIndices(items, from) == h + later;
      forall k | |h| <= k < |h| + |later|
        ensures (h + later)[k] == later[k - |h|]
      {
      }
    }
  }

  /** One unfolding of the view on a list with a first item. */
  lemma ShoppingListCons(x: Item, rest: seq<Item>)
    ensures ShoppingList([x] + rest) == EntryOf(x) + ShoppingList(rest)
  {
    assert ([x] + rest)[1..] == rest;
  }

  lemma {:induction false} ShoppingListSuffix(items: seq<Item>, from: nat)
    requires from <= |items|
    ensures |ShoppingList(items[from..])| == |NeedIndices(items, from)|
    ensures forall k :: 0 <= k < |NeedIndices(items, from)| ==>
              ShoppingList(items[from..])[k] == Annotate(items[NeedIndices(items, from)[k]])
    decreases |items| - from
  {
    if from < |items| {
      ShoppingListSuffix(items, from + 1);
      var x, tail := items[from], items[from + 1..];
      assert items[from..] == [x] + tail;
      ShoppingListCons(x, tail);
      var e, rest := EntryOf(x), ShoppingList(tail);
      var h, later := KeptAt(items, from), NeedIndices(items, from + 1);
      assert |e| == |h| && (|h| == 1 ==> e[0] == Annotate(items[h[0]]));
      forall k | |h| <= k < |h| + |later|
        ensures (e + rest)[k] == Annotate(items[(h + later)[k]])
      {
        assert (e + rest)[k] == rest[k - |h|] && (h + later)[k] == later[k - |h|];
      }
    }
  }

  /** The shopping list is exactly the items that need shopping, annotated,
      in their original relative order: its k-th entry is made from the k-th
      such item. */
  lemma ShoppingListSelectsInOrder(items: seq<Item>)
    ensures |ShoppingList(items)| == |NeedIndices(items, 0)|
    ensures forall k :: 0 <= k < |NeedIndices(items, 0)| ==>
              ShoppingList(items)[k] == Annotate(items[NeedIndices(items, 0)[k]])
  {
    ShoppingListSuffix(items, 0);
    assert items[0..] == items;
  }

  /** An item has an entry in the shopping list exactly when it is in the
      list and needs shopping. */
  lemma ShoppingListMembers(items: seq<Item>, x: Item)
    ensures Annotate(x) in ShoppingList(items) <==> x in items && NeedsShopping(x)
  {
    ShoppingListSelectsInOrder(items);
    NeedIndicesSpec(items, 0);
    var view, idx := ShoppingList(items), NeedIndices(items, 0);
    if Annotate(x) in view {
      var k :| 0 <= k < |view| && view[k] == Annotate(x);
      assert Base(Annotate(x)) == x && Base(Annotate(items[idx[k]])) == items[idx[k]];
    }
    if x in items && NeedsShopping(x) {
      var i :| 0 <= i < |items| && items[i] == x;
      assert i in idx;
      var k :| 0 <= k < |idx| && idx[k] == i;
      assert view[k] == Annotate(x);
    }
  }

  /** The view distributes over concatenation, so appending items to the
      list appends their entries to the view. */
  lemma {:induction false} ShoppingListAppend(a: seq<Item>, b: seq<Item>)
    ensures ShoppingList(a + b) == ShoppingList(a) + ShoppingList(b)
  {
    if a != [] {
      ShoppingListAppend(a[1..], b);
      assert (a + b)[1..] == a[1..] + b;
    } else {
      assert a + b == b;
    }
  }

  // ---------------------------------------------------------------------
  // The inventory view: `[...items].sort((a, b) => a.name.localeCompare(b.name))`
  // ---------------------------------------------------------------------

  ghost predicate SortedByName(s: seq<Item>)
  {
    forall i, j :: 0 <= i < j < |s| ==> NameLe(s[i].name, s[j].name)
  }

  /** The items of `s` that carry the name `n`, in order. */
  function WithName(s: seq<Item>, n: string): (r: seq<Item>)
    ensures forall x :: x in r <==> x in s && x.name == n
  {
    if s == [] then []
    else if s[0].name == n then [s[0]] + WithName(s[1..], n)
    else WithName(s[1..], n)
  }

  /** One step of a stable sort: `x` goes before the first element whose
      name does not sort before its own. */
  function InsertByName(x: Item, s: seq<Item>): (r: seq<Item>)
    ensures multiset(r) == multiset(s) + multiset{x}
  {
    if s == [] then [x]
    else if NameLe(x.name, s[0].name) then [x] + s
    else
      assert s == [s[0]] + s[1..];
      [s[0]] + InsertByName(x, s[1..])
  }

  /** The sorted copy. `items` itself is a value here, so it is not
      reordered. */
  function Inventory(items: seq<Item>): (r: seq<Item>)
    ensures multiset(r) == multiset(items)
  {
    if items == [] then []
    else
      assert items == [items[0]] + items[1..];
      InsertByName(items[0], Inventory(items[1..]))
  }

  lemma {:induction false} InsertByNameMembers(x: Item, s: seq<Item>, y: Item)
    requires y in InsertByName(x, s)
    ensures y == x || y in s
  {
    if s != [] && !NameLe(x.name, s[0].name) && y != s[0] {
      InsertByNameMembers(x, s[1..], y);
    }
  }

  lemma SortedTail(s: seq<Item>)
    requires s != [] && SortedByName(s)
    ensures SortedByName(s[1..])
  {
    forall i, j | 0 <= i < j < |s| - 1 ensures NameLe(s[1..][i].name, s[1..][j].name) {
      assert s[1..][i] == s[i + 1] && s[1..][j] == s[j + 1];
    }
  }

  lemma SortedCons(h: Item, t: seq<Item>)
    requires SortedByName(t)
    requires forall j :: 0 <= j < |t| ==> NameLe(h.name, t[j].name)
    ensures SortedByName([h] + t)
  {
    var r := [h] + t;
    forall i, j | 0 <= i < j < |r| ensures NameLe(r[i].name, r[j].name) {
      assert r[j] == t[j - 1];
      if i > 0 {
        assert r[i] == t[i - 1];
      }
    }
  }

  /** A lower bound of `x` and of every element of `s` bounds every element
      after the insertion. */
  lemma InsertByNameBounded(x: Item, s: seq<Item>, lo: string)
    requires NameLe(lo, x.name)
    requires forall j :: 0 <= j < |s| ==> NameLe(lo, s[j].name)
    ensures forall j :: 0 <= j < |InsertByName(x, s)| ==> NameLe(lo, InsertByName(x, s)[j].name)
  {
    var r := InsertByName(x, s);
    forall j | 0 <= j < |r| ensures NameLe(lo, r[j].name) {
      InsertByNameMembers(x, s, r[j]);
    }
  }

  lemma {:induction false} InsertByNameSorted(x: Item, s: seq<Item>)
    requires SortedByName(s)
    ensures SortedByName(InsertByName(x, s))
  {
    if s == [] {
    } else if NameLe(x.name, s[0].name) {
      forall j | 0 <= j < |s| ensures NameLe(x.name, s[j].name) {
        if j > 0 {
          NameLeTransitive(x.name, s[0].name, s[j].name);
        }
      }
      SortedCons(x, s);
    } else {
      var tail := s[1..];
      SortedTail(s);
      InsertByNameSorted(x, tail);
      NotLeIsGreater(x.name, s[0].name);
      forall j | 0 <= j < |tail| ensures NameLe(s[0].name, tail[j].name) {
        assert tail[j] == s[j + 1];
      }
      InsertByNameBounded(x, tail, s[0].name);
      SortedCons(s[0], InsertByName(x, tail));
    }
  }

  /** The inventory is ordered by name. */
  lemma {:induction false} InventorySorted(items: seq<Item>)
    ensures SortedByName(Inventory(items))
  {
    if items != [] {
      InventorySorted(items[1..]);
      InsertByNameSorted(items[0], Inventory(items[1..]));
    }
  }

  lemma {:induction false} InsertByNameStable(x: Item, s: seq<Item>, n: string)
    ensures WithName(InsertByName(x, s), n) ==
            (if x.name == n then [x] else []) + WithName(s, n)
  {
    if s == [] {
    } else if NameLe(x.name, s[0].name) {
      assert ([x] + s)[1..] == s;
    } else {
      NotLeIsGreater(x.name, s[0].name);
      InsertByNameStable(x, s[1..], n);
      assert ([s[0]] + InsertByName(x, s[1..]))[1..] == InsertByName(x, s[1..]);
    }
  }

  /** The sort is stable, as `Array.prototype.sort` is: items that share a
      name keep their relative order. */
  lemma {:induction false} InventoryStable(items: seq<Item>, n: string)
    ensures WithName(Inventory(items), n) == WithName(items, n)
  {
    if items != [] {
      InventoryStable(items[1..], n);
      InsertByNameStable(items[0], Inventory(items[1..]), n);
    }
  }

  // ---------------------------------------------------------------------
  // The cache
  // ---------------------------------------------------------------------

  /** The department summary in the `load` reply. */
  datatype MagasinSummary = MagasinSummary(id: int, name: string, emoji: string)

  /** The body of a `load` reply; `items` may be absent. */
  datatype MagasinReply = MagasinReply(magasin: MagasinSummary, items: Option<seq<Item>>)

  class MagasinCache {
    var id: int
    var name: string
    var emoji: string
    var items: seq<Item>
    var isLoading: bool
    var error: Option<string>

    constructor (magasinId: int)
      ensures id == magasinId && name == "" && emoji == "\U{1F6D2}" && items == []
      ensures isLoading && error == None
    {
      id, name, emoji, items := magasinId, "", "\U{1F6D2}", [];
      isLoading, error := true, None;
    }

    /** Fetches the department and its items. A reply with a body replaces
        the summary fields and the items (absent items meaning none); an
        empty body changes nothing; a failure keeps the fields and records
        the error text. Loading is over in every case. */
    method Load(response: Reply<Option<MagasinReply>>)
      modifies this
      ensures !isLoading
      ensures response.Ok? && response.value.Some? ==>
                var m := response.value.value;
                id == m.magasin.id && name == m.magasin.name &&
                emoji == m.magasin.emoji && items == OrEmpty(m.items)
      ensures !(response.Ok? && response.value.Some?) ==>
                id == old(id) && name == old(name) && emoji == old(emoji) &&
                items == old(items)
      ensures error == (if response.Failed? then Some(LoadErrorText(response.error)) else None)
    {
      isLoading := true;
      error := None;
      match response {
        case Ok(body) =>
          if body.Some? {
            var m := body.value;
            id := m.magasin.id;
            name := m.magasin.name;
            emoji := m.magasin.emoji;
            items := OrEmpty(m.items);
          }
        case Failed(e) =>
          error := Some(LoadErrorText(e));
      }
      isLoading := false;
    }

    /** Appends the created item the server returned; a failed request
        leaves the list as it was and is rethrown. */
    method AddItem(reply: Reply<Item>) returns (r: Reply<Item>)
      modifies this`items
      ensures r == reply
      ensures reply.Ok? ==> items == old(items) + [reply.value]
      ensures reply.Failed? ==> items == old(items)
    {
      if reply.Ok? {
        items := items + [reply.value];
      }
      r := reply;
    }

    /** The shared tail of `updateItem`, `consume` and `restock`: the first
        item with `itemId` is replaced by the returned item. */
    method ApplyItemReply(itemId: int, reply: Reply<Item>) returns (r: Reply<Item>)
      modifies this`items
      ensures r == reply
      ensures reply.Ok? ==> items == IdLists.ReplaceFirst(old(items), itemId, reply.value, ItemId)
      ensures reply.Failed? ==> items == old(items)
    {
      if reply.Ok? {
        var idx := IdLists.FindIndex(items, itemId, ItemId);
        if idx != -1 {
          items := items[idx := reply.value];
        }
      }
      r := reply;
    }

    /** Applies the item the server returned for a `PUT` of new fields. */
    method UpdateItem(itemId: int, reply: Reply<Item>) returns (r: Reply<Item>)
      modifies this`items
      ensures r == reply
      ensures reply.Ok? ==> items == IdLists.ReplaceFirst(old(items), itemId, reply.value, ItemId)
      ensures reply.Failed? ==> items == old(items)
    {
      r := ApplyItemReply(itemId, reply);
    }

    /** Drops the first item with `itemId` once the server confirmed the
        deletion; a failed request leaves the list as it was. */
    method DeleteItem(itemId: int, reply: Reply<()>) returns (r: Reply<()>)
      modifies this`items
      ensures r == reply
      ensures reply.Ok? ==> items == IdLists.RemoveFirst(old(items), itemId, ItemId)
      ensures reply.Failed? ==> items == old(items)
    {
      if reply.Ok? {
        var idx := IdLists.FindIndex(items, itemId, ItemId);
        if idx != -1 {
          items := items[..idx] + items[idx + 1..];
        }
      }
      r := reply;
    }

    /** Applies the item the server returned after consuming some of it. */
    method Consume(itemId: int, reply: Reply<Item>) returns (r: Reply<Item>)
      modifies this`items
      ensures r == reply
      ensures reply.Ok? ==> items == IdLists.ReplaceFirst(old(items), itemId, reply.value, ItemId)
      ensures reply.Failed? ==> items == old(items)
    {
      r := ApplyItemReply(itemId, reply);
    }

    /** Applies the item the server returned after a restock. */
    method Restock(itemId: int, reply: Reply<Item>) returns (r: Reply<Item>)
      modifies this`items
      ensures r == reply
      ensures reply.Ok? ==> items == IdLists.ReplaceFirst(old(items), itemId, reply.value, ItemId)
      ensures reply.Failed? ==> items == old(items)
    {
      r := ApplyItemReply(itemId, reply);
    }

    /** A restock with no explicit quantity. */
    method MarkAsPurchased(itemId: int, reply: Reply<Item>) returns (r: Reply<Item>)
      modifies this`items
      ensures r == reply
      ensures reply.Ok? ==> items == IdLists.ReplaceFirst(old(items), itemId, reply.value, ItemId)
      ensures reply.Failed? ==> items == old(items)
    {
      r := Restock(itemId, reply);
    }
  }

  /** What adding an item does to the shopping-list view: its entry, if it
      needs shopping, is appended and the earlier entries stay. */
  lemma ShoppingListAfterAdd(items: seq<Item>, x: Item)
    ensures ShoppingList(items + [x]) == ShoppingList(items) + EntryOf(x)
  {
    ShoppingListAppend(items, [x]);
    assert [x][1..] == [];
  }

  /** What a deletion does to the shopping-list view: removing `x` from
      between `a` and `b` removes its entry, if it had one, and no other. */
  lemma ShoppingListAfterRemove(a: seq<Item>, x: Item, b: seq<Item>)
    ensures ShoppingList(a + [x] + b) == ShoppingList(a) + EntryOf(x) + ShoppingList(b)
    ensures ShoppingList(a + b) == ShoppingList(a) + ShoppingList(b)
  {
    ShoppingListAppend(a + [x], b);
    ShoppingListAfterAdd(a, x);
    ShoppingListAppend(a, b);
  }
}
