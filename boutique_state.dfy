/** The client-side cache of one store ("boutique") and its departments
    (composables/useBoutiqueState.ts).

    The cache mirrors the store's summary and its department list, and
    derives the number of items to buy across all departments. Departments
    are appended and removed by id once the server has confirmed the change.
 */
module BoutiqueState {
  import opened Fetch
  import IdLists
  import MagasinState

  /** A department as the store endpoint returns it. `shoppingCount` may be
      absent, which the total reads as 0. */
  datatype Magasin = Magasin(
    id: int,
    name: string,
    emoji: string,
    position: int,
    items: seq<MagasinState.Item>,
    itemsCount: int,
    shoppingCount: Option<int>)

  /** The id projection the by-id list edits test with. */
  function MagasinId(m: Magasin): int { m.id }

  /** `m.shoppingCount || 0`. */
  function CountOf(m: Magasin): (c: int)
    ensures m.shoppingCount.Some? ==> c == m.shoppingCount.value
    ensures m.shoppingCount.None? ==> c == 0
  {
    match m.shoppingCount
    case Some(c) => c
    case None => 0
  }

  // ---------------------------------------------------------------------
  // `magasins.reduce((sum, m) => sum + (m.shoppingCount || 0), 0)`
  // ---------------------------------------------------------------------

  /** The left fold of the source: the total of all but the last department,
      plus the last one's count. */
  function TotalShoppingCount(ms: seq<Magasin>): (total: int)
    ensures (forall k :: 0 <= k < |ms| ==> CountOf(ms[k]) >= 0) ==> total >= 0
  {
    if ms == [] then 0
    else TotalShoppingCount(ms[..|ms| - 1]) + CountOf(ms[|ms| - 1])
  }

  /** The total over a concatenation is the sum of the totals. */
  lemma {:induction false} TotalAppend(a: seq<Magasin>, b: seq<Magasin>)
    ensures TotalShoppingCount(a + b) == TotalShoppingCount(a) + TotalShoppingCount(b)
    decreases |b|
  {
    if b != [] {
      var last := b[|b| - 1];
      var front := b[..|b| - 1];
      assert (a + b)[..|a + b| - 1] == a + front;
      assert (a + b)[|a + b| - 1] == last;
      TotalAppend(a, front);
    } else {
      assert a + b == a;
    }
  }

  /** The total read from the first department on: what the fold adds up,
      summed in the other direction. */
  lemma TotalFromFront(m: Magasin, rest: seq<Magasin>)
    ensures TotalShoppingCount([m] + rest) == CountOf(m) + TotalShoppingCount(rest)
  {
    TotalAppend([m], rest);
    assert [m][..0] == [];
  }

  /** The plain sum of the departments' counts, first to last. */
  function CountSum(ms: seq<Magasin>): int
  {
    if ms == [] then 0 else CountOf(ms[0]) + CountSum(ms[1..])
  }

  /** The fold adds every department's count once, a missing count as 0. */
  lemma {:induction false} TotalIsCountSum(ms: seq<Magasin>)
    ensures TotalShoppingCount(ms) == CountSum(ms)
  {
    if ms != [] {
      TotalIsCountSum(ms[1..]);
      TotalFromFront(ms[0], ms[1..]);
      assert ms == [ms[0]] + ms[1..];
    }
  }

  /** The total of a list split around one department. */
  lemma TotalAround(a: seq<Magasin>, m: Magasin, b: seq<Magasin>)
    ensures TotalShoppingCount(a + [m] + b) ==
            TotalShoppingCount(a) + CountOf(m) + TotalShoppingCount(b)
  {
    assert a + [m] + b == a + ([m] + b);
    TotalAppend(a, [m] + b);
    TotalFromFront(m, b);
  }

  /** Removing the first department with `id` lowers the total by exactly
      that department's count; with no such department it stays. */
  lemma TotalAfterRemove(ms: seq<Magasin>, id: int)
    ensures var i := IdLists.IndexOfId(ms, id, MagasinId);
            TotalShoppingCount(IdLists.RemoveFirst(ms, id, MagasinId)) ==
            TotalShoppingCount(ms) - (if i == -1 then 0 else CountOf(ms[i]))
  {
    var i := IdLists.IndexOfId(ms, id, MagasinId);
    if i != -1 {
      var a, m, b := ms[..i], ms[i], ms[i + 1..];
      calc {
        TotalShoppingCount(ms);
        { assert ms == a + [m] + b; }
        TotalShoppingCount(a + [m] + b);
        { TotalAround(a, m, b); }
        TotalShoppingCount(a) + CountOf(m) + TotalShoppingCount(b);
        { TotalAppend(a, b); }
        TotalShoppingCount(a + b) + CountOf(m);
      }
      assert IdLists.RemoveFirst(ms, id, MagasinId) == a + b;
    }
  }

  /** Appending a department raises the total by its count. */
  lemma TotalAfterAdd(ms: seq<Magasin>, m: Magasin)
    ensures TotalShoppingCount(ms + [m]) == TotalShoppingCount(ms) + CountOf(m)
  {
    assert (ms + [m])[..|ms|] == ms;
  }

  // ---------------------------------------------------------------------
  // The cache
  // ---------------------------------------------------------------------

  /** The body of a `load` reply; `magasins` may be absent. */
  datatype BoutiqueReply = BoutiqueReply(
    id: int,
    name: string,
    code: string,
    magasins: Option<seq<Magasin>>)

  class BoutiqueCache {
    var id: int
    var name: string
    var code: string
    var magasins: seq<Magasin>
    var isLoading: bool
    var error: Option<string>

    constructor (boutiqueCode: string)
      ensures id == 0 && name == "" && code == boutiqueCode && magasins == []
      ensures isLoading && error == None
    {
      id, name, code, magasins := 0, "", boutiqueCode, [];
      isLoading, error := true, None;
    }

    /** The derived total of the cached departments. */
    function Total(): int
      reads this
    {
      TotalShoppingCount(magasins)
    }

    /** Fetches the store. A reply with a body replaces the summary and the
        departments (absent departments meaning none); an empty body changes
        nothing; a failure keeps the fields and records the error text.
        Loading is over in every case. */
    method Load(response: Reply<Option<BoutiqueReply>>)
      modifies this
      ensures !isLoading
      ensures response.Ok? && response.value.Some? ==>
                var b := response.value.value;
                id == b.id && name == b.name && code == b.code &&
                magasins == OrEmpty(b.magasins)
      ensures !(response.Ok? && response.value.Some?) ==>
                id == old(id) && name == old(name) && code == old(code) &&
                magasins == old(magasins)
      ensures error == (if response.Failed? then Some(LoadErrorText(response.error)) else None)
    {
      isLoading := true;
      error := None;
      match response {
        case Ok(body) =>
          if body.Some? {
            var b := body.value;
            id := b.id;
            name := b.name;
            code := b.code;
            magasins := OrEmpty(b.magasins);
          }
        case Failed(e) =>
          error := Some(LoadErrorText(e));
      }
      isLoading := false;
    }

    /** Appends the created department the server returned; a failed
        request leaves the list as it was and is rethrown. */
    method AddMagasin(reply: Reply<Magasin>) returns (r: Reply<Magasin>)
      modifies this`magasins
      ensures r == reply
      ensures reply.Ok? ==> magasins == old(magasins) + [reply.value]
      ensures reply.Failed? ==> magasins == old(magasins)
      ensures Total() == old(Total()) + (if reply.Ok? then CountOf(reply.value) else 0)
    {
      if reply.Ok? {
        TotalAfterAdd(magasins, reply.value);
        magasins := magasins + [reply.value];
      }
      r := reply;
    }

    /** Drops the first department with `magasinId` once the server has
        confirmed the deletion; a failed request leaves the list as it was
        and is rethrown. */
    method RemoveMagasin(magasinId: int, reply: Reply<()>) returns (r: Reply<()>)
      modifies this`magasins
      ensures r == reply
      ensures reply.Ok? ==> magasins == IdLists.RemoveFirst(old(magasins), magasinId, MagasinId)
      ensures reply.Failed? ==> magasins == old(magasins)
      ensures var i := IdLists.IndexOfId(old(magasins), magasinId, MagasinId);
              Total() == old(Total()) - (if reply.Ok? && i != -1 then CountOf(old(magasins)[i]) else 0)
    {
      if reply.Ok? {
        TotalAfterRemove(magasins, magasinId);
        var idx := IdLists.FindIndex(magasins, magasinId, MagasinId);
        if idx != -1 {
          magasins := magasins[..idx] + magasins[idx + 1..];
        }
      }
      r := reply;
    }
  }
}
