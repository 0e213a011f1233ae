/**
 * A restaurant's menu: a list of food items in which adding an item first
 * removes every item with the same id and then appends the new one.
 */
module Menus {
  import opened Items

  /** The ids on a menu, in list order. */
  function MenuIds(m: seq<FoodItem>): (ids: seq<int>)
    ensures |ids| == |m|
    ensures forall i :: 0 <= i < |m| ==> ids[i] == m[i].id
  {
    if m == [] then [] else [m[0].id] + MenuIds(m[1..])
  }

  /** `removeIf(fi -> fi.getId() == id)`: keeps the other items in their order. */
  function WithoutId(m: seq<FoodItem>, id: int): seq<FoodItem>
  {
    if m == [] then []
    else if m[0].id == id then WithoutId(m[1..], id)
    else [m[0]] + WithoutId(m[1..], id)
  }

  /** Restaurant.addFoodItem: replace any item with the same id, the new one last. */
  function Upsert(m: seq<FoodItem>, item: FoodItem): seq<FoodItem>
  {
    WithoutId(m, item.id) + [item]
  }

  /** `stream().filter(fi -> fi.getId() == id).findFirst()`. */
  function FindFirst(m: seq<FoodItem>, id: int): (r: Option<FoodItem>)
    ensures r.None? <==> id !in MenuIds(m)
    ensures r.Some? ==> r.value in m && r.value.id == id
  {
    if m == [] then None
    else if m[0].id == id then Some(m[0])
    else FindFirst(m[1..], id)
  }

  // ---------------------------------------------------------------------
  // WithoutId

  /** An item survives the removal exactly when it was there and has another id. */
  lemma {:induction false} WithoutIdMembers(m: seq<FoodItem>, id: int, x: FoodItem)
    ensures x in WithoutId(m, id) <==> x in m && x.id != id
  {
    if m != [] {
      WithoutIdMembers(m[1..], id, x);
      assert m == [m[0]] + m[1..];
    }
  }

  /** No item with the removed id remains. */
  lemma {:induction false} WithoutIdGone(m: seq<FoodItem>, id: int)
    ensures id !in MenuIds(WithoutId(m, id))
  {
    var r := WithoutId(m, id);
    forall k | 0 <= k < |r| ensures MenuIds(r)[k] != id {
      WithoutIdMembers(m, id, r[k]);
    }
  }

  /** Removing an id the menu does not hold changes nothing. */
  lemma {:induction false} WithoutIdAbsent(m: seq<FoodItem>, id: int)
    requires id !in MenuIds(m)
    ensures WithoutId(m, id) == m
  {
    if m != [] {
      assert MenuIds(m) == [m[0].id] + MenuIds(m[1..]);
      WithoutIdAbsent(m[1..], id);
      assert m == [m[0]] + m[1..];
    }
  }

  /** On a menu with distinct ids, removing the id at k deletes exactly that item. */
  lemma {:induction false} WithoutIdPresent(m: seq<FoodItem>, id: int, k: int)
    requires Distinct(MenuIds(m))
    requires 0 <= k < |m| && m[k].id == id
    ensures WithoutId(m, id) == m[..k] + m[k + 1..]
  {
    assert MenuIds(m[1..]) == MenuIds(m)[1..];
    if k == 0 {
      assert id !in MenuIds(m[1..]) by {
        forall j | 0 <= j < |m| - 1 ensures MenuIds(m[1..])[j] != id {
          assert MenuIds(m)[j + 1] != MenuIds(m)[0];
        }
      }
      WithoutIdAbsent(m[1..], id);
    } else {
      assert MenuIds(m)[0] != MenuIds(m)[k];
      WithoutIdPresent(m[1..], id, k - 1);
      assert m[..k] == [m[0]] + m[1..][..k - 1];
      assert m[k + 1..] == m[1..][k..];
    }
  }

  /** The menu shrinks under the removal exactly when it held the id. */
  lemma {:induction false} WithoutIdShrinks(m: seq<FoodItem>, id: int)
    ensures |WithoutId(m, id)| <= |m|
    ensures |WithoutId(m, id)| < |m| <==> id in MenuIds(m)
  {
    if m != [] {
      assert MenuIds(m) == [m[0].id] + MenuIds(m[1..]);
      WithoutIdShrinks(m[1..], id);
    }
  }

  /** Removal keeps the ids of a menu distinct. */
  lemma {:induction false} WithoutIdDistinct(m: seq<FoodItem>, id: int)
    requires Distinct(MenuIds(m))
    ensures Distinct(MenuIds(WithoutId(m, id)))
  {
    if m != [] {
      assert MenuIds(m) == [m[0].id] + MenuIds(m[1..]);
      assert MenuIds(m[1..]) == MenuIds(m)[1..];
      WithoutIdDistinct(m[1..], id);
      if m[0].id != id {
        var t := WithoutId(m[1..], id);
        var r := [m[0]] + t;
        forall j | 0 <= j < |m| - 1 ensures m[1..][j].id != m[0].id {
          assert MenuIds(m)[j + 1] != MenuIds(m)[0];
        }
        forall k | 0 <= k < |t| ensures MenuIds(t)[k] != m[0].id {
          WithoutIdMembers(m[1..], id, t[k]);
        }
        forall i, j | 0 <= i < j < |r| ensures MenuIds(r)[i] != MenuIds(r)[j] {
          if i == 0 {
            assert MenuIds(r)[j] == MenuIds(t)[j - 1];
          } else {
            assert MenuIds(r)[i] == MenuIds(t)[i - 1] && MenuIds(r)[j] == MenuIds(t)[j - 1];
          }
        }
      }
    }
  }

  // ---------------------------------------------------------------------
  // Upsert

  /**
   * After an upsert the menu holds exactly one item with the new item's id:
   * the new item, in last place.
   */
  lemma UpsertSingle(m: seq<FoodItem>, item: FoodItem)
    ensures |Upsert(m, item)| > 0 && Upsert(m, item)[|Upsert(m, item)| - 1] == item
    ensures forall j :: 0 <= j < |Upsert(m, item)| - 1 ==> Upsert(m, item)[j].id != item.id
  {
    var w := WithoutId(m, item.id);
    WithoutIdGone(m, item.id);
    forall j | 0 <= j < |w| ensures Upsert(m, item)[j].id != item.id {
      assert Upsert(m, item)[j] == w[j] && MenuIds(w)[j] == w[j].id;
    }
  }

  /**
   * An upsert of an id already on a menu with distinct ids removes the old
   * item from its place and appends the new one; the menu size is unchanged.
   */
  lemma UpsertReplaces(m: seq<FoodItem>, item: FoodItem, k: int)
    requires Distinct(MenuIds(m))
    requires 0 <= k < |m| && m[k].id == item.id
    ensures Upsert(m, item) == m[..k] + m[k + 1..] + [item]
    ensures |Upsert(m, item)| == |m|
  {
    WithoutIdPresent(m, item.id, k);
  }

  /** An upsert of a new id appends the item; the menu grows by one. */
  lemma UpsertAppends(m: seq<FoodItem>, item: FoodItem)
    requires item.id !in MenuIds(m)
    ensures Upsert(m, item) == m + [item]
    ensures |Upsert(m, item)| == |m| + 1
  {
    WithoutIdAbsent(m, item.id);
  }

  /** Upserts keep the ids of a menu distinct. */
  lemma UpsertDistinct(m: seq<FoodItem>, item: FoodItem)
    requires Distinct(MenuIds(m))
    ensures Distinct(MenuIds(Upsert(m, item)))
  {
    var w := WithoutId(m, item.id);
    var r := Upsert(m, item);
    WithoutIdDistinct(m, item.id);
    UpsertSingle(m, item);
    forall i, j | 0 <= i < j < |r| ensures MenuIds(r)[i] != MenuIds(r)[j] {
      if j < |w| {
        assert MenuIds(r)[i] == MenuIds(w)[i] && MenuIds(r)[j] == MenuIds(w)[j];
      }
    }
  }

  // ---------------------------------------------------------------------
  // FindFirst

  /** On a menu with distinct ids the search finds the one item with that id. */
  lemma {:induction false} FindFirstUnique(m: seq<FoodItem>, k: int)
    requires Distinct(MenuIds(m))
    requires 0 <= k < |m|
    ensures FindFirst(m, m[k].id) == Some(m[k])
  {
    if k > 0 {
      var ids := MenuIds(m);
      var tail := MenuIds(m[1..]);
      assert ids == [m[0].id] + tail;
      assert ids[0] != ids[k];
      assert Distinct(tail) by {
        forall i, j | 0 <= i < j < |tail| ensures tail[i] != tail[j] {
          assert tail[i] == ids[i + 1] && tail[j] == ids[j + 1];
        }
      }
      FindFirstUnique(m[1..], k - 1);
    }
  }

  /** An upserted item is what a later search for its id returns. */
  lemma FindAfterUpsert(m: seq<FoodItem>, item: FoodItem)
    ensures FindFirst(Upsert(m, item), item.id) == Some(item)
  {
    var r := Upsert(m, item);
    UpsertSingle(m, item);
    FindLast(r, item.id);
  }

  /** A search for an id held only by the last item returns that item. */
  lemma {:induction false} FindLast(m: seq<FoodItem>, id: int)
    requires |m| > 0 && m[|m| - 1].id == id
    requires forall j :: 0 <= j < |m| - 1 ==> m[j].id != id
    ensures FindFirst(m, id) == Some(m[|m| - 1])
  {
    if |m| > 1 {
      FindLast(m[1..], id);
    }
  }

  /** After a removal a search for that id finds nothing. */
  lemma {:induction false} FindAfterRemove(m: seq<FoodItem>, id: int)
    ensures FindFirst(WithoutId(m, id), id) == None
  {
    WithoutIdGone(m, id);
  }
}
