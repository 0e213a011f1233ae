/**
 * Food items and the insertion-ordered "item -> quantity" map that both a
 * customer's cart and a placed order keep (a Java LinkedHashMap keyed by the
 * food item, whose equality is its id alone).
 *
 * The map is a sequence of lines in insertion order. Two lines never share
 * an item id (WellFormed), so the map is keyed on the integer id.
 */
module Items {

  /** A reference that may be null. */
  datatype Option<T> = None | Some(value: T)

  /** A menu entry. Identity is `id` alone; `price` is in minor currency units. */
  datatype FoodItem = FoodItem(id: int, name: string, price: int)

  /** One entry of the map: the stored key object and its quantity. */
  datatype Line = Line(item: FoodItem, qty: int)

  /** The keys of the map, in insertion order. */
  function Ids(s: seq<Line>): (ids: seq<int>)
    ensures |ids| == |s|
    ensures forall i :: 0 <= i < |s| ==> ids[i] == s[i].item.id
  {
    if s == [] then [] else [s[0].item.id] + Ids(s[1..])
  }

  predicate Distinct(xs: seq<int>)
  {
    forall i, j :: 0 <= i < j < |xs| ==> xs[i] != xs[j]
  }

  /** What every cart and order map satisfies: one line per id, quantities positive. */
  predicate WellFormed(s: seq<Line>)
  {
    && Distinct(Ids(s))
    && forall i :: 0 <= i < |s| ==> s[i].qty > 0
  }

  /** `get`: the first (under WellFormed, the only) line for `id`. */
  function Lookup(s: seq<Line>, id: int): (r: Option<Line>)
    ensures r.None? <==> id !in Ids(s)
    ensures r.Some? ==> r.value in s && r.value.item.id == id
  {
    if s == [] then None
    else if s[0].item.id == id then Some(s[0])
    else Lookup(s[1..], id)
  }

  /** The quantity held for `id`, 0 when the id is absent. */
  function QtyOf(s: seq<Line>, id: int): int
  {
    match Lookup(s, id)
    case None => 0
    case Some(l) => l.qty
  }

  /**
   * `merge(item, q, Integer::sum)`: an existing line for the item's id keeps
   * its position and its stored item and gets `q` added; otherwise a new line
   * is appended at the end.
   */
  function Merge(s: seq<Line>, item: FoodItem, q: int): seq<Line>
  {
    if s == [] then [Line(item, q)]
    else if s[0].item.id == item.id then [Line(s[0].item, s[0].qty + q)] + s[1..]
    else [s[0]] + Merge(s[1..], item, q)
  }

  /** `remove(item)`: drops the line for `id`, if there is one. */
  function Remove(s: seq<Line>, id: int): seq<Line>
  {
    if s == [] then []
    else if s[0].item.id == id then s[1..]
    else [s[0]] + Remove(s[1..], id)
  }

  function Cost(l: Line): int
  {
    l.item.price * l.qty
  }

  /** Sum of price * quantity over all lines. */
  function Total(s: seq<Line>): int
  {
    if s == [] then 0 else Cost(s[0]) + Total(s[1..])
  }

  /** The price that a merge of `item` will be charged at: the stored item's, if any. */
  function StoredPrice(s: seq<Line>, item: FoodItem): int
  {
    match Lookup(s, item.id)
    case None => item.price
    case Some(l) => l.item.price
  }

  // ---------------------------------------------------------------------
  // Merge

  /** Merging a new id appends one line at the end and changes nothing else. */
  lemma {:induction false} MergeAbsent(s: seq<Line>, item: FoodItem, q: int)
    requires item.id !in Ids(s)
    ensures Merge(s, item, q) == s + [Line(item, q)]
  {
    if s != [] {
      assert s[0].item.id == Ids(s)[0];
      assert Ids(s[1..]) == Ids(s)[1..];
      MergeAbsent(s[1..], item, q);
      assert s == [s[0]] + s[1..];
    }
  }

  /**
   * Merging an id already at position k (its first occurrence) keeps the map's
   * length and order, keeps the stored item, and adds `q` to that line only.
   */
  lemma {:induction false} MergePresent(s: seq<Line>, item: FoodItem, q: int, k: int)
    requires 0 <= k < |s| && s[k].item.id == item.id
    requires forall j :: 0 <= j < k ==> s[j].item.id != item.id
    ensures Merge(s, item, q) == s[k := Line(s[k].item, s[k].qty + q)]
  {
    if k > 0 {
      MergePresent(s[1..], item, q, k - 1);
      assert s[1..][k - 1 := Line(s[k].item, s[k].qty + q)] == s[k := Line(s[k].item, s[k].qty + q)][1..];
    }
  }

  /** The keys after a merge: unchanged when the id was present, else the id appended. */
  lemma {:induction false} MergeIds(s: seq<Line>, item: FoodItem, q: int)
    ensures Ids(Merge(s, item, q)) == if item.id in Ids(s) then Ids(s) else Ids(s) + [item.id]
  {
    if s != [] && s[0].item.id != item.id {
      MergeIds(s[1..], item, q);
      assert Ids(s) == [s[0].item.id] + Ids(s[1..]);
    }
  }

  /** The line a merge leaves for the item's id, given the line it held before. */
  function MergedLine(prev: Option<Line>, item: FoodItem, q: int): Line
  {
    match prev
    case None => Line(item, q)
    case Some(l) => Line(l.item, l.qty + q)
  }

  /**
   * Lookups after a merge: the merged id now holds the old quantity plus `q`
   * under the first-stored item (or the given item when it was new); every
   * other id is untouched.
   */
  lemma {:induction false} MergeLookup(s: seq<Line>, item: FoodItem, q: int, x: int)
    ensures x != item.id ==> Lookup(Merge(s, item, q), x) == Lookup(s, x)
    ensures Lookup(Merge(s, item, q), item.id) == Some(MergedLine(Lookup(s, item.id), item, q))
  {
    if s != [] && s[0].item.id != item.id {
      MergeLookup(s[1..], item, q, x);
      var r := Merge(s, item, q);
      assert r[0] == s[0] && r[1..] == Merge(s[1..], item, q);
    }
  }

  /** The quantity for the merged id grows by exactly `q`; all others are unchanged. */
  lemma {:induction false} MergeQty(s: seq<Line>, item: FoodItem, q: int, x: int)
    ensures QtyOf(Merge(s, item, q), x) == QtyOf(s, x) + (if x == item.id then q else 0)
  {
    MergeLookup(s, item, q, x);
    if x == item.id {
      match Lookup(s, item.id)
      case None =>
      case Some(l) =>
    }
  }

  /** A merge with a positive quantity keeps the map well formed. */
  lemma MergeWellFormed(s: seq<Line>, item: FoodItem, q: int)
    requires WellFormed(s) && q > 0
    ensures WellFormed(Merge(s, item, q))
  {
    var r := Merge(s, item, q);
    var ids := Ids(s);
    MergeIds(s, item, q);
    if item.id in ids {
      var k :| 0 <= k < |s| && ids[k] == item.id;
      forall j | 0 <= j < k ensures s[j].item.id != item.id {
        assert ids[j] != ids[k];
      }
      MergePresent(s, item, q, k);
      assert Ids(r) == ids;
      forall i | 0 <= i < |r| ensures r[i].qty > 0 {
        if i != k {
          assert r[i] == s[i];
        }
      }
    } else {
      MergeAbsent(s, item, q);
      var rids := ids + [item.id];
      assert Ids(r) == rids;
      forall i, j | 0 <= i < j < |rids| ensures rids[i] != rids[j] {
        if j < |ids| {
          assert rids[i] == ids[i] && rids[j] == ids[j];
        } else {
          assert rids[i] == ids[i];
        }
      }
      forall i | 0 <= i < |r| ensures r[i].qty > 0 {
        if i < |s| {
          assert r[i] == s[i];
        }
      }
    }
  }

  /** A merge adds `q` times the stored item's price to the total. */
  lemma {:induction false} MergeTotal(s: seq<Line>, item: FoodItem, q: int)
    ensures Total(Merge(s, item, q)) == Total(s) + q * StoredPrice(s, item)
  {
    if s == [] {
    } else if s[0].item.id == item.id {
      calc {
        Total(Merge(s, item, q));
        Cost(Line(s[0].item, s[0].qty + q)) + Total(s[1..]);
        { assert Cost(Line(s[0].item, s[0].qty + q)) == Cost(s[0]) + q * s[0].item.price; }
        Total(s) + q * s[0].item.price;
      }
    } else {
      MergeTotal(s[1..], item, q);
      assert ([s[0]] + Merge(s[1..], item, q))[1..] == Merge(s[1..], item, q);
    }
  }

  /**
   * Adding two items with the same id (quantities q1, q2) to a map that lacks
   * the id yields one new, final line holding the FIRST item with q1 + q2.
   */
  lemma {:induction false} MergeTwice(s: seq<Line>, first: FoodItem, q1: int, second: FoodItem, q2: int)
    requires first.id == second.id && first.id !in Ids(s)
    ensures Merge(Merge(s, first, q1), second, q2) == s + [Line(first, q1 + q2)]
  {
    MergeAbsent(s, first, q1);
    var s1 := s + [Line(first, q1)];
    forall j | 0 <= j < |s| ensures s1[j].item.id != second.id {
      assert Ids(s)[j] == s[j].item.id;
    }
    MergePresent(s1, second, q2, |s|);
    assert s1[|s| := Line(first, q1 + q2)] == s + [Line(first, q1 + q2)];
  }

  /**
   * The same two adds raise the total by (q1 + q2) times the FIRST item's
   * price, whatever the second item's price.
   */
  lemma {:induction false} MergeTwiceTotal(s: seq<Line>, first: FoodItem, q1: int, second: FoodItem, q2: int)
    requires first.id == second.id && first.id !in Ids(s)
    ensures Total(Merge(Merge(s, first, q1), second, q2)) == Total(s) + (q1 + q2) * first.price
  {
    var l := Line(first, q1 + q2);
    MergeTwice(s, first, q1, second, q2);
    TotalAppend(s, [l]);
    assert Total([l]) == Cost(l) == (q1 + q2) * first.price;
  }

  // ---------------------------------------------------------------------
  // Remove

  /** Removing an absent id changes nothing. */
  lemma {:induction false} RemoveAbsent(s: seq<Line>, id: int)
    requires id !in Ids(s)
    ensures Remove(s, id) == s
  {
    if s != [] {
      assert Ids(s) == [s[0].item.id] + Ids(s[1..]);
      RemoveAbsent(s[1..], id);
    }
  }

  /** Removing an id whose first line is at k deletes exactly that line. */
  lemma {:induction false} RemovePresent(s: seq<Line>, id: int, k: int)
    requires 0 <= k < |s| && s[k].item.id == id
    requires forall j :: 0 <= j < k ==> s[j].item.id != id
    ensures Remove(s, id) == s[..k] + s[k + 1..]
  {
    if k > 0 {
      RemovePresent(s[1..], id, k - 1);
      assert s[..k] == [s[0]] + s[1..][..k - 1];
      assert s[k + 1..] == s[1..][k..];
    }
  }

  /** After a removal the id is absent and every other id is looked up as before. */
  lemma {:induction false} RemoveLookup(s: seq<Line>, id: int, x: int)
    requires WellFormed(s)
    ensures Lookup(Remove(s, id), x) == if x == id then None else Lookup(s, x)
  {
    if s != [] {
      assert Ids(s) == [s[0].item.id] + Ids(s[1..]);
      assert WellFormed(s[1..]) by {
        assert Ids(s[1..]) == Ids(s)[1..];
      }
      if s[0].item.id == id {
        if x == id {
          assert id !in Ids(s[1..]);
        }
      } else {
        RemoveLookup(s[1..], id, x);
      }
    }
  }

  /** Removal keeps the map well formed. */
  lemma {:induction false} RemoveWellFormed(s: seq<Line>, id: int)
    requires WellFormed(s)
    ensures WellFormed(Remove(s, id))
  {
    if s != [] {
      assert Ids(s) == [s[0].item.id] + Ids(s[1..]);
      assert WellFormed(s[1..]) by {
        assert Ids(s[1..]) == Ids(s)[1..];
      }
      if s[0].item.id != id {
        var t := Remove(s[1..], id);
        RemoveWellFormed(s[1..], id);
        RemoveIdsSubset(s[1..], id);
        assert s[0].item.id !in Ids(s[1..]);
        var r := [s[0]] + t;
        assert Ids(r) == [s[0].item.id] + Ids(t);
        forall i, j | 0 <= i < j < |Ids(r)| ensures Ids(r)[i] != Ids(r)[j] {
          if i == 0 {
            assert Ids(r)[j] == Ids(t)[j - 1];
          } else {
            assert Ids(r)[i] == Ids(t)[i - 1] && Ids(r)[j] == Ids(t)[j - 1];
          }
        }
        forall i | 0 <= i < |r| ensures r[i].qty > 0 {
          if i > 0 {
            assert r[i] == t[i - 1];
          }
        }
      } else {
        assert Remove(s, id) == s[1..];
      }
    }
  }

  /** Removal never introduces an id. */
  lemma {:induction false} RemoveIdsSubset(s: seq<Line>, id: int)
    ensures forall x :: x in Ids(Remove(s, id)) ==> x in Ids(s)
  {
    if s != [] {
      assert Ids(s) == [s[0].item.id] + Ids(s[1..]);
      if s[0].item.id != id {
        RemoveIdsSubset(s[1..], id);
        assert Ids([s[0]] + Remove(s[1..], id)) == [s[0].item.id] + Ids(Remove(s[1..], id));
      } else {
        assert Ids(s[1..]) == Ids(s)[1..];
      }
    }
  }

  /** Removal lowers the total by the cost of the removed line, if any. */
  lemma {:induction false} RemoveTotal(s: seq<Line>, id: int)
    ensures Total(Remove(s, id)) == Total(s) - match Lookup(s, id) case None => 0 case Some(l) => Cost(l)
  {
    if s != [] && s[0].item.id != id {
      RemoveTotal(s[1..], id);
      assert ([s[0]] + Remove(s[1..], id))[1..] == Remove(s[1..], id);
    }
  }

  // ---------------------------------------------------------------------
  // Total

  lemma {:induction false} TotalAppend(a: seq<Line>, b: seq<Line>)
    ensures Total(a + b) == Total(a) + Total(b)
  {
    if a == [] {
      assert a + b == b;
    } else {
      TotalAppend(a[1..], b);
      assert (a + b)[0] == a[0] && (a + b)[1..] == a[1..] + b;
    }
  }

  /** With non-negative prices and quantities the total is non-negative. */
  lemma {:induction false} TotalNonNegative(s: seq<Line>)
    requires forall i :: 0 <= i < |s| ==> s[i].item.price >= 0 && s[i].qty >= 0
    ensures Total(s) >= 0
  {
    if s != [] {
      TotalNonNegative(s[1..]);
    }
  }

  // ---------------------------------------------------------------------
  // Copying one map into a fresh one

  /**
   * Merging the lines of a well-formed map, in order, into an empty map
   * rebuilds it: after the first i lines the copy equals the prefix of length i.
   */
  lemma CopyStep(s: seq<Line>, i: int)
    requires WellFormed(s) && 0 <= i < |s|
    ensures Merge(s[..i], s[i].item, s[i].qty) == s[..i + 1]
  {
    forall j | 0 <= j < i ensures Ids(s[..i])[j] != s[i].item.id {
      assert Ids(s[..i])[j] == Ids(s)[j] && Ids(s)[i] == s[i].item.id;
    }
    MergeAbsent(s[..i], s[i].item, s[i].qty);
    assert s[..i] + [s[i]] == s[..i + 1];
  }
}
