/**
  The whole-list transforms the checklist hooks and the template builder apply on every edit:
  `map` over the items rewriting those with a given id, `filter` by id, appending, and the
  completed count and rounded progress percentage.
 */
module ChecklistOps {
  import opened Data

  /** `items.map(item => item.id === id ? { ...item, isCompleted: !item.isCompleted } : item)`. */
  function Toggle(items: seq<Item>, id: string): (r: seq<Item>)
    ensures |r| == |items|
    ensures forall i | 0 <= i < |items| ::
      && r[i].id == items[i].id && r[i].text == items[i].text && r[i].category == items[i].category
      && r[i].isOutfit == items[i].isOutfit && r[i].outfitItems == items[i].outfitItems
      && (r[i].isCompleted <==> (if items[i].id == id then !items[i].isCompleted else items[i].isCompleted))
  {
    if items == [] then []
    else
      var x := items[0];
      [if x.id == id then x.(isCompleted := !x.isCompleted) else x] + Toggle(items[1..], id)
  }

  /** Toggling the same id twice restores the list. */
  lemma ToggleTwice(items: seq<Item>, id: string)
    ensures Toggle(Toggle(items, id), id) == items
  {
    var r := Toggle(Toggle(items, id), id);
    assert forall i | 0 <= i < |items| :: r[i] == items[i];
  }

  /** Toggling an id no item carries leaves the list as it is. */
  lemma ToggleUnknown(items: seq<Item>, id: string)
    requires forall i | 0 <= i < |items| :: items[i].id != id
    ensures Toggle(items, id) == items
  {
    var r := Toggle(items, id);
    assert forall i | 0 <= i < |items| :: r[i] == items[i];
  }

  /** `items.map(item => item.id === id ? { ...item, category: newCategory } : item)`. */
  function ChangeCategory(items: seq<Item>, id: string, category: string): (r: seq<Item>)
    ensures |r| == |items|
    ensures forall i | 0 <= i < |items| ::
      r[i] == (if items[i].id == id then items[i].(category := category) else items[i])
  {
    if items == [] then []
    else
      var x := items[0];
      [if x.id == id then x.(category := category) else x] + ChangeCategory(items[1..], id, category)
  }

  /** `items.map(item => item.id === id ? { ...item, text, category } : item)`. */
  function Edit(items: seq<Item>, id: string, text: string, category: string): (r: seq<Item>)
    ensures |r| == |items|
    ensures forall i | 0 <= i < |items| ::
      && r[i].id == items[i].id && r[i].isCompleted == items[i].isCompleted
      && r[i].isOutfit == items[i].isOutfit && r[i].outfitItems == items[i].outfitItems
      && (items[i].id == id ==> r[i].text == text && r[i].category == category)
      && (items[i].id != id ==> r[i] == items[i])
  {
    if items == [] then []
    else
      var x := items[0];
      [if x.id == id then x.(text := text, category := category) else x] + Edit(items[1..], id, text, category)
  }

  /** Editing an item to its current text and category (the only one with that id) leaves the list as it is. */
  lemma EditToSame(items: seq<Item>, k: nat)
    requires k < |items|
    requires forall i | 0 <= i < |items| && i != k :: items[i].id != items[k].id
    ensures Edit(items, items[k].id, items[k].text, items[k].category) == items
  {
    var r := Edit(items, items[k].id, items[k].text, items[k].category);
    assert forall i | 0 <= i < |items| :: r[i] == items[i];
  }

  /** `items.filter(item => item.id !== id)`. */
  function Remove(items: seq<Item>, id: string): (r: seq<Item>)
    ensures |r| <= |items|
    ensures forall x :: x in r <==> x in items && x.id != id
  {
    if items == [] then []
    else if items[0].id == id then Remove(items[1..], id)
    else [items[0]] + Remove(items[1..], id)
  }

  /** The number of items carrying `id`. */
  function CountId(items: seq<Item>, id: string): (n: nat)
    ensures n <= |items|
    ensures n == 0 <==> forall i | 0 <= i < |items| :: items[i].id != id
  {
    if items == [] then 0
    else
      var n := (if items[0].id == id then 1 else 0) + CountId(items[1..], id);
      assert n == 0 <==> forall i | 0 <= i < |items| :: items[i].id != id by {
        if n == 0 {
          forall i | 0 <= i < |items| ensures items[i].id != id {
            if i > 0 { assert items[i] == items[1..][i - 1]; }
          }
        } else if items[0].id != id {
          var i :| 0 <= i < |items| - 1 && items[1..][i].id == id;
          assert items[i + 1].id == id;
        }
      }
      n
  }

  /**
    Filtering keeps the relative order: it distributes over concatenation, so the kept items of
    a prefix come before the kept items of the rest.
   */
  lemma {:induction false} RemoveConcat(a: seq<Item>, b: seq<Item>, id: string)
    ensures Remove(a + b, id) == Remove(a, id) + Remove(b, id)
  {
    if a == [] {
      assert a + b == b;
    } else {
      assert (a + b)[0] == a[0] && (a + b)[1..] == a[1..] + b;
      RemoveConcat(a[1..], b, id);
    }
  }

  /** Exactly the matching items go: the length drops by their number; an unknown id is a no-op. */
  lemma {:induction false} RemoveCount(items: seq<Item>, id: string)
    ensures |Remove(items, id)| == |items| - CountId(items, id)
    ensures CountId(items, id) == 0 ==> Remove(items, id) == items
  {
    if items != [] {
      RemoveCount(items[1..], id);
      if CountId(items, id) == 0 {
        assert items == [items[0]] + items[1..];
      }
    }
  }

  /** Filtering by the same id twice is filtering once. */
  lemma RemoveIdempotent(items: seq<Item>, id: string)
    ensures Remove(Remove(items, id), id) == Remove(items, id)
  {
    RemoveCount(Remove(items, id), id);
  }

  /** A new, uncompleted, plain item, as the add handlers build it. */
  function NewItem(id: string, text: string, category: string): (x: Item)
    ensures x.id == id && x.text == text && x.category == category && !x.isCompleted
    ensures x.isOutfit.None? && x.outfitItems.None?
  {
    Item(id, text, category, false, Wrappers.None, Wrappers.None)
  }

  /** `items.filter(item => item.isCompleted).length`. */
  function CompletedCount(items: seq<Item>): (n: nat)
    ensures n <= |items|
    ensures n == |items| <==> forall i | 0 <= i < |items| :: items[i].isCompleted
    ensures n == 0 <==> forall i | 0 <= i < |items| :: !items[i].isCompleted
  {
    if items == [] then 0
    else
      var n := (if items[0].isCompleted then 1 else 0) + CompletedCount(items[1..]);
      assert forall i | 1 <= i < |items| :: items[i] == items[1..][i - 1];
      n
  }

  /**
    `Math.round(part / whole * 100)` on exact rationals: the whole percentage nearest to the
    true ratio. Ties round up as `Math.round` does; floating-point error is not modelled.
   */
  function RoundedPercent(part: nat, whole: nat): (p: nat)
    requires 0 < whole && part <= whole
    ensures p <= 100
    ensures part == 0 ==> p == 0
    ensures part == whole ==> p == 100
    ensures -(whole as int) <= 2 * (100 * part - p * whole) < whole
  {
    var p := (200 * part + whole) / (2 * whole);
    RoundingBounds(part, whole, p, (200 * part + whole) % (2 * whole));
    p
  }

  /** The facts about `RoundedPercent` from the division identity alone. */
  lemma RoundingBounds(part: nat, whole: nat, p: nat, m: int)
    requires 0 < whole && part <= whole
    requires 200 * part + whole == p * (2 * whole) + m && 0 <= m < 2 * whole
    ensures p <= 100
    ensures part == 0 ==> p == 0
    ensures part == whole ==> p == 100
    ensures -(whole as int) <= 2 * (100 * part - p * whole) < whole
  {
    assert p * (2 * whole) == 2 * (p * whole);
    if p > 100 { MulMonotone(101, p, whole); }
    if part == 0 && p > 0 { MulMonotone(1, p, whole); }
    if part == whole && p < 100 { MulMonotone(p, 99, whole); }
  }

  lemma MulMonotone(a: int, b: int, w: nat)
    requires a <= b
    ensures a * w <= b * w
  {
    assert b * w - a * w == (b - a) * w;
  }

  /** `useChecklist`'s `progressPercentage`: 0 for an empty list, otherwise the rounded completed share. */
  function Progress(items: seq<Item>): (p: nat)
    ensures p <= 100
    ensures items == [] ==> p == 0
    ensures items != [] && (forall i | 0 <= i < |items| :: items[i].isCompleted) ==> p == 100
    ensures (forall i | 0 <= i < |items| :: !items[i].isCompleted) ==> p == 0
  {
    if |items| > 0 then RoundedPercent(CompletedCount(items), |items|) else 0
  }
}
