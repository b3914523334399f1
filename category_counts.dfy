/**
  The per-category count both the template list and the template builder's preview compute:
  `items.reduce((acc, item) => { acc[item.category] = (acc[item.category] || 0) + 1; ... }, {})`
  read back with `Object.entries`, i.e. one row per category in order of first appearance.
 */
module CategoryCounts {
  import opened Data

  datatype Tally = Tally(category: string, count: nat)

  /** The category of each item, in order. */
  function CategoriesOf(items: seq<Item>): (r: seq<string>)
    ensures |r| == |items| && forall i | 0 <= i < |items| :: r[i] == items[i].category
  {
    if items == [] then [] else CategoriesOf(items[..|items| - 1]) + [items[|items| - 1].category]
  }

  /** The number of items in `items` with category `c`. */
  function Occurrences(items: seq<Item>, c: string): nat {
    if items == [] then 0
    else Occurrences(items[..|items| - 1], c) + (if items[|items| - 1].category == c then 1 else 0)
  }

  /** The category of each row, in order. */
  function Keys(ts: seq<Tally>): (r: seq<string>)
    ensures |r| == |ts| && forall i | 0 <= i < |ts| :: r[i] == ts[i].category
  {
    if ts == [] then [] else [ts[0].category] + Keys(ts[1..])
  }

  predicate DistinctKeys(ts: seq<Tally>) {
    forall i, j | 0 <= i < j < |ts| :: ts[i].category != ts[j].category
  }

  function Total(ts: seq<Tally>): nat {
    if ts == [] then 0 else ts[0].count + Total(ts[1..])
  }

  /** One step of the reduce: bump the row of `c`, or append a new row `(c, 1)`. */
  function Bump(ts: seq<Tally>, c: string): (r: seq<Tally>)
    requires DistinctKeys(ts)
    ensures Keys(r) == if c in Keys(ts) then Keys(ts) else Keys(ts) + [c]
    ensures forall i | 0 <= i < |ts| :: r[i].count == ts[i].count + (if ts[i].category == c then 1 else 0)
    ensures c !in Keys(ts) ==> r[|ts|] == Tally(c, 1)
  {
    if ts == [] then [Tally(c, 1)]
    else if ts[0].category == c then [Tally(c, ts[0].count + 1)] + ts[1..]
    else [ts[0]] + Bump(ts[1..], c)
  }

  /** Bumping one row adds one to the total. */
  lemma {:induction false} BumpTotal(ts: seq<Tally>, c: string)
    requires DistinctKeys(ts)
    ensures Total(Bump(ts, c)) == Total(ts) + 1
  {
    if ts != [] && ts[0].category != c {
      BumpTotal(ts[1..], c);
      assert Bump(ts, c)[1..] == Bump(ts[1..], c);
    } else if ts != [] {
      assert Bump(ts, c)[1..] == ts[1..];
    }
  }

  /** The reduce over `items`, left to right: one row per distinct category, in order of first appearance. */
  function CountByCategory(items: seq<Item>): (r: seq<Tally>)
    ensures DistinctKeys(r)
    ensures forall x :: x in Keys(r) <==> x in CategoriesOf(items)
  {
    if items == [] then []
    else
      var init := items[..|items| - 1];
      var c := items[|items| - 1].category;
      var p := CountByCategory(init);
      var r := Bump(p, c);
      assert CategoriesOf(items) == CategoriesOf(init) + [c];
      BumpKeepsDistinct(p, c);
      r
  }

  /** Bumping keeps one row per category. */
  lemma BumpKeepsDistinct(p: seq<Tally>, c: string)
    requires DistinctKeys(p)
    ensures DistinctKeys(Bump(p, c))
  {
    var r := Bump(p, c);
    forall i, j | 0 <= i < j < |r| ensures r[i].category != r[j].category {
      assert Keys(r)[i] == r[i].category && Keys(r)[j] == r[j].category;
      if j >= |p| {
        assert Keys(r)[j] == c && c !in Keys(p);
        assert Keys(r)[i] == Keys(p)[i];
      } else {
        assert Keys(r)[i] == Keys(p)[i] && Keys(r)[j] == Keys(p)[j];
      }
    }
  }

  /** The distinct values of `s` in order of first appearance: a later repeat adds nothing. */
  function FirstAppearances(s: seq<string>): (r: seq<string>)
    ensures forall x :: x in r <==> x in s
  {
    if s == [] then []
    else
      var d := FirstAppearances(s[..|s| - 1]);
      assert s == s[..|s| - 1] + [s[|s| - 1]];
      if s[|s| - 1] in d then d else d + [s[|s| - 1]]
  }

  /** The rows come in order of each category's first appearance among the items. */
  lemma {:induction false} CountByCategoryOrder(items: seq<Item>)
    ensures Keys(CountByCategory(items)) == FirstAppearances(CategoriesOf(items))
  {
    if items != [] {
      var init := items[..|items| - 1];
      CountByCategoryOrder(init);
      var cs := CategoriesOf(items);
      assert cs[..|cs| - 1] == CategoriesOf(init);
    }
  }

  /** Every row counts exactly the items of its category, so it is at least one, and the rows sum to the item count. */
  lemma {:induction false} CountByCategoryCounts(items: seq<Item>)
    ensures var r := CountByCategory(items);
      && Total(r) == |items|
      && forall i | 0 <= i < |r| :: r[i].count == Occurrences(items, r[i].category) && r[i].count >= 1
  {
    if items != [] {
      var init := items[..|items| - 1];
      var c := items[|items| - 1].category;
      var p := CountByCategory(init);
      CountByCategoryCounts(init);
      BumpTotal(p, c);
      var r := Bump(p, c);
      assert r == CountByCategory(items);
      forall i | 0 <= i < |r| ensures r[i].count == Occurrences(items, r[i].category) && r[i].count >= 1 {
        BumpRow(p, init, c, i);
        assert Occurrences(items, r[i].category)
            == Occurrences(init, r[i].category) + (if c == r[i].category then 1 else 0);
      }
    }
  }

  /** One row after a step of the reduce, given that every row counted its category before. */
  lemma BumpRow(p: seq<Tally>, init: seq<Item>, c: string, i: nat)
    requires DistinctKeys(p)
    requires forall x :: x in Keys(p) <==> x in CategoriesOf(init)
    requires forall k | 0 <= k < |p| :: p[k].count == Occurrences(init, p[k].category) && p[k].count >= 1
    requires i < |Bump(p, c)|
    ensures var x := Bump(p, c)[i].category;
      Bump(p, c)[i].count == Occurrences(init, x) + (if c == x then 1 else 0) >= 1
  {
    var r := Bump(p, c);
    assert |Keys(r)| == |r|;
    if i >= |p| {
      assert c !in Keys(p) && r[i] == Tally(c, 1);
      OccurrencesAbsent(init, c);
    } else {
      assert Keys(r)[i] == r[i].category && Keys(p)[i] == p[i].category;
    }
  }

  /** A category no item has occurs zero times. */
  lemma {:induction false} OccurrencesAbsent(items: seq<Item>, c: string)
    requires c !in CategoriesOf(items)
    ensures Occurrences(items, c) == 0
  {
    if items != [] {
      var init := items[..|items| - 1];
      assert CategoriesOf(items) == CategoriesOf(init) + [items[|items| - 1].category];
      OccurrencesAbsent(init, c);
    }
  }
}
