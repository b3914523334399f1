/**
  The template list page: templates are shown in date order, where a template's date is read
  from its free-text `event.date` (a leading month name and the first four-digit year), and
  each card tabulates the template's items per category.
 */
module TemplatesPage {
  import opened Wrappers
  import opened Data
  import Text
  import CategoryCounts

  const MonthNames: seq<string> := [
    "January", "February", "March", "April", "May", "June",
    "July", "August", "September", "October", "November", "December"]

  /** The year used when a date cannot be read: far in the future, so such templates sort last. */
  const UnknownYear: nat := 3000

  /** What `/^(\w+)/` captures: the longest run of word characters at the start (empty when there is no match). */
  function LeadingWord(s: string): (w: string)
    ensures |w| <= |s| && w == s[..|w|]
    ensures forall i | 0 <= i < |w| :: Text.IsWordChar(w[i])
    ensures |w| == |s| || !Text.IsWordChar(s[|w|])
  {
    if s == [] || !Text.IsWordChar(s[0]) then []
    else
      var rest := LeadingWord(s[1..]);
      assert s[1..][..|rest|] == s[1..|rest| + 1];
      [s[0]] + rest
  }

  /** `months[word] ?? 0`: the month's index when `w` is a full English month name, otherwise 0. */
  function MonthIndex(w: string): (m: nat)
    ensures m < 12
    ensures w in MonthNames ==> MonthNames[m] == w
    ensures w !in MonthNames ==> m == 0
  {
    IndexFrom(w, 0)
  }

  function IndexFrom(w: string, k: nat): (m: nat)
    requires k <= 12
    decreases 12 - k
    ensures m < 12
    ensures w in MonthNames[k..] ==> MonthNames[m] == w
    ensures w !in MonthNames[k..] ==> m == 0
  {
    if k == 12 then 0
    else if MonthNames[k] == w then k
    else
      assert MonthNames[k..] == [MonthNames[k]] + MonthNames[k + 1..];
      IndexFrom(w, k + 1)
  }

  /** Four digits start at position `i`. */
  predicate DigitRunAt(s: string, i: int) {
    0 <= i && i + 4 <= |s| && forall k | i <= k < i + 4 :: Text.IsDigit(s[k])
  }

  function DigitValue(c: char): nat
    requires Text.IsDigit(c)
  {
    c as int - '0' as int
  }

  /** `parseInt` of the four digits starting at `i`. */
  function YearAt(s: string, i: nat): (y: nat)
    requires DigitRunAt(s, i)
    ensures y <= 9999
  {
    1000 * DigitValue(s[i]) + 100 * DigitValue(s[i + 1]) + 10 * DigitValue(s[i + 2]) + DigitValue(s[i + 3])
  }

  /** Where `/(\d{4})/` matches, searching from position `i`: the first four-digit run. */
  function FirstRunFrom(s: string, i: nat): (r: Option<nat>)
    requires i <= |s|
    decreases |s| - i
    ensures r.Some? ==> i <= r.value && DigitRunAt(s, r.value) && forall j | i <= j < r.value :: !DigitRunAt(s, j)
    ensures r.None? ==> forall j | i <= j :: !DigitRunAt(s, j)
  {
    if i + 4 > |s| then None
    else if DigitRunAt(s, i) then Some(i)
    else FirstRunFrom(s, i + 1)
  }

  /** `getDateInfo`: `(month, year)` when the string starts with a word and contains four digits; `(0, 3000)` otherwise. */
  function DateInfo(s: string): (r: (nat, nat))
    ensures r.0 < 12
    ensures LeadingWord(s) == [] || FirstRunFrom(s, 0).None? ==> r == (0, UnknownYear)
  {
    var w := LeadingWord(s);
    var run := FirstRunFrom(s, 0);
    if |w| > 0 && run.Some? then (MonthIndex(w), YearAt(s, run.value)) else (0, UnknownYear)
  }

  /** The month is the leading word's index among the full month names, and the year is the first four-digit run. */
  lemma DateInfoReads(s: string)
    requires LeadingWord(s) != [] && FirstRunFrom(s, 0).Some?
    ensures var (m, y) := DateInfo(s);
      && (LeadingWord(s) in MonthNames ==> MonthNames[m] == LeadingWord(s))
      && (LeadingWord(s) !in MonthNames ==> m == 0)
      && exists i :: DigitRunAt(s, i) && (forall j | 0 <= j < i :: !DigitRunAt(s, j)) && y == YearAt(s, i)
  {
    var i := FirstRunFrom(s, 0).value;
    assert DigitRunAt(s, i) && (forall j | 0 <= j < i :: !DigitRunAt(s, j)) && DateInfo(s).1 == YearAt(s, i);
  }

  /** The sort comparator: years first, then months; negative puts `a` first. */
  function Compare(a: Template, b: Template): (r: int)
    ensures r == 0 <==> DateInfo(a.event.date) == DateInfo(b.event.date)
    ensures DateInfo(a.event.date).1 < DateInfo(b.event.date).1 ==> r < 0
  {
    var (ma, ya) := DateInfo(a.event.date);
    var (mb, yb) := DateInfo(b.event.date);
    if ya != yb then ya - yb else ma - mb
  }

  /** The date as one number, months counted from year 0. */
  function Key(t: Template): nat {
    var (m, y) := DateInfo(t.event.date);
    12 * y + m
  }

  /** The comparator agrees in sign with the key order; so it is zero exactly for equal (year, month), and antisymmetric. */
  lemma CompareByKey(a: Template, b: Template)
    ensures Compare(a, b) < 0 <==> Key(a) < Key(b)
    ensures Compare(a, b) == 0 <==> DateInfo(a.event.date) == DateInfo(b.event.date)
    ensures Compare(a, b) == -Compare(b, a)
  {
    var (ma, ya) := DateInfo(a.event.date);
    var (mb, yb) := DateInfo(b.event.date);
    assert Key(a) == 12 * ya + ma && Key(b) == 12 * yb + mb;
    assert Compare(a, b) == (if ya != yb then ya - yb else ma - mb);
    assert Compare(b, a) == (if yb != ya then yb - ya else mb - ma);
  }

  predicate SortedBy(ts: seq<Template>, key: Template -> nat) {
    forall i | 0 <= i < |ts| - 1 :: key(ts[i]) <= key(ts[i + 1])
  }

  /** Inserting into a key-ordered list, before the first template with an equal or larger key. */
  function Insert(t: Template, ts: seq<Template>, key: Template -> nat): (r: seq<Template>)
    requires SortedBy(ts, key)
    ensures SortedBy(r, key)
    ensures multiset(r) == multiset(ts) + multiset{t}
    ensures r != [] && (r[0] == t || (ts != [] && r[0] == ts[0]))
  {
    if ts == [] || key(t) <= key(ts[0]) then [t] + ts
    else
      var rest := Insert(t, ts[1..], key);
      assert ts == [ts[0]] + ts[1..];
      [ts[0]] + rest
  }

  /** A stable sort by key. */
  function SortBy(ts: seq<Template>, key: Template -> nat): (r: seq<Template>)
    ensures SortedBy(r, key)
    ensures multiset(r) == multiset(ts)
  {
    if ts == [] then [] else
      assert ts == [ts[0]] + ts[1..];
      Insert(ts[0], SortBy(ts[1..], key), key)
  }

  /** `[...templates].sort(compare)` on a copy: the same templates, each no later than the next. */
  function SortByDate(ts: seq<Template>): (r: seq<Template>)
    ensures multiset(r) == multiset(ts)
    ensures forall i | 0 <= i < |r| - 1 :: Compare(r[i], r[i + 1]) <= 0
  {
    var r := SortBy(ts, Key);
    assert forall i | 0 <= i < |r| - 1 :: Key(r[i]) <= Key(r[i + 1]);
    forall i | 0 <= i < |r| - 1 ensures Compare(r[i], r[i + 1]) <= 0 {
      CompareByKey(r[i], r[i + 1]);
    }
    r
  }

  /** The longest word-character prefix is `s[..n]` when `s[..n]` is all word characters and what follows is not. */
  lemma LeadingWordIs(s: string, n: nat)
    requires n <= |s| && (forall i | 0 <= i < n :: Text.IsWordChar(s[i]))
    requires n == |s| || !Text.IsWordChar(s[n])
    ensures LeadingWord(s) == s[..n]
  {
  }

  /** The first four-digit run is at `i` when there is one at `i` and none before. */
  lemma FirstRunIs(s: string, i: nat)
    requires DigitRunAt(s, i) && forall j | 0 <= j < i :: !DigitRunAt(s, j)
    ensures FirstRunFrom(s, 0) == Some(i)
  {
  }

  /** The reading of a date whose leading word is `s[..n]` and whose first four-digit run starts at `i`. */
  lemma DateInfoIs(s: string, n: nat, i: nat)
    requires 0 < n <= |s| && (forall k | 0 <= k < n :: Text.IsWordChar(s[k]))
    requires n == |s| || !Text.IsWordChar(s[n])
    requires DigitRunAt(s, i) && forall j | 0 <= j < i :: !DigitRunAt(s, j)
    ensures DateInfo(s) == (MonthIndex(s[..n]), YearAt(s, i))
  {
    LeadingWordIs(s, n);
    FirstRunIs(s, i);
  }

  /** "April" and "August" are the fourth and eighth month names. */
  lemma MonthsOfCatalog(w: string)
    ensures w == "April" ==> MonthIndex(w) == 3
    ensures w == "August" ==> MonthIndex(w) == 7
  {
    if w == "April" {
      assert w == MonthNames[3];
    } else if w == "August" {
      assert w == MonthNames[7];
    }
  }

  /** Where Coachella's date has its word, its first digit run, and no run before it. */
  lemma CoachellaLayout(a: string)
    requires a == "April 11-13 & 18-20, 2025"
    ensures forall k | 0 <= k < 5 :: Text.IsWordChar(a[k])
    ensures !Text.IsWordChar(a[5]) && a[..5] == "April"
    ensures forall j | 0 <= j < 21 :: !DigitRunAt(a, j)
    ensures DigitRunAt(a, 21) && YearAt(a, 21) == 2025
  {
    forall j | 0 <= j < 21 ensures !DigitRunAt(a, j) {
      var k := if j <= 1 then 1 else if j <= 5 then 5 else if j <= 8 then 8 else if j <= 11 then 11
        else if j <= 13 then j else if j <= 16 then 16 else if j <= 19 then 19 else 20;
      assert j <= k < j + 4 && !Text.IsDigit(a[k]);
    }
  }

  /** Where Outside Lands' date has its word, its first digit run, and no run before it. */
  lemma OutsideLandsLayout(b: string)
    requires b == "August 9-11, 2024"
    ensures forall k | 0 <= k < 6 :: Text.IsWordChar(b[k])
    ensures !Text.IsWordChar(b[6]) && b[..6] == "August"
    ensures forall j | 0 <= j < 13 :: !DigitRunAt(b, j)
    ensures DigitRunAt(b, 13) && YearAt(b, 13) == 2024
  {
    forall j | 0 <= j < 13 ensures !DigitRunAt(b, j) {
      var k := if j <= 2 then 2 else if j <= 6 then 6 else if j <= 8 then 8 else if j <= 11 then 11 else 12;
      assert j <= k < j + 4 && !Text.IsDigit(b[k]);
    }
  }

  /** Coachella's date reads as April 2025. */
  lemma CoachellaDate(a: string)
    requires a == SampleEvent.date
    ensures DateInfo(a) == (3, 2025)
  {
    CoachellaLayout(a);
    MonthsOfCatalog(a[..5]);
    DateInfoIs(a, 5, 21);
  }

  /** Outside Lands' date reads as August 2024. */
  lemma OutsideLandsDate(b: string)
    requires b == Templates[1].event.date
    ensures DateInfo(b) == (7, 2024)
  {
    OutsideLandsLayout(b);
    MonthsOfCatalog(b[..6]);
    DateInfoIs(b, 6, 13);
  }

  /** Two templates are listed earlier date first. */
  lemma SortTwo(t: Template, u: Template)
    requires Key(u) < Key(t)
    ensures SortByDate([t, u]) == [u, t]
  {
    assert [t, u][1..] == [u] && [u][1..] == [];
    assert SortBy([u], Key) == [u];
    assert Insert(t, [u], Key) == [u] + Insert(t, [], Key);
  }

  /** With the catalog as shipped, Outside Lands (August 2024) is listed before Coachella (April 2025). */
  lemma CatalogOrder(ts: seq<Template>)
    requires ts == Templates
    ensures SortByDate(ts) == [ts[1], ts[0]]
    ensures SortByDate(ts)[0].id == "outsidelands"
  {
    CatalogShape();
    CoachellaDate(ts[0].event.date);
    OutsideLandsDate(ts[1].event.date);
    assert ts == [ts[0], ts[1]];
    SortTwo(ts[0], ts[1]);
  }

  /** Each card's category table: one row per category present, counts summing to the item count. */
  lemma CatalogCategoryTables()
    ensures forall t | t in Templates ::
      && CategoryCounts.Total(CategoryCounts.CountByCategory(t.items)) == |t.items|
      && forall r | r in CategoryCounts.CountByCategory(t.items) :: r.count >= 1
  {
    forall t | t in Templates
      ensures CategoryCounts.Total(CategoryCounts.CountByCategory(t.items)) == |t.items|
      ensures forall r | r in CategoryCounts.CountByCategory(t.items) :: r.count >= 1
    {
      CategoryCounts.CountByCategoryCounts(t.items);
    }
  }
}
