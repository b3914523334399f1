/**
  The checklist card: the category filter over the items shown, the add form with its
  blank-text guard, and the completed counter.
 */
module ChecklistCard {
  import opened Wrappers
  import opened Data
  import Text
  import CategoryCounts

  /** `items.filter(item => item.category === c)`. */
  function InCategory(items: seq<Item>, c: string): (r: seq<Item>)
    ensures |r| <= |items|
    ensures forall x :: x in r <==> x in items && x.category == c
  {
    if items == [] then []
    else if items[0].category == c then [items[0]] + InCategory(items[1..], c)
    else InCategory(items[1..], c)
  }

  /** Filtering distributes over concatenation: the kept items stay in their original order. */
  lemma {:induction false} InCategoryConcat(a: seq<Item>, b: seq<Item>, c: string)
    ensures InCategory(a + b, c) == InCategory(a, c) + InCategory(b, c)
  {
    if a == [] {
      assert a + b == b;
    } else {
      assert (a + b)[1..] == a[1..] + b;
      InCategoryConcat(a[1..], b, c);
    }
  }

  /** The filtered list has one entry per item of that category, the count the category tables show. */
  lemma {:induction false} InCategoryCount(items: seq<Item>, c: string)
    ensures |InCategory(items, c)| == CategoryCounts.Occurrences(items, c)
  {
    if items != [] {
      var init := items[..|items| - 1];
      var last := items[|items| - 1];
      assert items == init + [last];
      InCategoryConcat(init, [last], c);
      InCategoryCount(init, c);
      assert InCategory([last], c) == if last.category == c then [last] else [];
    }
  }

  /** `filteredItems`: every item when the filter is null or the empty string (falsy); else the items of that category. */
  function FilteredItems(items: seq<Item>, activeFilter: Option<string>): (r: seq<Item>)
    ensures activeFilter.None? || activeFilter.value == "" ==> r == items
    ensures activeFilter.Some? && activeFilter.value != "" ==> r == InCategory(items, activeFilter.value)
  {
    if activeFilter.Some? && activeFilter.value != "" then InCategory(items, activeFilter.value) else items
  }

  /** A filtered list shows exactly the items of the filter's category, no more than all of them. */
  lemma FilteredShowsCategory(items: seq<Item>, c: string)
    requires c != ""
    ensures forall x :: x in FilteredItems(items, Some(c)) <==> x in items && x.category == c
    ensures |FilteredItems(items, Some(c))| == CategoryCounts.Occurrences(items, c) <= |items|
  {
    InCategoryCount(items, c);
  }

  /** The card's own state: the draft text, the category picker and the active filter. */
  class CardState {
    var newItemText: string
    var selectedCategory: string
    var activeFilter: Option<string>

    /** An empty draft, the first category selected, no filter. */
    constructor ()
      ensures newItemText == "" && selectedCategory == Categories[0].id && activeFilter.None?
      ensures selectedCategory == "documents"
    {
      newItemText := "";
      selectedCategory := Categories[0].id;
      activeFilter := None;
    }

    /**
      `handleAddItem`: for a draft that is not blank after trimming, `onAddItem` is called with
      the untrimmed draft and the selected category (returned as `call`) and the draft is cleared;
      a blank draft is left as it is and nothing is called.
     */
    method AddItem() returns (call: Option<(string, string)>)
      modifies this
      ensures Text.IsBlank(old(newItemText)) ==> call.None? && newItemText == old(newItemText)
      ensures !Text.IsBlank(old(newItemText)) ==>
        call == Some((old(newItemText), old(selectedCategory))) && newItemText == ""
      ensures selectedCategory == old(selectedCategory) && activeFilter == old(activeFilter)
    {
      if Text.TrimmedNonEmpty(newItemText) {
        call := Some((newItemText, selectedCategory));
        newItemText := "";
      } else {
        call := None;
      }
    }

    /** `handleKeyDown`: Enter does what the Add button does; any other key does nothing. */
    method KeyDown(key: string) returns (call: Option<(string, string)>)
      modifies this
      ensures key != "Enter" ==> call.None? && newItemText == old(newItemText)
      ensures key == "Enter" && Text.IsBlank(old(newItemText)) ==> call.None? && newItemText == old(newItemText)
      ensures key == "Enter" && !Text.IsBlank(old(newItemText)) ==>
        call == Some((old(newItemText), old(selectedCategory))) && newItemText == ""
      ensures selectedCategory == old(selectedCategory) && activeFilter == old(activeFilter)
    {
      if key == "Enter" {
        call := AddItem();
      } else {
        call := None;
      }
    }
  }
}
