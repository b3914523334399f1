/**
  The template builder: the form's length rules, the item list with its blank-text guard, the
  submit guard that builds the event, and the per-category preview.
 */
module CreateTemplate {
  import opened Wrappers
  import opened Data
  import Text
  import ChecklistOps
  import CategoryCounts

  datatype FormValues = FormValues(name: string, eventName: string, date: string, location: string, startTime: string)

  const NameTooShort: string := "Template name must be at least 3 characters."
  const EventNameRequired: string := "Event name is required."
  const DateRequired: string := "Event date is required."
  const LocationRequired: string := "Location is required."
  const StartTimeRequired: string := "Start time is required."

  /** `z.string().min(n)`: at least `n` UTF-16 code units. */
  predicate AtLeast(s: string, n: nat) {
    Text.Utf16Length(s) >= n
  }

  /**
    The schema: a name of 3 or more, and the four event fields of 2 or more. A valid form has
    no empty field, and its name is at least two characters even when they are surrogate pairs.
   */
  predicate FormValid(v: FormValues): (b: bool)
    ensures b ==> |v.name| >= 2 && v.eventName != "" && v.date != "" && v.location != "" && v.startTime != ""
  {
    && AtLeast(v.name, 3) && AtLeast(v.eventName, 2) && AtLeast(v.date, 2)
    && AtLeast(v.location, 2) && AtLeast(v.startTime, 2)
  }

  /** The schema's messages for the failing fields, in field order. */
  function FormErrors(v: FormValues): (r: seq<string>)
    ensures r == [] <==> FormValid(v)
    ensures |r| <= 5
    ensures NameTooShort in r <==> !AtLeast(v.name, 3)
    ensures EventNameRequired in r <==> !AtLeast(v.eventName, 2)
    ensures DateRequired in r <==> !AtLeast(v.date, 2)
    ensures LocationRequired in r <==> !AtLeast(v.location, 2)
    ensures StartTimeRequired in r <==> !AtLeast(v.startTime, 2)
  {
    (if AtLeast(v.name, 3) then [] else [NameTooShort])
    + (if AtLeast(v.eventName, 2) then [] else [EventNameRequired])
    + (if AtLeast(v.date, 2) then [] else [DateRequired])
    + (if AtLeast(v.location, 2) then [] else [LocationRequired])
    + (if AtLeast(v.startTime, 2) then [] else [StartTimeRequired])
  }

  /** The empty default values fail every rule; values long enough in characters pass them all. */
  lemma FormLengths(v: FormValues)
    ensures v == FormValues("", "", "", "", "") ==> |FormErrors(v)| == 5
    ensures |v.name| >= 3 && |v.eventName| >= 2 && |v.date| >= 2 && |v.location| >= 2 && |v.startTime| >= 2
      ==> FormValid(v)
  {
  }

  /** What submitting does: the form's errors, the no-items error, or the created template's event. */
  datatype SubmitOutcome = InvalidForm(errors: seq<string>) | NoItems | Created(event: EventInfo)

  /** `form.handleSubmit(onSubmit)`: validation first, then the item-count guard, then the event built field by field. */
  function Submit(items: seq<Item>, v: FormValues): (r: SubmitOutcome)
    ensures r.InvalidForm? <==> !FormValid(v)
    ensures r.InvalidForm? ==> r.errors == FormErrors(v) && r.errors != []
    ensures r.NoItems? <==> FormValid(v) && items == []
    ensures r.Created? ==> items != []
    ensures r.Created? ==> r.event == EventInfo(v.eventName, v.date, v.location, v.startTime)
  {
    if !FormValid(v) then InvalidForm(FormErrors(v))
    else if |items| == 0 then NoItems
    else Created(EventInfo(v.eventName, v.date, v.location, v.startTime))
  }

  /** `categories.find(c => c.id === id)?.name`. */
  function CategoryName(id: string): (r: Option<string>)
    ensures r.Some? <==> IsCategoryId(id)
    ensures r.Some? ==> exists k | 0 <= k < |Categories| :: Categories[k].id == id && Categories[k].name == r.value
  {
    NameIn(Categories, id)
  }

  function NameIn(cs: seq<Category>, id: string): (r: Option<string>)
    ensures r.Some? <==> exists k | 0 <= k < |cs| :: cs[k].id == id
    ensures r.Some? ==> exists k | 0 <= k < |cs| :: cs[k].id == id && cs[k].name == r.value
  {
    if cs == [] then None
    else if cs[0].id == id then Some(cs[0].name)
    else
      var r := NameIn(cs[1..], id);
      assert forall k | 1 <= k < |cs| :: cs[k] == cs[1..][k - 1];
      r
  }

  /** One preview line: the category's display name (absent for an unknown id) and its count. */
  datatype PreviewRow = PreviewRow(name: Option<string>, count: nat)

  /** The preview's "Items by Category" list. */
  function PreviewRows(items: seq<Item>): (r: seq<PreviewRow>)
    ensures var ts := CategoryCounts.CountByCategory(items);
      |r| == |ts| && forall i | 0 <= i < |r| :: r[i] == PreviewRow(CategoryName(ts[i].category), ts[i].count)
  {
    var ts := CategoryCounts.CountByCategory(items);
    seq(|ts|, i requires 0 <= i < |ts| => PreviewRow(CategoryName(ts[i].category), ts[i].count))
  }

  function RowTotal(rows: seq<PreviewRow>): nat {
    if rows == [] then 0 else rows[0].count + RowTotal(rows[1..])
  }

  /** Sums agree when the counts agree row by row. */
  lemma {:induction false} RowTotalIsTotal(rows: seq<PreviewRow>, ts: seq<CategoryCounts.Tally>)
    requires |rows| == |ts| && forall i | 0 <= i < |rows| :: rows[i].count == ts[i].count
    ensures RowTotal(rows) == CategoryCounts.Total(ts)
  {
    if rows != [] {
      RowTotalIsTotal(rows[1..], ts[1..]);
    }
  }

  /** The preview's counts sum to the number of items, and every line counts at least one. */
  lemma PreviewTotal(items: seq<Item>)
    ensures RowTotal(PreviewRows(items)) == |items|
    ensures forall i | 0 <= i < |PreviewRows(items)| :: PreviewRows(items)[i].count >= 1
  {
    CategoryCounts.CountByCategoryCounts(items);
    RowTotalIsTotal(PreviewRows(items), CategoryCounts.CountByCategory(items));
  }

  /** The builder's own state. */
  class Builder {
    var items: seq<Item>
    var newItemText: string
    var selectedCategory: string

    /** No items, an empty draft, the first category selected. */
    constructor ()
      ensures items == [] && newItemText == "" && selectedCategory == Categories[0].id
    {
      items := [];
      newItemText := "";
      selectedCategory := Categories[0].id;
    }

    /**
      `handleAddItem`: a blank draft is refused and nothing changes; otherwise one uncompleted
      item with the untrimmed draft and the selected category is appended, and the draft cleared.
      `newId` is the `Date.now().toString()` the source uses.
     */
    method AddItem(newId: string) returns (added: bool)
      modifies this
      ensures added <==> !Text.IsBlank(old(newItemText))
      ensures !added ==> items == old(items) && newItemText == old(newItemText)
      ensures added ==> items == old(items) + [ChecklistOps.NewItem(newId, old(newItemText), old(selectedCategory))]
      ensures added ==> newItemText == ""
      ensures selectedCategory == old(selectedCategory)
    {
      if !Text.TrimmedNonEmpty(newItemText) {
        return false;
      }
      items := items + [ChecklistOps.NewItem(newId, newItemText, selectedCategory)];
      newItemText := "";
      added := true;
    }

    /** `handleRemoveItem`: keeps the items with other ids, in order. */
    method RemoveItem(id: string)
      modifies this
      ensures items == ChecklistOps.Remove(old(items), id)
      ensures newItemText == old(newItemText) && selectedCategory == old(selectedCategory)
    {
      items := ChecklistOps.Remove(items, id);
    }
  }
}
