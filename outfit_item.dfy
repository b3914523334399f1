/**
  An outfit entry: its completion shown from its sub-items, and the edit dialog and add-sub-item
  form with their blank-text guards. Callbacks the parent passes in are reported as the call
  that would be made; whether a callback was passed is a parameter.
 */
module OutfitItem {
  import opened Wrappers
  import opened Data
  import Text

  /** `item.outfitItems || []`. */
  function SubItemsOf(item: Item): (r: seq<OutfitSubItem>)
    ensures item.outfitItems.None? ==> r == []
    ensures item.outfitItems.Some? ==> r == item.outfitItems.value
  {
    item.outfitItems.GetOr([])
  }

  /** `outfitItems.filter(si => si.isCompleted).length`. */
  function CompletedSubItems(subs: seq<OutfitSubItem>): (n: nat)
    ensures n <= |subs|
    ensures n == |subs| <==> forall i | 0 <= i < |subs| :: subs[i].isCompleted
  {
    if subs == [] then 0
    else
      var n := (if subs[0].isCompleted then 1 else 0) + CompletedSubItems(subs[1..]);
      assert forall i | 1 <= i < |subs| :: subs[i] == subs[1..][i - 1];
      n
  }

  /** `allSubItemsCompleted`: with sub-items, whether all are done (the item's own flag ignored); without, the item's own flag. */
  function ShownCompleted(item: Item): (b: bool)
    ensures |SubItemsOf(item)| > 0 ==> (b <==> forall i | 0 <= i < |SubItemsOf(item)| :: SubItemsOf(item)[i].isCompleted)
    ensures SubItemsOf(item) == [] ==> b == item.isCompleted
  {
    var subs := SubItemsOf(item);
    if |subs| > 0 then CompletedSubItems(subs) == |subs| else item.isCompleted
  }

  /** With sub-items present, the item's own flag has no effect on what is shown. */
  lemma OwnFlagIgnored(item: Item, flag: bool)
    requires |SubItemsOf(item)| > 0
    ensures ShownCompleted(item.(isCompleted := flag)) == ShownCompleted(item)
  {
    assert SubItemsOf(item.(isCompleted := flag)) == SubItemsOf(item);
  }

  /** The component's own state. */
  class OutfitItemState {
    var isEditDialogOpen: bool
    var editedText: string
    var editedCategory: string
    var isAddingSubItem: bool
    var newSubItemText: string
    var newSubItemType: SubItemType

    /** First render for `item`: closed dialog, the item's text and category as draft, empty sub-item form of type `top`. */
    constructor (item: Item)
      ensures !isEditDialogOpen && editedText == item.text && editedCategory == item.category
      ensures !isAddingSubItem && newSubItemText == "" && newSubItemType == Top
    {
      isEditDialogOpen := false;
      editedText := item.text;
      editedCategory := item.category;
      isAddingSubItem := false;
      newSubItemText := "";
      newSubItemType := Top;
    }

    /** `handleEditClick`: the draft is reset to the item's current text and category and the dialog opens. */
    method EditClick(item: Item)
      modifies this
      ensures editedText == item.text && editedCategory == item.category && isEditDialogOpen
      ensures isAddingSubItem == old(isAddingSubItem) && newSubItemText == old(newSubItemText)
      ensures newSubItemType == old(newSubItemType)
    {
      editedText := item.text;
      editedCategory := item.category;
      isEditDialogOpen := true;
    }

    /**
      `handleSaveEdit`: `onEdit(item.id, editedText, editedCategory)` is called (returned as `call`)
      when there is an `onEdit` and the draft is not blank; the dialog closes either way.
     */
    method SaveEdit(item: Item, hasOnEdit: bool) returns (call: Option<(string, string, string)>)
      modifies this
      ensures call.Some? <==> hasOnEdit && !Text.IsBlank(old(editedText))
      ensures call.Some? ==> call.value == (item.id, old(editedText), old(editedCategory))
      ensures !isEditDialogOpen
      ensures editedText == old(editedText) && editedCategory == old(editedCategory)
      ensures isAddingSubItem == old(isAddingSubItem) && newSubItemText == old(newSubItemText)
      ensures newSubItemType == old(newSubItemType)
    {
      if hasOnEdit && Text.TrimmedNonEmpty(editedText) {
        call := Some((item.id, editedText, editedCategory));
      } else {
        call := None;
      }
      isEditDialogOpen := false;
    }

    /**
      `handleAddSubItem`: with a callback and a non-blank draft, the callback is called with the
      untrimmed draft and its type, the draft is cleared and the form closes; otherwise nothing changes.
     */
    method AddSubItem(item: Item, hasCallback: bool) returns (call: Option<(string, SubItemType, string)>)
      modifies this
      ensures call.Some? <==> hasCallback && !Text.IsBlank(old(newSubItemText))
      ensures call.Some? ==> call.value == (item.id, old(newSubItemType), old(newSubItemText))
      ensures call.Some? ==> newSubItemText == "" && !isAddingSubItem
      ensures call.None? ==> newSubItemText == old(newSubItemText) && isAddingSubItem == old(isAddingSubItem)
      ensures newSubItemType == old(newSubItemType) && isEditDialogOpen == old(isEditDialogOpen)
      ensures editedText == old(editedText) && editedCategory == old(editedCategory)
    {
      if hasCallback && Text.TrimmedNonEmpty(newSubItemText) {
        call := Some((item.id, newSubItemType, newSubItemText));
        newSubItemText := "";
        isAddingSubItem := false;
      } else {
        call := None;
      }
    }
  }
}
