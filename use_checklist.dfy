/**
  The main checklist hook. Its one state cell, the item list, is replaced by every handler;
  an effect writes the list to the key-value store under `mainChecklist` whenever it changes
  and is non-empty, and reset writes the sample checklist directly. The store is a map from
  keys to the lists stored there (the JSON text of a list is never empty, so a present key
  always reads as a saved list).
 */
module UseChecklist {
  import opened Data
  import opened ChecklistOps

  type Store = map<string, seq<Item>>

  const StorageKey: string := "mainChecklist"

  /** The list the mount effect loads: the saved one when there is one, otherwise the sample checklist. */
  function InitialChecklist(store: Store): (r: seq<Item>)
    ensures StorageKey in store ==> r == store[StorageKey]
    ensures StorageKey !in store ==> r == SampleChecklist
  {
    if StorageKey in store then store[StorageKey] else SampleChecklist
  }

  /** The save effect: the list is written only when it is non-empty. */
  function Saved(store: Store, list: seq<Item>): (r: Store)
    ensures list == [] ==> r == store
    ensures list != [] ==> r == store[StorageKey := list]
  {
    if |list| > 0 then store[StorageKey := list] else store
  }

  class ChecklistHook {
    var checklist: seq<Item>
    var store: Store

    /** The store holds the current list whenever that list is non-empty. */
    ghost predicate Synced()
      reads this
    {
      checklist != [] ==> StorageKey in store && store[StorageKey] == checklist
    }

    /** Mounting: the load effect, then the save effect on the loaded list. */
    constructor (saved: Store)
      ensures checklist == InitialChecklist(saved)
      ensures store == Saved(saved, checklist)
      ensures Synced()
    {
      checklist := InitialChecklist(saved);
      store := Saved(saved, InitialChecklist(saved));
    }

    /** `handleToggleItem`: flips `isCompleted` of the items with that id, then saves. */
    method HandleToggleItem(id: string)
      modifies this
      ensures checklist == Toggle(old(checklist), id)
      ensures store == Saved(old(store), checklist)
      ensures Synced()
    {
      checklist := Toggle(checklist, id);
      store := Saved(store, checklist);
    }

    /** `handleAddItem`: appends one uncompleted item; `newId` is the `Date.now().toString()` the source uses. */
    method HandleAddItem(newId: string, text: string, category: string)
      modifies this
      ensures checklist == old(checklist) + [NewItem(newId, text, category)]
      ensures store == old(store)[StorageKey := checklist]
      ensures Synced()
    {
      checklist := checklist + [NewItem(newId, text, category)];
      store := Saved(store, checklist);
    }

    /** `handleRemoveItem`: keeps the items with other ids; an emptied list is not saved. */
    method HandleRemoveItem(id: string)
      modifies this
      ensures checklist == Remove(old(checklist), id)
      ensures store == Saved(old(store), checklist)
      ensures Synced()
      ensures checklist == [] ==> store == old(store)
    {
      checklist := Remove(checklist, id);
      store := Saved(store, checklist);
    }

    /** `handleChangeCategory`: rewrites the category of the items with that id. */
    method HandleChangeCategory(id: string, newCategory: string)
      modifies this
      ensures checklist == ChangeCategory(old(checklist), id, newCategory)
      ensures store == Saved(old(store), checklist)
      ensures Synced()
    {
      checklist := ChangeCategory(checklist, id, newCategory);
      store := Saved(store, checklist);
    }

    /** `handleResetTemplate`: the sample checklist, written to the store at once. */
    method HandleResetTemplate()
      modifies this
      ensures checklist == SampleChecklist
      ensures store == old(store)[StorageKey := SampleChecklist]
      ensures Synced()
    {
      checklist := SampleChecklist;
      store := store[StorageKey := SampleChecklist];
      store := Saved(store, checklist);
    }
  }
}
