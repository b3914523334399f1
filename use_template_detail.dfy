/**
  The template detail hook: the catalog template named by the route, and a working copy of its
  items kept in the key-value store under `template_<id>`. Handlers replace the list; the save
  effect writes it only when the template exists and the list is non-empty.
 */
module UseTemplateDetail {
  import opened Wrappers
  import opened Data
  import opened ChecklistOps
  import UseChecklist

  type Store = map<string, seq<Item>>

  /** `template_${template.id}`. */
  function StorageKey(t: Template): string {
    "template_" + t.id
  }

  /** Different templates save under different keys, none of them the main checklist's key. */
  lemma StorageKeysSeparate(t: Template, u: Template)
    ensures StorageKey(t) == StorageKey(u) <==> t.id == u.id
    ensures StorageKey(t) != UseChecklist.StorageKey
  {
    var p := "template_";
    if StorageKey(t) == StorageKey(u) {
      assert t.id == StorageKey(t)[|p|..] && u.id == StorageKey(u)[|p|..];
    }
    assert StorageKey(t)[0] == 't';
  }

  /** `templates.find(t => t.id === templateId)`; an undefined id matches nothing. */
  function LookupTemplate(templateId: Option<string>): (r: Option<Template>)
    ensures templateId.None? ==> r.None?
    ensures r.Some? ==> r.value in Templates && templateId == Some(r.value.id)
    ensures templateId.Some? && r.None? ==> forall i | 0 <= i < |Templates| :: Templates[i].id != templateId.value
  {
    if templateId.None? then None else FindCatalogTemplate(templateId.value)
  }

  /** The mount effect: nothing without a template; else the saved copy, or the template's items. */
  function InitialChecklist(template: Option<Template>, store: Store): (r: seq<Item>)
    ensures template.None? ==> r == []
    ensures template.Some? && StorageKey(template.value) in store ==> r == store[StorageKey(template.value)]
    ensures template.Some? && StorageKey(template.value) !in store ==> r == template.value.items
  {
    match template
    case None => []
    case Some(t) => if StorageKey(t) in store then store[StorageKey(t)] else t.items
  }

  /** The save effect: written under the template's key only when the template exists and the list is non-empty. */
  function Saved(template: Option<Template>, store: Store, list: seq<Item>): (r: Store)
    ensures template.None? || list == [] ==> r == store
    ensures template.Some? && list != [] ==> r == store[StorageKey(template.value) := list]
  {
    if template.Some? && |list| > 0 then store[StorageKey(template.value) := list] else store
  }

  class TemplateDetailHook {
    const template: Option<Template>
    var checklist: seq<Item>
    var store: Store

    /** The store holds the current list under the template's key whenever there is a template and a non-empty list. */
    ghost predicate Synced()
      reads this
    {
      template.Some? && checklist != [] ==>
        StorageKey(template.value) in store && store[StorageKey(template.value)] == checklist
    }

    /** Mounting with the route's id: lookup, load effect, save effect. An unknown id touches nothing. */
    constructor (templateId: Option<string>, saved: Store)
      ensures template == LookupTemplate(templateId)
      ensures checklist == InitialChecklist(template, saved)
      ensures store == Saved(template, saved, checklist)
      ensures template.None? ==> checklist == [] && store == saved
      ensures Synced()
    {
      template := LookupTemplate(templateId);
      var t := LookupTemplate(templateId);
      checklist := InitialChecklist(t, saved);
      store := Saved(t, saved, InitialChecklist(t, saved));
    }

    /** `handleToggleItem`. */
    method HandleToggleItem(id: string)
      modifies this
      ensures checklist == Toggle(old(checklist), id)
      ensures store == Saved(template, old(store), checklist)
      ensures Synced()
    {
      checklist := Toggle(checklist, id);
      store := Saved(template, store, checklist);
    }

    /** `handleAddItem`; `newId` is the `Date.now().toString()` the source uses. */
    method HandleAddItem(newId: string, text: string, category: string)
      modifies this
      ensures checklist == old(checklist) + [NewItem(newId, text, category)]
      ensures store == Saved(template, old(store), checklist)
      ensures Synced()
    {
      checklist := checklist + [NewItem(newId, text, category)];
      store := Saved(template, store, checklist);
    }

    /** `handleRemoveItem`. */
    method HandleRemoveItem(id: string)
      modifies this
      ensures checklist == Remove(old(checklist), id)
      ensures store == Saved(template, old(store), checklist)
      ensures checklist == [] ==> store == old(store)
      ensures Synced()
    {
      checklist := Remove(checklist, id);
      store := Saved(template, store, checklist);
    }

    /** `handleEditItem`: new text and category for the items with that id; id and completion kept. */
    method HandleEditItem(id: string, text: string, category: string)
      modifies this
      ensures checklist == Edit(old(checklist), id, text, category)
      ensures store == Saved(template, old(store), checklist)
      ensures Synced()
    {
      checklist := Edit(checklist, id, text, category);
      store := Saved(template, store, checklist);
    }

    /** `handleResetTemplate`: the template's items, written under its key; nothing without a template. */
    method HandleResetTemplate()
      modifies this
      ensures template.None? ==> checklist == old(checklist) && store == old(store)
      ensures template.Some? ==> checklist == template.value.items
      ensures template.Some? ==> store == old(store)[StorageKey(template.value) := template.value.items]
      ensures Synced()
    {
      if template.Some? {
        var t := template.value;
        checklist := t.items;
        store := store[StorageKey(t) := t.items];
        store := Saved(template, store, checklist);
      }
    }
  }

  /**
    `progressPercentage` without a guard for the empty list: `0 / 0` is `NaN` there (None);
    otherwise the rounded completed share.
   */
  function ProgressPercentage(items: seq<Item>): (p: Option<nat>)
    ensures p.None? <==> items == []
    ensures p.Some? ==> p.value <= 100
    ensures p.Some? && (forall i | 0 <= i < |items| :: items[i].isCompleted) ==> p.value == 100
    ensures p.Some? && (forall i | 0 <= i < |items| :: !items[i].isCompleted) ==> p.value == 0
  {
    if |items| == 0 then None else Some(RoundedPercent(CompletedCount(items), |items|))
  }
}
