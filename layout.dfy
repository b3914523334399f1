/**
  The page layout: which template the current route names, the route a sidebar selection
  navigates to, and the sidebar's open flag, persisted in the key-value store.
 */
module Layout {
  import opened Wrappers
  import Text

  const ChecklistPrefix: string := "/checklist/"
  const TemplatesPrefix: string := "/templates/"

  /** No character of `s` is a line terminator, so the regular-expression `.` matches each of them. */
  predicate NoLineBreak(s: string) {
    forall i | 0 <= i < |s| :: !Text.IsLineTerminator(s[i])
  }

  /** `path.match(/^<prefix>(.+)$/)`: the captured remainder after `prefix`, when there is one. */
  function MatchRest(path: string, prefix: string): (r: Option<string>)
    ensures r.Some? <==> exists rest :: path == prefix + rest && rest != [] && NoLineBreak(rest)
    ensures r.Some? ==> path == prefix + r.value && r.value != [] && NoLineBreak(r.value)
  {
    if Text.StartsWith(path, prefix) && |path| > |prefix| && NoLineBreak(path[|prefix|..]) then
      assert path == prefix + path[|prefix|..];
      Some(path[|prefix|..])
    else
      assert forall rest | path == prefix + rest :: rest == path[|prefix|..];
      None
  }

  /** `getCurrentTemplateId`: the id in a `/checklist/<id>` route, else in a `/templates/<id>` route, else none. */
  function CurrentTemplateId(path: string): (r: Option<string>)
    ensures r.Some? ==> r.value != [] && NoLineBreak(r.value)
    ensures r.Some? ==> path == ChecklistPrefix + r.value || path == TemplatesPrefix + r.value
  {
    match MatchRest(path, ChecklistPrefix)
    case Some(id) => Some(id)
    case None => MatchRest(path, TemplatesPrefix)
  }

  /** `handleSelectTemplate`: the route the sidebar navigates to. */
  function SelectTemplatePath(id: string): (p: string)
    ensures Text.StartsWith(p, ChecklistPrefix) && p[|ChecklistPrefix|..] == id
  {
    ChecklistPrefix + id
  }

  /** A route names template `id` exactly when it is either prefix followed by `id`, a non-empty id without line breaks. */
  lemma CurrentTemplateIdIff(path: string, id: string)
    ensures CurrentTemplateId(path) == Some(id) <==>
      (path == ChecklistPrefix + id || path == TemplatesPrefix + id) && id != [] && NoLineBreak(id)
  {
    if path == TemplatesPrefix + id && id != [] && NoLineBreak(id) {
      assert path[1] == 't';
      assert !Text.StartsWith(path, ChecklistPrefix) by {
        assert ChecklistPrefix[1] == 'c';
      }
    }
  }

  /** Either prefix alone, with nothing after it, names no template. */
  lemma BarePrefixesNameNothing()
    ensures CurrentTemplateId(ChecklistPrefix).None?
    ensures CurrentTemplateId(TemplatesPrefix).None?
    ensures CurrentTemplateId("/").None?
  {
    CurrentTemplateIdIff(ChecklistPrefix, ChecklistPrefix[|ChecklistPrefix|..]);
  }

  /** The route a selection navigates to reads back as the selected id when it is non-empty and has no line break. */
  lemma SelectThenRead(id: string)
    requires id != [] && NoLineBreak(id)
    ensures CurrentTemplateId(SelectTemplatePath(id)) == Some(id)
  {
    CurrentTemplateIdIff(SelectTemplatePath(id), id);
  }

  type Store = map<string, bool>

  const SidebarKey: string := "sidebarOpen"

  /** The sidebar's open flag and the store it is saved to. */
  class Sidebar {
    var sidebarOpen: bool
    var store: Store

    /** The store holds the current flag. */
    ghost predicate Synced()
      reads this
    {
      SidebarKey in store && store[SidebarKey] == sidebarOpen
    }

    /** Mounting: the stored flag, closed when nothing is stored; the save effect then writes it back. */
    constructor (saved: Store)
      ensures sidebarOpen == (SidebarKey in saved && saved[SidebarKey])
      ensures store == saved[SidebarKey := sidebarOpen]
      ensures Synced()
    {
      sidebarOpen := SidebarKey in saved && saved[SidebarKey];
      store := saved[SidebarKey := SidebarKey in saved && saved[SidebarKey]];
    }

    /** `onToggle`: flips the flag; the save effect writes the new value. */
    method Toggle()
      modifies this
      ensures sidebarOpen == !old(sidebarOpen)
      ensures store == old(store)[SidebarKey := sidebarOpen]
      ensures Synced()
    {
      sidebarOpen := !sidebarOpen;
      store := store[SidebarKey := sidebarOpen];
    }
  }
}
