/** The navigation bar: which of its two links is highlighted for the current route. */
module Header {
  import Text

  const Root: string := "/"
  const TemplatesPath: string := "/templates"

  /** `isActive(path)`: the route equals `path` or starts with it, which is the same as starting with it. */
  function IsActive(pathname: string, path: string): (b: bool)
    ensures b <==> Text.StartsWith(pathname, path)
  {
    pathname == path || Text.StartsWith(pathname, path)
  }

  /** The Dashboard link's condition. */
  function DashboardHighlighted(pathname: string): (b: bool)
    ensures b <==> Text.StartsWith(pathname, Root) && !Text.StartsWith(pathname, TemplatesPath)
  {
    IsActive(pathname, Root) && !IsActive(pathname, TemplatesPath)
  }

  /** The Templates link's condition. */
  function TemplatesHighlighted(pathname: string): (b: bool)
    ensures b <==> Text.StartsWith(pathname, TemplatesPath)
  {
    IsActive(pathname, TemplatesPath)
  }

  /** Every route beginning with `/` makes the root active. */
  lemma RootAlwaysActive(pathname: string)
    requires pathname != [] && pathname[0] == '/'
    ensures IsActive(pathname, Root)
  {
    assert pathname[..1] == Root;
  }

  /** On a route beginning with `/`, exactly one of the two links is highlighted. */
  lemma ExactlyOneHighlighted(pathname: string)
    requires pathname != [] && pathname[0] == '/'
    ensures DashboardHighlighted(pathname) != TemplatesHighlighted(pathname)
  {
    RootAlwaysActive(pathname);
  }

  /** The templates test is a bare prefix test, so unrelated routes such as `/templatesX` count too. */
  lemma TemplatesPrefixOnly()
    ensures TemplatesHighlighted("/templatesX") && !DashboardHighlighted("/templatesX")
    ensures TemplatesHighlighted("/templates/coachella")
    ensures DashboardHighlighted("/") && DashboardHighlighted("/checklist/coachella")
  {
    assert "/templatesX"[..|TemplatesPath|] == TemplatesPath;
    assert "/templates/coachella"[..|TemplatesPath|] == TemplatesPath;
    RootAlwaysActive("/checklist/coachella");
    assert "/checklist/coachella"[1] != TemplatesPath[1];
  }
}
