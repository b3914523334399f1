/** `showUpdateToast`: the one toast shown after an update, worded by whether anything changed. */
module UpdateToast {
  import opened Wrappers

  const DefaultDuration: real := 2000.0
  const NoChangesTitle: string := "No changes made"
  const NoChangesDescription: string := "Item remains unchanged"

  /** The options argument; None is an absent optional field. */
  datatype ToastOptions = ToastOptions(
    changedTitle: string,
    changedDescription: string,
    unchangedTitle: Option<string>,
    unchangedDescription: Option<string>,
    duration: Option<real>)

  /** The argument passed to `toast`; `variant` is None when the field is not set. */
  datatype Toast = Toast(title: string, description: string, duration: real, variant: Option<string>)

  /** `s || fallback` for an optional string: absent and empty are both falsy. */
  function OrElse(s: Option<string>, fallback: string): (r: string)
    ensures s.Some? && s.value != "" ==> r == s.value
    ensures s.None? || s.value == "" ==> r == fallback
  {
    if s.Some? && s.value != "" then s.value else fallback
  }

  /** `options.duration || 2000`: absent and zero are both falsy. */
  function DurationOf(d: Option<real>): (r: real)
    ensures r != 0.0
    ensures d.Some? && d.value != 0.0 ==> r == d.value
    ensures d.None? || d.value == 0.0 ==> r == DefaultDuration
  {
    if d.Some? && d.value != 0.0 then d.value else DefaultDuration
  }

  /** The toast for a call: the changed wording when there were changes, the unchanged wording with its defaults otherwise. */
  function ShowUpdateToast(hasChanges: bool, options: ToastOptions): (t: Toast)
    ensures t.variant.None?
    ensures t.duration == DurationOf(options.duration) && t.duration != 0.0
    ensures hasChanges ==> t.title == options.changedTitle && t.description == options.changedDescription
    ensures !hasChanges ==> t.title == OrElse(options.unchangedTitle, NoChangesTitle)
    ensures !hasChanges ==> t.description == OrElse(options.unchangedDescription, NoChangesDescription)
  {
    if hasChanges then
      Toast(options.changedTitle, options.changedDescription, DurationOf(options.duration), None)
    else
      Toast(OrElse(options.unchangedTitle, NoChangesTitle), OrElse(options.unchangedDescription, NoChangesDescription),
        DurationOf(options.duration), None)
  }

  /** Without changes and without the optional fields, the toast carries the default wording and duration. */
  lemma UnchangedDefaults(changedTitle: string, changedDescription: string)
    ensures ShowUpdateToast(false, ToastOptions(changedTitle, changedDescription, None, None, None))
      == Toast(NoChangesTitle, NoChangesDescription, DefaultDuration, None)
  {
  }

  /** An unchanged title never comes out empty: the wording is either the caller's non-empty text or the default. */
  lemma UnchangedWordingNonEmpty(options: ToastOptions)
    ensures ShowUpdateToast(false, options).title != ""
    ensures ShowUpdateToast(false, options).description != ""
  {
  }
}
