/**
  The event card's edit/commit cycle: viewing or editing, a draft copy of the event while
  editing, and commit of the draft as the event. `event` is the parent's state, updated
  through the `setEvent` it passes in.
 */
module EventInfoCard {
  import opened Data

  /** The keys of `EventInfo` an input edits. */
  datatype Field = Name | Date | Location | StartTime

  function FieldOf(e: EventInfo, f: Field): string {
    match f
    case Name => e.name
    case Date => e.date
    case Location => e.location
    case StartTime => e.startTime
  }

  /** `{ ...e, [f]: v }`. */
  function WithField(e: EventInfo, f: Field, v: string): (r: EventInfo)
    ensures FieldOf(r, f) == v
    ensures forall g | g != f :: FieldOf(r, g) == FieldOf(e, g)
  {
    match f
    case Name => e.(name := v)
    case Date => e.(date := v)
    case Location => e.(location := v)
    case StartTime => e.(startTime := v)
  }

  /** Two events agreeing on every field are the same event. */
  lemma FieldsDetermineEvent(a: EventInfo, b: EventInfo)
    requires forall f :: FieldOf(a, f) == FieldOf(b, f)
    ensures a == b
  {
    assert FieldOf(a, Name) == FieldOf(b, Name) && FieldOf(a, Date) == FieldOf(b, Date);
    assert FieldOf(a, Location) == FieldOf(b, Location) && FieldOf(a, StartTime) == FieldOf(b, StartTime);
  }

  /** Setting a field to the value it already has changes nothing. */
  lemma WithSameField(e: EventInfo, f: Field)
    ensures WithField(e, f, FieldOf(e, f)) == e
  {
    FieldsDetermineEvent(WithField(e, f, FieldOf(e, f)), e);
  }

  class Card {
    var event: EventInfo
    var isEditing: bool
    var edited: EventInfo

    /** While viewing, the draft is the event itself. */
    ghost predicate Consistent()
      reads this
    {
      !isEditing ==> edited == event
    }

    /** First render: viewing, with the event as the draft. */
    constructor (event: EventInfo)
      ensures this.event == event && !isEditing && edited == event
      ensures Consistent()
    {
      this.event := event;
      isEditing := false;
      edited := event;
    }

    /** `saveEventChanges`: the draft becomes the event and editing ends. */
    method SaveEventChanges()
      modifies this
      ensures event == old(edited) && edited == old(edited) && !isEditing
      ensures Consistent()
    {
      event := edited;
      isEditing := false;
    }

    /** `toggleEditEvent`: from editing, commit and leave editing; from viewing, copy the event into the draft and start editing. */
    method ToggleEditEvent()
      modifies this
      ensures old(isEditing) ==> event == old(edited) && edited == old(edited) && !isEditing
      ensures !old(isEditing) ==> event == old(event) && edited == old(event) && isEditing
      ensures Consistent()
    {
      var wasEditing := isEditing;
      if wasEditing {
        SaveEventChanges();
      } else {
        edited := event;
      }
      isEditing := !wasEditing;
    }

    /** `handleEventChange`: only the named field of the draft changes; the event waits for a commit. */
    method HandleEventChange(f: Field, value: string)
      modifies this
      ensures edited == WithField(old(edited), f, value)
      ensures event == old(event) && isEditing == old(isEditing)
    {
      edited := WithField(edited, f, value);
    }

    /** `handleKeyDown`: Enter commits the draft; other keys do nothing. */
    method KeyDown(key: string)
      modifies this
      ensures key == "Enter" ==> event == old(edited) && !isEditing
      ensures key != "Enter" ==> event == old(event) && isEditing == old(isEditing)
      ensures edited == old(edited)
      ensures old(Consistent()) || key == "Enter" ==> Consistent()
    {
      if key == "Enter" {
        SaveEventChanges();
      }
    }
  }
}
