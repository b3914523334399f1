/**
  The recently viewed templates: a most-recent-first list of at most ten entries, one per
  template id, kept in the key-value store under `templateViewHistory`, and the template the
  user viewed last.
 */
module UseTemplateHistory {
  import opened Wrappers
  import opened Data

  /** `TemplateHistoryItem`; `timestamp` is the `Date.now()` of the visit. */
  datatype HistoryEntry = HistoryEntry(id: string, name: string, timestamp: int)

  type Store = map<string, seq<HistoryEntry>>

  const StorageKey: string := "templateViewHistory"
  const MaxEntries: nat := 10

  predicate UniqueIds(h: seq<HistoryEntry>) {
    forall i, j | 0 <= i < j < |h| :: h[i].id != h[j].id
  }

  /** `h.filter(item => item.id !== id)`. */
  function WithoutId(h: seq<HistoryEntry>, id: string): (r: seq<HistoryEntry>)
    ensures |r| <= |h|
    ensures forall x :: x in r <==> x in h && x.id != id
  {
    if h == [] then []
    else if h[0].id == id then WithoutId(h[1..], id)
    else [h[0]] + WithoutId(h[1..], id)
  }

  /** The number of entries carrying `id`. */
  function CountOf(h: seq<HistoryEntry>, id: string): (n: nat)
    ensures n <= |h|
  {
    if h == [] then 0 else (if h[0].id == id then 1 else 0) + CountOf(h[1..], id)
  }

  /**
    Filtering keeps the relative order: it distributes over concatenation, so the kept entries
    of a prefix come before the kept entries of the rest.
   */
  lemma {:induction false} WithoutConcat(a: seq<HistoryEntry>, b: seq<HistoryEntry>, id: string)
    ensures WithoutId(a + b, id) == WithoutId(a, id) + WithoutId(b, id)
  {
    if a == [] {
      assert a + b == b;
    } else {
      assert (a + b)[0] == a[0] && (a + b)[1..] == a[1..] + b;
      WithoutConcat(a[1..], b, id);
    }
  }

  /** Exactly the entries with the id go: the length drops by their number. */
  lemma {:induction false} WithoutCount(h: seq<HistoryEntry>, id: string)
    ensures |WithoutId(h, id)| == |h| - CountOf(h, id)
  {
    if h != [] {
      WithoutCount(h[1..], id);
    }
  }

  /** Filtering out an id that does not occur leaves the list as it is. */
  lemma {:induction false} WithoutAbsent(h: seq<HistoryEntry>, id: string)
    requires forall i | 0 <= i < |h| :: h[i].id != id
    ensures WithoutId(h, id) == h
  {
    if h != [] {
      WithoutAbsent(h[1..], id);
      assert h == [h[0]] + h[1..];
    }
  }

  /** In a list with distinct ids, filtering out an id that occurs removes exactly one entry. */
  lemma {:induction false} WithoutPresent(h: seq<HistoryEntry>, k: nat)
    requires UniqueIds(h) && k < |h|
    ensures |WithoutId(h, h[k].id)| == |h| - 1
  {
    if k == 0 {
      WithoutAbsent(h[1..], h[0].id);
    } else {
      assert h[1..][k - 1] == h[k];
      WithoutPresent(h[1..], k - 1);
    }
  }

  /** Filtering a list with distinct ids keeps its ids distinct. */
  lemma {:induction false} WithoutKeepsDistinct(h: seq<HistoryEntry>, id: string)
    requires UniqueIds(h)
    ensures UniqueIds(WithoutId(h, id))
  {
    if h != [] {
      WithoutKeepsDistinct(h[1..], id);
      var t := WithoutId(h[1..], id);
      if h[0].id != id {
        assert forall x | x in t :: x in h[1..];
        forall j | 0 <= j < |t| ensures t[j].id != h[0].id {
          assert t[j] in h[1..];
          var m :| 0 <= m < |h| - 1 && h[1..][m] == t[j];
          assert h[m + 1] == t[j];
        }
      }
    }
  }

  /** The updater `addToHistory` passes to `setHistory`: filter, prepend, keep the first ten. */
  function AddEntry(h: seq<HistoryEntry>, e: HistoryEntry): (r: seq<HistoryEntry>)
    ensures 1 <= |r| <= MaxEntries && r[0] == e
    ensures forall i | 1 <= i < |r| :: r[i].id != e.id
    ensures r[1..] <= WithoutId(h, e.id)
    ensures |r| == if |WithoutId(h, e.id)| < MaxEntries then |WithoutId(h, e.id)| + 1 else MaxEntries
  {
    var n := [e] + WithoutId(h, e.id);
    assert forall i | 1 <= i < |n| :: n[i] in WithoutId(h, e.id);
    if |n| > MaxEntries then n[..MaxEntries] else n
  }

  /** The history stays free of duplicate ids. */
  lemma AddKeepsDistinct(h: seq<HistoryEntry>, e: HistoryEntry)
    requires UniqueIds(h)
    ensures UniqueIds(AddEntry(h, e))
  {
    WithoutKeepsDistinct(h, e.id);
    var r := AddEntry(h, e);
    assert forall i | 1 <= i < |r| :: r[i] == WithoutId(h, e.id)[i - 1];
  }

  /** A new id added to a full history pushes out the oldest entry. */
  lemma AddNewToFull(h: seq<HistoryEntry>, e: HistoryEntry)
    requires |h| == MaxEntries
    requires forall i | 0 <= i < |h| :: h[i].id != e.id
    ensures AddEntry(h, e) == [e] + h[..MaxEntries - 1]
  {
    WithoutAbsent(h, e.id);
  }

  /** A new id added to a history with room grows it by one, everything else kept in order behind it. */
  lemma AddNewWithRoom(h: seq<HistoryEntry>, e: HistoryEntry)
    requires |h| < MaxEntries
    requires forall i | 0 <= i < |h| :: h[i].id != e.id
    ensures AddEntry(h, e) == [e] + h
  {
    WithoutAbsent(h, e.id);
  }

  /** Re-adding an id already present moves it to the front without growing the list. */
  lemma ReAddKeepsLength(h: seq<HistoryEntry>, e: HistoryEntry, k: nat)
    requires UniqueIds(h) && |h| <= MaxEntries
    requires k < |h| && h[k].id == e.id
    ensures |AddEntry(h, e)| == |h|
  {
    WithoutPresent(h, k);
  }

  /**
    Re-adding an id already present moves its entry to the front under the new name and time;
    the other entries keep their relative order behind it, and the list is cut to ten.
   */
  lemma ReAddMovesToFront(h: seq<HistoryEntry>, e: HistoryEntry, k: nat)
    requires UniqueIds(h)
    requires k < |h| && h[k].id == e.id
    ensures var n := [e] + h[..k] + h[k + 1..];
      AddEntry(h, e) == if |n| > MaxEntries then n[..MaxEntries] else n
  {
    WithoutUnique(h, k);
    assert [e] + (h[..k] + h[k + 1..]) == [e] + h[..k] + h[k + 1..];
  }

  /** In a list with distinct ids, filtering out the id at position `k` removes just that entry. */
  lemma {:induction false} WithoutUnique(h: seq<HistoryEntry>, k: nat)
    requires UniqueIds(h) && k < |h|
    ensures WithoutId(h, h[k].id) == h[..k] + h[k + 1..]
  {
    var t := h[1..];
    UniqueTail(h);
    if k == 0 {
      WithoutAbsent(t, h[0].id);
    } else {
      assert t[k - 1] == h[k];
      WithoutUnique(t, k - 1);
      assert WithoutId(h, h[k].id) == [h[0]] + (t[..k - 1] + t[k..]);
      assert h[..k] == [h[0]] + t[..k - 1] && t[k..] == h[k + 1..];
    }
  }

  /** The tail of a list with distinct ids has distinct ids, none of them the head's. */
  lemma UniqueTail(h: seq<HistoryEntry>)
    requires UniqueIds(h) && h != []
    ensures UniqueIds(h[1..])
    ensures forall i | 0 <= i < |h| - 1 :: h[1..][i].id != h[0].id
  {
    var t := h[1..];
    forall i, j | 0 <= i < j < |t| ensures t[i].id != t[j].id {
      assert t[i] == h[i + 1] && t[j] == h[j + 1];
    }
    forall i | 0 <= i < |t| ensures t[i].id != h[0].id {
      assert t[i] == h[i + 1];
    }
  }

  /** The entry the load effect takes as last viewed: the catalog template of the first stored entry. */
  function LastViewedOnLoad(h: seq<HistoryEntry>): (r: Option<Template>)
    ensures h == [] ==> r.None?
    ensures r.Some? ==> r.value in Templates && r.value.id == h[0].id
  {
    if |h| > 0 then FindCatalogTemplate(h[0].id) else None
  }

  class TemplateHistoryHook {
    var history: seq<HistoryEntry>
    var lastViewed: Option<Template>
    var store: Store

    /** Mounting: the stored history when there is one; the last viewed template looked up from its first entry. */
    constructor (saved: Store)
      ensures store == saved
      ensures history == (if StorageKey in saved then saved[StorageKey] else [])
      ensures lastViewed == LastViewedOnLoad(history)
    {
      store := saved;
      history := if StorageKey in saved then saved[StorageKey] else [];
      lastViewed := LastViewedOnLoad(if StorageKey in saved then saved[StorageKey] else []);
    }

    /**
      `addToHistory`: an id outside the catalog changes nothing; otherwise the template moves to
      the front under its catalog name, the new history is stored, and it becomes the last viewed.
      `now` is the `Date.now()` of the call.
     */
    method AddToHistory(templateId: string, now: int)
      modifies this
      ensures FindCatalogTemplate(templateId).None? ==>
        history == old(history) && store == old(store) && lastViewed == old(lastViewed)
      ensures FindCatalogTemplate(templateId).Some? ==>
        var t := FindCatalogTemplate(templateId).value;
        && history == AddEntry(old(history), HistoryEntry(templateId, t.name, now))
        && store == old(store)[StorageKey := history]
        && lastViewed == Some(t)
      ensures UniqueIds(old(history)) ==> UniqueIds(history)
    {
      var found := FindCatalogTemplate(templateId);
      if found.None? {
        return;
      }
      var t := found.value;
      var e := HistoryEntry(templateId, t.name, now);
      if UniqueIds(history) {
        AddKeepsDistinct(history, e);
      }
      history := AddEntry(history, e);
      store := store[StorageKey := history];
      lastViewed := Some(t);
    }
  }
}
