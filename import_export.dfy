/**
  The translator between the web checklist and the companion mobile app's export format.
  Export maps each item to the mobile schema and wraps the list in a versioned envelope;
  import accepts an enveloped or bare checklist, validates it, and rebuilds web items with
  fresh ids. Both sides work on JSON values; `JSON.stringify`/`JSON.parse` text is not modelled.
 */
module ImportExport {
  import opened Wrappers
  import opened Json
  import opened Data

  const CurrentVersion: string := "1.0"
  const DefaultChecklistName: string := "My Festival Checklist"

  const ErrInvalidJson: string := "Invalid JSON format"
  const ErrInvalidFormat: string := "Invalid checklist format: missing name or items"
  const ErrInvalidItem: string := "Invalid item: missing name or category"

  /** The id generator (`generateId`): the k-th call returns `gen(k)`. */
  type IdSupply = nat -> string

  /** The next `n` ids of the supply, starting at call number `k`. */
  function Draw(gen: IdSupply, k: nat, n: nat): (r: seq<string>)
    ensures |r| == n && forall i | 0 <= i < n :: r[i] == gen(k + i)
  {
    seq(n, i requires 0 <= i < n => gen(k + i))
  }

  lemma DrawSplit(gen: IdSupply, k: nat, a: nat, b: nat)
    ensures Draw(gen, k, a) + Draw(gen, k + a, b) == Draw(gen, k, a + b)
  {
  }

  // ---------------------------------------------------------------- categories

  /** `categoryToMobile[c] || c`: the table renames `misc`; every other id passes through. */
  function CategoryToMobile(c: string): (r: string)
    ensures r != "misc"
    ensures r == c <==> c != "misc"
  {
    if c == "misc" then "miscellaneous" else c
  }

  /** `categoryToWeb[c] || c`: the table renames `miscellaneous`; every other id passes through. */
  function CategoryToWeb(c: string): (r: string)
    ensures r != "miscellaneous"
    ensures r == c <==> c != "miscellaneous"
  {
    if c == "miscellaneous" then "misc" else c
  }

  /** The same lookup on the raw category value of an imported item. */
  function CategoryValueToWeb(o: Option<Json>): Option<Json> {
    if o == Some(JStr("miscellaneous")) then Some(JStr("misc")) else o
  }

  /** Each table is undone by the other except on the one id that the other renames. */
  lemma CategoryRoundTrip(c: string)
    ensures CategoryToWeb(CategoryToMobile(c)) == c <==> c != "miscellaneous"
    ensures CategoryToMobile(CategoryToWeb(c)) == c <==> c != "misc"
    ensures c != "misc" && c != "miscellaneous" ==> CategoryToMobile(c) == c && CategoryToWeb(c) == c
  {
  }

  // ---------------------------------------------------------------- export

  function SubItemToMobile(s: OutfitSubItem): Json {
    JObj(map["id" := JStr(s.id), "name" := JStr(s.text), "checked" := JBool(s.isCompleted)])
  }

  /** `outfitItems.map(...)` into mobile sub-items: one per sub-item, in order, with the type dropped. */
  function SubItemsToMobile(subs: seq<OutfitSubItem>): (r: seq<Json>)
    ensures |r| == |subs|
    ensures forall i | 0 <= i < |subs| :: r[i] == SubItemToMobile(subs[i])
  {
    if subs == [] then [] else [SubItemToMobile(subs[0])] + SubItemsToMobile(subs[1..])
  }

  /** The fields every exported item has. */
  const MobileItemFields: set<string> := {"id", "name", "category", "checked", "isOutfit", "createdAt", "updatedAt"}

  /**
    `convertItemToMobile`, `now` being the `Date.now()` it reads; `subItems` is left out of the
    object when `outfitItems` is absent, as `JSON.stringify` drops `undefined`.
   */
  function ItemToMobile(x: Item, now: int): (r: Json)
    ensures r.JObj?
    ensures r.fields.Keys == MobileItemFields + (if x.outfitItems.Some? then {"subItems"} else {})
    ensures "subItems" !in MobileItemFields
  {
    var fields := map[
      "id" := JStr(x.id),
      "name" := JStr(x.text),
      "category" := JStr(CategoryToMobile(x.category)),
      "checked" := JBool(x.isCompleted),
      "isOutfit" := JBool(x.isOutfit.GetOr(false)),
      "createdAt" := JNum(now as real),
      "updatedAt" := JNum(now as real)];
    JObj(if x.outfitItems.Some? then fields["subItems" := JArr(SubItemsToMobile(x.outfitItems.value))] else fields)
  }

  /**
    `Date.now()` as `convertItemToMobile` reads it, once per exported item: the call for the
    item at position `i` returns `stamps(i)`.
   */
  type Stamps = nat -> int

  /** `items.map(convertItemToMobile)`, the item at position `i` of the whole list stamped `stamps(k + i)`. */
  function ItemsToMobile(items: seq<Item>, stamps: Stamps, k: nat): (r: seq<Json>)
    ensures |r| == |items|
    ensures forall i | 0 <= i < |items| :: r[i] == ItemToMobile(items[i], stamps(k + i))
  {
    if items == [] then [] else [ItemToMobile(items[0], stamps(k))] + ItemsToMobile(items[1..], stamps, k + 1)
  }

  /** `eventInfo.name || 'My Festival Checklist'`. */
  function ChecklistName(info: EventInfo): (r: string)
    ensures r != ""
    ensures r == info.name || (info.name == "" && r == DefaultChecklistName)
  {
    if info.name != "" then info.name else DefaultChecklistName
  }

  /**
    `exportChecklist` as the value it stringifies; `now` is its own `Date.now()`, `stamps` the
    items' readings and `checklistId` the generated checklist id.
   */
  function ExportChecklist(items: seq<Item>, info: EventInfo, now: int, stamps: Stamps, checklistId: string): (r: Json)
    ensures r.JObj? && r.fields.Keys == {"version", "exportedAt", "checklist"}
    ensures r.fields["checklist"].JObj?
    ensures r.fields["checklist"].fields.Keys == {"id", "name", "items", "createdAt", "updatedAt"}
  {
    JObj(map[
      "version" := JStr(CurrentVersion),
      "exportedAt" := JNum(now as real),
      "checklist" := JObj(map[
        "id" := JStr(checklistId),
        "name" := JStr(ChecklistName(info)),
        "items" := JArr(ItemsToMobile(items, stamps, 0)),
        "createdAt" := JNum(now as real),
        "updatedAt" := JNum(now as real)])])
  }

  /** The envelope carries version 1.0, the export time, and a checklist whose name is the event name or the default. */
  lemma ExportEnvelope(items: seq<Item>, info: EventInfo, now: int, stamps: Stamps, checklistId: string)
    ensures var e := ExportChecklist(items, info, now, stamps, checklistId);
      && Get(e, "version") == Some(JStr("1.0"))
      && Get(e, "exportedAt") == Some(JNum(now as real))
      && Get(e, "checklist").Some? && Get(e, "checklist").value.JObj?
      && Get(Get(e, "checklist").value, "name")
         == Some(JStr(if info.name == "" then "My Festival Checklist" else info.name))
      && Get(Get(e, "checklist").value, "id") == Some(JStr(checklistId))
      && Get(Get(e, "checklist").value, "createdAt") == Some(JNum(now as real))
      && Get(Get(e, "checklist").value, "updatedAt") == Some(JNum(now as real))
      && Get(Get(e, "checklist").value, "items") == Some(JArr(ItemsToMobile(items, stamps, 0)))
  {
  }

  /**
    One exported item per item, in order: the item's own id, `name = text`, `checked = isCompleted`,
    the mapped category, `isOutfit` always a boolean (missing reads as false), and `subItems` present
    exactly when `outfitItems` is, one `{id, name, checked}` per sub-item; `createdAt` and
    `updatedAt` both the item's own timestamp.
   */
  lemma ExportItemFields(items: seq<Item>, stamps: Stamps, i: nat)
    requires i < |items|
    ensures var m := ItemsToMobile(items, stamps, 0);
      && |m| == |items|
      && Get(m[i], "createdAt") == Get(m[i], "updatedAt") == Some(JNum(stamps(i) as real))
      && Get(m[i], "id") == Some(JStr(items[i].id))
      && Get(m[i], "name") == Some(JStr(items[i].text))
      && Get(m[i], "checked") == Some(JBool(items[i].isCompleted))
      && Get(m[i], "category") == Some(JStr(if items[i].category == "misc" then "miscellaneous" else items[i].category))
      && Get(m[i], "isOutfit") == Some(JBool(items[i].isOutfit == Some(true)))
      && (Get(m[i], "subItems").Some? <==> items[i].outfitItems.Some?)
      && (items[i].outfitItems.Some? ==>
            var subs := items[i].outfitItems.value;
            && Get(m[i], "subItems").value.JArr?
            && var ms := Get(m[i], "subItems").value.elems;
            && |ms| == |subs|
            && forall k | 0 <= k < |subs| ::
                 ms[k] == JObj(map["id" := JStr(subs[k].id), "name" := JStr(subs[k].text), "checked" := JBool(subs[k].isCompleted)]))
  {
    ItemToMobileFields(items[i], stamps(i));
    ItemToMobileSubItems(items[i], stamps(i));
  }

  /** The scalar fields of one exported item. */
  lemma ItemToMobileFields(x: Item, now: int)
    ensures var j := ItemToMobile(x, now);
      && Get(j, "id") == Some(JStr(x.id))
      && Get(j, "name") == Some(JStr(x.text))
      && Get(j, "checked") == Some(JBool(x.isCompleted))
      && Get(j, "category") == Some(JStr(if x.category == "misc" then "miscellaneous" else x.category))
      && Get(j, "isOutfit") == Some(JBool(x.isOutfit == Some(true)))
      && Get(j, "createdAt") == Get(j, "updatedAt") == Some(JNum(now as real))
  {
    assert x.isOutfit.GetOr(false) == (x.isOutfit == Some(true));
  }

  /** The `subItems` field of one exported item: present exactly when `outfitItems` is, one entry per sub-item. */
  lemma ItemToMobileSubItems(x: Item, now: int)
    ensures var j := ItemToMobile(x, now);
      && (Get(j, "subItems").Some? <==> x.outfitItems.Some?)
      && (x.outfitItems.Some? ==> Get(j, "subItems") == Some(JArr(SubItemsToMobile(x.outfitItems.value))))
  {
  }

  // ---------------------------------------------------------------- import

  /** A rebuilt sub-item: fresh id, type `accessories`, and the raw `name`/`checked` values copied. */
  datatype ImportedSubItem = ImportedSubItem(id: string, kind: SubItemType, text: Option<Json>, isCompleted: Option<Json>)

  /**
    A rebuilt web item. The source copies the mobile item's values verbatim into the web item,
    and TypeScript's field types are not checked at run time, so the fields hold JSON values
    (None for `undefined`); `AsItem` reads them back as a typed `Item`.
   */
  datatype ImportedItem = ImportedItem(
    id: string,
    text: Option<Json>,
    category: Option<Json>,
    isCompleted: Option<Json>,
    isOutfit: Option<Json>,
    outfitItems: Option<seq<ImportedSubItem>>)

  /** `ImportResult | ImportError`. */
  datatype ImportOutcome = ImportError(error: string) | ImportResult(items: seq<ImportedItem>, name: Json)

  /** `isImportError`: the result carries an `error` field. */
  predicate IsImportError(r: ImportOutcome): (b: bool)
    ensures b <==> !r.ImportResult?
  {
    r.ImportError?
  }

  /** Every id of the rebuilt items in generation order: each item's id, then its sub-items' ids. */
  function AllIds(items: seq<ImportedItem>): seq<string> {
    if items == [] then []
    else [items[0].id] + SubIds(items[0].outfitItems.GetOr([])) + AllIds(items[1..])
  }

  function SubIds(subs: seq<ImportedSubItem>): (r: seq<string>)
    ensures |r| == |subs| && forall k | 0 <= k < |subs| :: r[k] == subs[k].id
  {
    if subs == [] then [] else [subs[0].id] + SubIds(subs[1..])
  }

  /**
    `item.subItems.map(...)` rebuilding sub-items with ids `gen(next)`, `gen(next + 1)`, ...;
    reading `subItem.name` of a `null` sub-item throws (None).
   */
  function SubItemsToWeb(subs: seq<Json>, gen: IdSupply, next: nat): (r: Option<seq<ImportedSubItem>>)
    ensures r.Some? <==> forall k | 0 <= k < |subs| :: subs[k] != JNull
    ensures r.Some? ==> |r.value| == |subs| && SubIds(r.value) == Draw(gen, next, |subs|)
    ensures r.Some? ==> SubItemsRebuilt(subs, r.value)
  {
    if subs == [] then Some([])
    else if subs[0] == JNull then None
    else
      match SubItemsToWeb(subs[1..], gen, next + 1)
      case None => None
      case Some(rest) =>
        var s := ImportedSubItem(gen(next), Accessories, Get(subs[0], "name"), Get(subs[0], "checked"));
        assert SubIds([s] + rest) == [s.id] + SubIds(rest);
        DrawSplit(gen, next, 1, |rest|);
        Some([s] + rest)
  }

  /** The rebuilt sub-items copy `name`/`checked` of each mobile sub-item, in order, with type `accessories`. */
  predicate SubItemsRebuilt(subs: seq<Json>, ys: seq<ImportedSubItem>) {
    && |ys| == |subs|
    && forall k | 0 <= k < |subs| ::
         && subs[k] != JNull
         && ys[k].kind == Accessories
         && ys[k].text == Get(subs[k], "name")
         && ys[k].isCompleted == Get(subs[k], "checked")
  }

  /** `item.isOutfit && item.subItems`: the condition under which sub-items are rebuilt. */
  predicate RebuildsSubItems(x: Json)
    requires x != JNull
  {
    TruthyOpt(Get(x, "isOutfit")) && TruthyOpt(Get(x, "subItems"))
  }

  /** `convertItemToWeb` neither throws nor fails: not null, and rebuilt sub-items are an array without `null`. */
  predicate Convertible(x: Json) {
    && x != JNull
    && (RebuildsSubItems(x) ==>
          var s := Get(x, "subItems").value;
          s.JArr? && forall k | 0 <= k < |s.elems| :: s.elems[k] != JNull)
  }

  /**
    How a web item is rebuilt from a mobile item, ids aside: `text = name`, `isCompleted = checked`,
    `isOutfit` copied, the mapped category, sub-items exactly when `isOutfit && subItems`.
   */
  predicate Rebuilt(x: Json, y: ImportedItem)
    requires x != JNull
  {
    && y.text == Get(x, "name")
    && y.category == WebCategory(x)
    && y.isCompleted == Get(x, "checked")
    && y.isOutfit == Get(x, "isOutfit")
    && (y.outfitItems.Some? <==> RebuildsSubItems(x))
    && (y.outfitItems.Some? ==>
          Get(x, "subItems").value.JArr? && SubItemsRebuilt(Get(x, "subItems").value.elems, y.outfitItems.value))
  }

  /** The web category the source computes from a mobile item. */
  function WebCategory(x: Json): Option<Json>
    requires x != JNull
  {
    CategoryValueToWeb(Get(x, "category"))
  }

  /**
    `convertItemToWeb`: a fresh id first, then the copied fields, then (when rebuilt) the
    sub-items with the following ids. Calling `.map` on a truthy non-array throws (None).
    The second component is the supply position after this item.
   */
  function ItemToWeb(x: Json, gen: IdSupply, next: nat): (r: Option<(ImportedItem, nat)>)
    ensures r.Some? <==> Convertible(x)
    ensures r.Some? ==>
      var (y, after) := r.value;
      && y.id == gen(next)
      && Rebuilt(x, y)
      && after == next + 1 + |y.outfitItems.GetOr([])|
      && [y.id] + SubIds(y.outfitItems.GetOr([])) == Draw(gen, next, after - next)
  {
    if x == JNull then None
    else
      var base := ImportedItem(gen(next), Get(x, "name"), WebCategory(x), Get(x, "checked"), Get(x, "isOutfit"), None);
      if !RebuildsSubItems(x) then
        Some((base, next + 1))
      else
        var s := Get(x, "subItems").value;
        if !s.JArr? then None
        else
          match SubItemsToWeb(s.elems, gen, next + 1)
          case None => None
          case Some(subs) =>
            var y := base.(outfitItems := Some(subs));
            IdThenDraw(gen, next, SubIds(subs));
            assert Rebuilt(x, y);
            Some((y, next + 1 + |subs|))
  }

  /** An id drawn at `next` followed by the ids drawn right after it is one run of the supply. */
  lemma IdThenDraw(gen: IdSupply, next: nat, ids: seq<string>)
    requires ids == Draw(gen, next + 1, |ids|)
    ensures [gen(next)] + ids == Draw(gen, next, 1 + |ids|)
  {
    DrawSplit(gen, next, 1, |ids|);
  }

  /** `checklist.items.map(convertItemToWeb)`, threading the id supply through the items in order. */
  function ItemsToWeb(xs: seq<Json>, gen: IdSupply, next: nat): (r: Option<(seq<ImportedItem>, nat)>)
    ensures r.Some? ==> |r.value.0| == |xs| && r.value.1 >= next
  {
    if xs == [] then Some(([], next))
    else
      match ItemToWeb(xs[0], gen, next)
      case None => None
      case Some((y, mid)) =>
        match ItemsToWeb(xs[1..], gen, mid)
        case None => None
        case Some((ys, after)) => Some(([y] + ys, after))
  }

  /** The conversion succeeds exactly when every item is convertible. */
  lemma {:induction false} ItemsToWebSucceeds(xs: seq<Json>, gen: IdSupply, next: nat)
    ensures ItemsToWeb(xs, gen, next).Some? <==> forall i | 0 <= i < |xs| :: Convertible(xs[i])
  {
    if xs != [] {
      var h := ItemToWeb(xs[0], gen, next);
      if h.Some? {
        var mid := h.value.1;
        ItemsToWebSucceeds(xs[1..], gen, mid);
        assert ItemsToWeb(xs, gen, next).Some? <==> ItemsToWeb(xs[1..], gen, mid).Some?;
        AllConvertibleSplit(xs);
      }
    }
  }

  /** Every item is convertible exactly when the first is and every later one is. */
  lemma AllConvertibleSplit(xs: seq<Json>)
    requires xs != []
    ensures (forall i | 0 <= i < |xs| :: Convertible(xs[i]))
        <==> Convertible(xs[0]) && forall i | 0 <= i < |xs| - 1 :: Convertible(xs[1..][i])
  {
    if Convertible(xs[0]) && forall i | 0 <= i < |xs| - 1 :: Convertible(xs[1..][i]) {
      forall i | 0 <= i < |xs| ensures Convertible(xs[i]) {
        if i > 0 { assert xs[i] == xs[1..][i - 1]; }
      }
    }
  }

  /** Each rebuilt item is its mobile item's conversion, position by position. */
  lemma {:induction false} ItemsToWebRebuilt(xs: seq<Json>, gen: IdSupply, next: nat)
    requires ItemsToWeb(xs, gen, next).Some?
    ensures forall i | 0 <= i < |xs| :: xs[i] != JNull && Rebuilt(xs[i], ItemsToWeb(xs, gen, next).value.0[i])
  {
    if xs != [] {
      ItemsToWebStep(xs, gen, next);
      var h := ItemToWeb(xs[0], gen, next);
      var y, mid := h.value.0, h.value.1;
      var ys := ItemsToWeb(xs[1..], gen, mid).value.0;
      ItemsToWebRebuilt(xs[1..], gen, mid);
      assert ItemsToWeb(xs, gen, next).value.0 == [y] + ys;
      forall i | 0 <= i < |xs| ensures xs[i] != JNull && Rebuilt(xs[i], ([y] + ys)[i]) {
        if i > 0 { assert xs[i] == xs[1..][i - 1] && ([y] + ys)[i] == ys[i - 1]; }
      }
    }
  }

  /** One step of `ItemsToWeb`: the first item, then the rest from the position the first left the supply at. */
  lemma ItemsToWebStep(xs: seq<Json>, gen: IdSupply, next: nat)
    requires xs != [] && ItemsToWeb(xs, gen, next).Some?
    ensures ItemToWeb(xs[0], gen, next).Some?
    ensures var h := ItemToWeb(xs[0], gen, next).value;
      && ItemsToWeb(xs[1..], gen, h.1).Some?
      && ItemsToWeb(xs, gen, next).value
         == ([h.0] + ItemsToWeb(xs[1..], gen, h.1).value.0, ItemsToWeb(xs[1..], gen, h.1).value.1)
  {
  }

  /** Joining one item's ids to the rest's ids when each is a consecutive run of the supply. */
  lemma AllIdsJoin(gen: IdSupply, y: ImportedItem, ys: seq<ImportedItem>, next: nat, mid: nat, after: nat)
    requires next <= mid <= after
    requires [y.id] + SubIds(y.outfitItems.GetOr([])) == Draw(gen, next, mid - next)
    requires AllIds(ys) == Draw(gen, mid, after - mid)
    ensures AllIds([y] + ys) == Draw(gen, next, after - next)
  {
    assert ([y] + ys)[0] == y && ([y] + ys)[1..] == ys;
    DrawSplit(gen, next, mid - next, after - mid);
  }

  /** The rebuilt items' ids are the supply's next values, in generation order. */
  lemma {:induction false} ItemsToWebIds(xs: seq<Json>, gen: IdSupply, next: nat, ys: seq<ImportedItem>, after: nat)
    requires ItemsToWeb(xs, gen, next) == Some((ys, after))
    ensures next <= after && AllIds(ys) == Draw(gen, next, after - next)
  {
    if xs != [] {
      var y, mid, rest := ItemsToWebHead(xs, gen, next, ys, after);
      ItemsToWebIds(xs[1..], gen, mid, rest, after);
      AllIdsJoin(gen, y, rest, next, mid, after);
    }
  }

  /** The first item of a successful conversion, its ids, and the rest converted from where it left the supply. */
  lemma ItemsToWebHead(xs: seq<Json>, gen: IdSupply, next: nat, ys: seq<ImportedItem>, after: nat)
    returns (y: ImportedItem, mid: nat, rest: seq<ImportedItem>)
    requires xs != [] && ItemsToWeb(xs, gen, next) == Some((ys, after))
    ensures ys == [y] + rest
    ensures ItemsToWeb(xs[1..], gen, mid) == Some((rest, after))
    ensures next <= mid
    ensures [y.id] + SubIds(y.outfitItems.GetOr([])) == Draw(gen, next, mid - next)
  {
    ItemsToWebStep(xs, gen, next);
    var h := ItemToWeb(xs[0], gen, next).value;
    y, mid := h.0, h.1;
    rest := ItemsToWeb(xs[1..], gen, mid).value.0;
  }

  /** The validation loop's test: `item.name` and `item.category` are truthy (reading them on `null` throws). */
  predicate ItemOk(x: Json) {
    x != JNull && TruthyOpt(Get(x, "name")) && TruthyOpt(Get(x, "category"))
  }

  /** `i` is the first item the validation loop stops at. */
  predicate FirstFailing(xs: seq<Json>, i: int) {
    0 <= i < |xs| && !ItemOk(xs[i]) && forall j | 0 <= j < i :: ItemOk(xs[j])
  }

  /** The validation loop: None when every item passes, otherwise the error of the first failing item. */
  function ValidateItems(xs: seq<Json>): (r: Option<string>)
    ensures r.None? <==> forall i | 0 <= i < |xs| :: ItemOk(xs[i])
    ensures r.Some? ==> exists i :: FirstFailing(xs, i)
                                    && r.value == (if xs[i] == JNull then ErrInvalidJson else ErrInvalidItem)
  {
    if xs == [] then None
    else if xs[0] == JNull then Some(ErrInvalidJson)
    else if !ItemOk(xs[0]) then Some(ErrInvalidItem)
    else
      var r := ValidateItems(xs[1..]);
      assert r.Some? ==> exists i :: FirstFailing(xs, i)
                                    && r.value == (if xs[i] == JNull then ErrInvalidJson else ErrInvalidItem) by {
      if r.Some? {
        var i :| FirstFailing(xs[1..], i) && r.value == (if xs[1..][i] == JNull then ErrInvalidJson else ErrInvalidItem);
        assert FirstFailing(xs, i + 1) by {
          forall j | 0 <= j < i + 1 ensures ItemOk(xs[j]) {
            if j > 0 { assert xs[j] == xs[1..][j - 1]; }
          }
        }
      }
      }
      assert r.None? ==> forall i | 0 <= i < |xs| :: ItemOk(xs[i]) by {
        if r.None? {
          forall i | 0 <= i < |xs| ensures ItemOk(xs[i]) {
            if i > 0 { assert xs[i] == xs[1..][i - 1]; }
          }
        }
      }
      r
  }

  /** `parsed.checklist || parsed`: the enveloped checklist when truthy, otherwise the payload itself. */
  function SelectChecklist(v: Json): (c: Json)
    requires v != JNull
    ensures c != JNull
    ensures c == v || Some(c) == Get(v, "checklist")
  {
    var inner := Get(v, "checklist");
    if TruthyOpt(inner) then inner.value else v
  }

  /** `!checklist.name || !Array.isArray(checklist.items)` fails. */
  predicate FormatOk(c: Json)
    requires c != JNull
  {
    TruthyOpt(Get(c, "name")) && IsArrayOpt(Get(c, "items"))
  }

  /** The checklist's items, once the format check has passed. */
  function ItemsOf(c: Json): seq<Json>
    requires c != JNull && FormatOk(c)
  {
    Get(c, "items").value.elems
  }

  /**
    `validateAndImportChecklist`: parse, select the checklist, check its format, validate each
    item, convert. Every exception inside the `try` (a `SyntaxError` from parsing, a `TypeError`
    from reading a property of `null` or calling `.map` on a non-array) ends as 'Invalid JSON format'.
   */
  function ValidateAndImportChecklist(p: Parsed, gen: IdSupply, start: nat): (r: ImportOutcome)
    ensures r.ImportError? ==> r.error in {ErrInvalidJson, ErrInvalidFormat, ErrInvalidItem}
  {
    match p
    case Unparseable => ImportError(ErrInvalidJson)
    case Parsed(v) =>
      if v == JNull then ImportError(ErrInvalidJson)
      else
        var c := SelectChecklist(v);
        if !FormatOk(c) then ImportError(ErrInvalidFormat)
        else
          match ValidateItems(ItemsOf(c))
          case Some(e) => ImportError(e)
          case None =>
            match ItemsToWeb(ItemsOf(c), gen, start)
            case None => ImportError(ErrInvalidJson)
            case Some((items, _)) => ImportResult(items, Get(c, "name").value)
  }

  /** The payloads import accepts, stated declaratively. */
  predicate Accepts(p: Parsed) {
    && p.Parsed? && p.value != JNull
    && FormatOk(SelectChecklist(p.value))
    && var xs := ItemsOf(SelectChecklist(p.value));
    && (forall i | 0 <= i < |xs| :: ItemOk(xs[i]))
    && (forall i | 0 <= i < |xs| :: Convertible(xs[i]))
  }

  /** Import succeeds exactly on the accepted payloads; `isImportError` is the negation. */
  lemma ImportAcceptsExactly(p: Parsed, gen: IdSupply, start: nat)
    ensures var r := ValidateAndImportChecklist(p, gen, start);
      && (r.ImportResult? <==> Accepts(p))
      && (IsImportError(r) <==> !Accepts(p))
  {
    if p.Parsed? && p.value != JNull && FormatOk(SelectChecklist(p.value)) {
      ItemsToWebSucceeds(ItemsOf(SelectChecklist(p.value)), gen, start);
    }
  }

  /** Which error each kind of bad payload gets. */
  lemma ImportErrorCases(p: Parsed, gen: IdSupply, start: nat)
    ensures var r := ValidateAndImportChecklist(p, gen, start);
      && (p.Unparseable? ==> r == ImportError("Invalid JSON format"))
      && (p == Parsed(JNull) ==> r == ImportError("Invalid JSON format"))
      && ((p.Parsed? && p.value != JNull && !FormatOk(SelectChecklist(p.value)))
            ==> r == ImportError("Invalid checklist format: missing name or items"))
      && (p.Parsed? && p.value != JNull && FormatOk(SelectChecklist(p.value)) ==>
            var xs := ItemsOf(SelectChecklist(p.value));
            forall i | FirstFailing(xs, i) ::
              r == ImportError(if xs[i] == JNull then "Invalid JSON format" else "Invalid item: missing name or category"))
  {
    if p.Parsed? && p.value != JNull && FormatOk(SelectChecklist(p.value)) {
      var xs := ItemsOf(SelectChecklist(p.value));
      forall i | FirstFailing(xs, i)
        ensures ValidateItems(xs) == Some(if xs[i] == JNull then ErrInvalidJson else ErrInvalidItem)
      {
        var v := ValidateItems(xs);
        var i' :| FirstFailing(xs, i') && v.value == (if xs[i'] == JNull then ErrInvalidJson else ErrInvalidItem);
      }
    }
  }

  /**
    A successful import: the returned name is the checklist's, one web item per mobile item in order,
    `text = name`, `isCompleted = checked`, `isOutfit` copied verbatim, sub-items rebuilt exactly when
    `isOutfit && subItems`, each of type `accessories`; all ids are the supply's next values in order.
   */
  lemma ImportedFields(p: Parsed, gen: IdSupply, start: nat)
    requires ValidateAndImportChecklist(p, gen, start).ImportResult?
    ensures Accepts(p)
    ensures var r := ValidateAndImportChecklist(p, gen, start);
      var c := SelectChecklist(p.value);
      var xs := ItemsOf(c);
      && Some(r.name) == Get(c, "name")
      && |r.items| == |xs|
      && AllIds(r.items) == Draw(gen, start, |AllIds(r.items)|)
      && forall i | 0 <= i < |xs| :: xs[i] != JNull && Rebuilt(xs[i], r.items[i])
  {
    var c := SelectChecklist(p.value);
    ItemsToWebSucceeds(ItemsOf(c), gen, start);
    ItemsToWebRebuilt(ItemsOf(c), gen, start);
    var conv := ItemsToWeb(ItemsOf(c), gen, start).value;
    ItemsToWebIds(ItemsOf(c), gen, start, conv.0, conv.1);
  }

  // ---------------------------------------------------------------- round trip

  /** Reading a rebuilt sub-item back as a typed sub-item: `name` must be a string and `checked` a boolean. */
  function AsSubItem(s: ImportedSubItem): (r: Option<OutfitSubItem>)
    ensures r.Some? <==> s.text.Some? && s.text.value.JStr? && s.isCompleted.Some? && s.isCompleted.value.JBool?
    ensures r.Some? ==> r.value == OutfitSubItem(s.id, s.kind, s.text.value.s, s.isCompleted.value.b)
  {
    if s.text.Some? && s.text.value.JStr? && s.isCompleted.Some? && s.isCompleted.value.JBool? then
      Some(OutfitSubItem(s.id, s.kind, s.text.value.s, s.isCompleted.value.b))
    else None
  }

  function AsSubItems(subs: seq<ImportedSubItem>): (r: Option<seq<OutfitSubItem>>)
    ensures r.Some? <==> forall k | 0 <= k < |subs| :: AsSubItem(subs[k]).Some?
    ensures r.Some? ==> |r.value| == |subs| && forall k | 0 <= k < |subs| :: r.value[k] == AsSubItem(subs[k]).value
  {
    if subs == [] then Some([])
    else
      match AsSubItem(subs[0])
      case None => None
      case Some(h) =>
        match AsSubItems(subs[1..])
        case None =>
          assert exists k | 0 <= k < |subs| :: AsSubItem(subs[k]).None? by {
            var k :| 0 <= k < |subs| - 1 && AsSubItem(subs[1..][k]).None?;
            assert subs[k + 1] == subs[1..][k];
          }
          None
        case Some(t) =>
          assert forall k | 0 <= k < |subs| - 1 :: subs[1..][k] == subs[k + 1];
          Some([h] + t)
  }

  /**
    Reading a rebuilt item back as a typed `Item`, as the web app uses it: the text, category and
    completion must be a string, a string and a boolean, `isOutfit` absent or a boolean.
   */
  function AsItem(y: ImportedItem): (r: Option<Item>)
    ensures r.Some? ==>
      && r.value.id == y.id
      && y.text == Some(JStr(r.value.text))
      && y.category == Some(JStr(r.value.category))
      && y.isCompleted == Some(JBool(r.value.isCompleted))
      && (r.value.isOutfit.None? <==> y.isOutfit.None?)
      && (r.value.isOutfit.Some? ==> y.isOutfit == Some(JBool(r.value.isOutfit.value)))
      && (r.value.outfitItems.Some? <==> y.outfitItems.Some?)
      && (r.value.outfitItems.Some? ==> Some(r.value.outfitItems.value) == AsSubItems(y.outfitItems.value))
  {
    if !(y.text.Some? && y.text.value.JStr?) then None
    else if !(y.category.Some? && y.category.value.JStr?) then None
    else if !(y.isCompleted.Some? && y.isCompleted.value.JBool?) then None
    else if y.isOutfit.Some? && !y.isOutfit.value.JBool? then None
    else
      var outfit := if y.isOutfit.Some? then Some(y.isOutfit.value.b) else None;
      if y.outfitItems.None? then
        Some(Item(y.id, y.text.value.s, y.category.value.s, y.isCompleted.value.b, outfit, None))
      else
        match AsSubItems(y.outfitItems.value)
        case None => None
        case Some(subs) => Some(Item(y.id, y.text.value.s, y.category.value.s, y.isCompleted.value.b, outfit, Some(subs)))
  }

  /** What a web item comes back as after export and import, ids aside. */
  predicate Reimported(x: Item, y: ImportedItem) {
    && y.text == Some(JStr(x.text))
    && y.category == Some(JStr(CategoryToWeb(CategoryToMobile(x.category))))
    && y.isCompleted == Some(JBool(x.isCompleted))
    && y.isOutfit == Some(JBool(x.isOutfit == Some(true)))
    && (y.outfitItems.Some? <==> x.isOutfit == Some(true) && x.outfitItems.Some?)
    && (y.outfitItems.Some? ==>
          var subs := x.outfitItems.value;
          var ys := y.outfitItems.value;
          && |ys| == |subs|
          && forall k | 0 <= k < |subs| ::
               && ys[k].kind == Accessories
               && ys[k].text == Some(JStr(subs[k].text))
               && ys[k].isCompleted == Some(JBool(subs[k].isCompleted)))
  }

  lemma ExportedItemAccepted(x: Item, now: int)
    requires x.text != "" && x.category != ""
    ensures ItemOk(ItemToMobile(x, now)) && Convertible(ItemToMobile(x, now))
  {
    var m := ItemToMobile(x, now);
    assert Get(m, "name") == Some(JStr(x.text));
    assert Get(m, "category") == Some(JStr(CategoryToMobile(x.category)));
    if x.outfitItems.Some? {
      var ms := SubItemsToMobile(x.outfitItems.value);
      assert Get(m, "subItems") == Some(JArr(ms));
      forall k | 0 <= k < |ms| ensures ms[k] != JNull {
        assert ms[k] == SubItemToMobile(x.outfitItems.value[k]);
      }
    } else {
      assert Get(m, "subItems") == None;
    }
  }

  lemma RebuiltIsReimported(x: Item, now: int, y: ImportedItem)
    requires Rebuilt(ItemToMobile(x, now), y)
    ensures Reimported(x, y)
  {
    var m := ItemToMobile(x, now);
    assert Get(m, "name") == Some(JStr(x.text));
    assert Get(m, "checked") == Some(JBool(x.isCompleted));
    assert Get(m, "isOutfit") == Some(JBool(x.isOutfit.GetOr(false)));
    assert x.isOutfit.GetOr(false) == (x.isOutfit == Some(true));
    assert Get(m, "category") == Some(JStr(CategoryToMobile(x.category)));
    if x.outfitItems.Some? {
      var subs := x.outfitItems.value;
      var ms := SubItemsToMobile(subs);
      assert Get(m, "subItems") == Some(JArr(ms));
      if y.outfitItems.Some? {
        var ys := y.outfitItems.value;
        forall k | 0 <= k < |subs|
          ensures ys[k].text == Some(JStr(subs[k].text)) && ys[k].isCompleted == Some(JBool(subs[k].isCompleted))
        {
          assert ms[k] == SubItemToMobile(subs[k]);
        }
      }
    } else {
      assert Get(m, "subItems") == None;
    }
  }

  /**
    Exporting and importing back: every item with a non-empty text and category is accepted; the
    list comes back under the exported name, one item per item in order, each `Reimported`.
   */
  lemma ExportImportRoundTrip(items: seq<Item>, info: EventInfo, now: int, stamps: Stamps, checklistId: string, gen: IdSupply, start: nat)
    requires forall i | 0 <= i < |items| :: items[i].text != "" && items[i].category != ""
    ensures var r := ValidateAndImportChecklist(Parsed(ExportChecklist(items, info, now, stamps, checklistId)), gen, start);
      && r.ImportResult?
      && r.name == JStr(ChecklistName(info))
      && |r.items| == |items|
      && AllIds(r.items) == Draw(gen, start, |AllIds(r.items)|)
      && forall i | 0 <= i < |items| :: Reimported(items[i], r.items[i])
  {
    var e := ExportChecklist(items, info, now, stamps, checklistId);
    var p := Parsed(e);
    ExportEnvelope(items, info, now, stamps, checklistId);
    var c := SelectChecklist(e);
    assert c == Get(e, "checklist").value;
    var xs := ItemsOf(c);
    assert xs == ItemsToMobile(items, stamps, 0);
    forall i | 0 <= i < |xs| ensures ItemOk(xs[i]) && Convertible(xs[i]) {
      ExportedItemAccepted(items[i], stamps(i));
    }
    ImportAcceptsExactly(p, gen, start);
    ImportedFields(p, gen, start);
    var r := ValidateAndImportChecklist(p, gen, start);
    forall i | 0 <= i < |items| ensures Reimported(items[i], r.items[i]) {
      RebuiltIsReimported(items[i], stamps(i), r.items[i]);
    }
  }

  /** An item with an empty text or category is exported but refused on import. */
  lemma ExportImportRefusesEmpty(items: seq<Item>, info: EventInfo, now: int, stamps: Stamps, checklistId: string, gen: IdSupply, start: nat, i: nat)
    requires i < |items| && (items[i].text == "" || items[i].category == "")
    ensures ValidateAndImportChecklist(Parsed(ExportChecklist(items, info, now, stamps, checklistId)), gen, start).ImportError?
  {
    var e := ExportChecklist(items, info, now, stamps, checklistId);
    ExportEnvelope(items, info, now, stamps, checklistId);
    var c := SelectChecklist(e);
    assert c == Get(e, "checklist").value;
    var xs := ItemsOf(c);
    var m := ItemToMobile(items[i], stamps(i));
    assert xs[i] == m;
    ItemToMobileFields(items[i], stamps(i));
    assert !ItemOk(xs[i]);
    ImportAcceptsExactly(Parsed(e), gen, start);
  }

  /** The id-free part of an item, what a round trip can preserve. */
  function Shape(x: Item): Item {
    x.(id := "", outfitItems := if x.outfitItems.Some? then Some(SubShapes(x.outfitItems.value)) else None)
  }

  function SubShapes(subs: seq<OutfitSubItem>): (r: seq<OutfitSubItem>)
    ensures |r| == |subs| && forall k | 0 <= k < |subs| :: r[k] == subs[k].(id := "")
  {
    if subs == [] then [] else [subs[0].(id := "")] + SubShapes(subs[1..])
  }

  /**
    The items a round trip keeps exactly, ids aside: non-empty text and category, a category other
    than `miscellaneous`, `isOutfit` set, sub-items only on an outfit and all of type `accessories`.
   */
  predicate Lossless(x: Item) {
    && x.text != "" && x.category != "" && x.category != "miscellaneous"
    && x.isOutfit.Some?
    && (x.outfitItems.Some? ==> x.isOutfit == Some(true))
    && (x.isOutfit == Some(true) ==> x.outfitItems.Some?)
    && (x.outfitItems.Some? ==> forall k | 0 <= k < |x.outfitItems.value| :: x.outfitItems.value[k].kind == Accessories)
  }

  lemma ReimportedShape(x: Item, y: ImportedItem)
    requires Lossless(x) && Reimported(x, y)
    ensures AsItem(y).Some? && Shape(AsItem(y).value) == Shape(x)
  {
    CategoryRoundTrip(x.category);
    var b := x.isOutfit.value;
    assert y.isOutfit == Some(JBool(b));
    if x.outfitItems.Some? {
      var subs := x.outfitItems.value;
      var ys := y.outfitItems.value;
      assert AsSubItems(ys).Some?;
      var back := AsSubItems(ys).value;
      assert SubShapes(back) == SubShapes(subs) by {
        forall k | 0 <= k < |subs| ensures SubShapes(back)[k] == SubShapes(subs)[k] {
          assert back[k] == AsSubItem(ys[k]).value;
        }
      }
      var z := AsItem(y).value;
      assert z == Item(y.id, x.text, x.category, x.isCompleted, Some(b), Some(back));
    } else {
      var z := AsItem(y).value;
      assert z == Item(y.id, x.text, x.category, x.isCompleted, Some(b), None);
    }
  }

  /** On lossless items a round trip restores every item exactly, ids aside. */
  lemma ExportImportLossless(items: seq<Item>, info: EventInfo, now: int, stamps: Stamps, checklistId: string, gen: IdSupply, start: nat)
    requires forall i | 0 <= i < |items| :: Lossless(items[i])
    ensures var r := ValidateAndImportChecklist(Parsed(ExportChecklist(items, info, now, stamps, checklistId)), gen, start);
      && r.ImportResult? && |r.items| == |items|
      && forall i | 0 <= i < |items| :: AsItem(r.items[i]).Some? && Shape(AsItem(r.items[i]).value) == Shape(items[i])
  {
    ExportImportRoundTrip(items, info, now, stamps, checklistId, gen, start);
    var r := ValidateAndImportChecklist(Parsed(ExportChecklist(items, info, now, stamps, checklistId)), gen, start);
    forall i | 0 <= i < |items| ensures AsItem(r.items[i]).Some? && Shape(AsItem(r.items[i]).value) == Shape(items[i]) {
      ReimportedShape(items[i], r.items[i]);
    }
  }
}
