/**
  The checklist data model and the fixed catalog: the item, sub-item, event and template
  shapes, the five categories, the sample event and checklist, and the two templates.
 */
module Data {
  import opened Wrappers
  import Text

  /** The closed set of outfit sub-item kinds. */
  datatype SubItemType = Shoes | Top | Bottom | Accessories

  /** A sub-entry of an outfit item; `kind` is the source's `type` field. */
  datatype OutfitSubItem = OutfitSubItem(id: string, kind: SubItemType, text: string, isCompleted: bool)

  /** A checklist entry; `isOutfit` and `outfitItems` are optional fields (None is `undefined`). */
  datatype Item = Item(
    id: string,
    text: string,
    category: string,
    isCompleted: bool,
    isOutfit: Option<bool>,
    outfitItems: Option<seq<OutfitSubItem>>)

  datatype EventInfo = EventInfo(name: string, date: string, location: string, startTime: string)

  datatype Template = Template(id: string, name: string, event: EventInfo, items: seq<Item>, thumbnail: string)

  datatype Category = Category(id: string, name: string, color: string)

  /** A plain, uncompleted catalog entry. */
  function Entry(id: string, text: string, category: string): Item {
    Item(id, text, category, false, None, None)
  }

  const Categories: seq<Category> := [
    Category("documents", "Documents", "bg-blue-100 text-blue-800"),
    Category("clothing", "Clothing", "bg-green-100 text-green-800"),
    Category("electronics", "Electronics", "bg-purple-100 text-purple-800"),
    Category("toiletries", "Toiletries", "bg-yellow-100 text-yellow-800"),
    Category("misc", "Miscellaneous", "bg-gray-100 text-gray-800")
  ]

  predicate IsCategoryId(c: string) {
    exists k | 0 <= k < |Categories| :: Categories[k].id == c
  }

  const SampleEvent: EventInfo :=
    EventInfo("Coachella", "April 11-13 & 18-20, 2025", "Empire Polo Club, Indio, CA", "12:00 PM")

  const SampleChecklist: seq<Item> := [
    Entry("1", "Festival Ticket/Wristband", "documents"),
    Entry("2", "ID/Driver's License", "documents"),
    Entry("3", "Credit/Debit Cards & Cash", "documents"),
    Entry("4", "Festival Map & Schedule", "documents"),
    Entry("8", "Bandanas/Masks", "clothing"),
    Entry("9", "Light Jacket/Hoodie", "clothing"),
    Entry("11", "Portable Charger/Power Bank", "electronics"),
    Entry("13", "Earplugs", "clothing"),
    Entry("17", "Sunscreen", "toiletries"),
    Entry("18", "Hand Sanitizer", "toiletries"),
    Entry("19", "Lip Balm", "toiletries"),
    Entry("21", "Hydration Pack/Water Bottle", "misc"),
    Entry("23", "Sunglasses", "clothing")
  ]

  const OutsideLandsItems: seq<Item> := [
    Entry("ol-1", "Festival Ticket/Wristband", "documents"),
    Entry("ol-2", "ID/Driver's License", "documents"),
    Entry("ol-3", "Credit/Debit Cards & Cash", "documents"),
    Entry("ol-4", "Festival Map & Schedule", "documents"),
    Entry("ol-5", "Warm Layers (SF Fog)", "clothing"),
    Entry("ol-6", "Long Pants/Jeans", "clothing"),
    Entry("ol-8", "Beanie/Hat", "clothing"),
    Entry("ol-9", "Warm Jacket", "clothing"),
    Entry("ol-11", "Portable Charger/Power Bank", "electronics"),
    Entry("ol-13", "Earplugs", "clothing"),
    Entry("ol-17", "Sunscreen", "toiletries"),
    Entry("ol-18", "Hand Sanitizer", "toiletries"),
    Entry("ol-19", "Lip Balm", "toiletries"),
    Entry("ol-20", "Blanket for Sitting", "misc"),
    Entry("ol-21", "Hydration Pack/Water Bottle", "misc"),
    Entry("ol-22", "Portable Hand Warmers", "misc"),
    Entry("ol-23", "Sunglasses", "clothing")
  ]

  const Templates: seq<Template> := [
    Template("coachella", "Coachella Festival", SampleEvent, SampleChecklist,
      "https://images.unsplash.com/photo-1492684223066-81342ee5ff30?q=80&w=2070&auto=format&fit=crop"),
    Template("outsidelands", "Outside Lands",
      EventInfo("Outside Lands", "August 9-11, 2024", "Golden Gate Park, San Francisco, CA", "11:00 AM"),
      OutsideLandsItems,
      "https://images.unsplash.com/photo-1470229722913-7c0e2dbbafd3?q=80&w=2070&auto=format&fit=crop")
  ]

  /** `templates.find(t => t.id === id)` over any template list: the first template with that id. */
  function FindTemplate(ts: seq<Template>, id: string): (r: Option<Template>)
    ensures r.None? <==> forall i | 0 <= i < |ts| :: ts[i].id != id
    ensures r.Some? ==> exists k | 0 <= k < |ts| :: ts[k] == r.value && ts[k].id == id
                                                  && forall j | 0 <= j < k :: ts[j].id != id
  {
    if ts == [] then None
    else if ts[0].id == id then Some(ts[0])
    else
      var r := FindTemplate(ts[1..], id);
      assert r.Some? ==> exists k | 0 <= k < |ts| :: ts[k] == r.value && ts[k].id == id
                                                  && forall j | 0 <= j < k :: ts[j].id != id by {
        if r.Some? {
          var k :| 0 <= k < |ts| - 1 && ts[1..][k] == r.value && ts[1..][k].id == id
                  && forall j | 0 <= j < k :: ts[1..][j].id != id;
          assert forall j | 0 <= j < k + 1 :: ts[j].id != id by {
            forall j | 0 <= j < k + 1 ensures ts[j].id != id {
              if j > 0 { assert ts[j] == ts[1..][j - 1]; }
            }
          }
        }
      }
      r
  }

  /** The catalog lookup both hooks perform. */
  function FindCatalogTemplate(id: string): Option<Template> {
    FindTemplate(Templates, id)
  }

  predicate DistinctIds(items: seq<Item>) {
    forall i, j | 0 <= i < j < |items| :: items[i].id != items[j].id
  }

  /** Item texts are non-empty and pairwise different under case folding. */
  predicate DistinctTexts(items: seq<Item>) {
    && (forall i | 0 <= i < |items| :: items[i].text != "")
    && (forall i, j | 0 <= i < j < |items| :: Text.Fold(items[i].text) != Text.Fold(items[j].text))
  }

  /** The five category ids are distinct and the first is `documents`. */
  lemma CategoryIdsDistinct()
    ensures |Categories| == 5 && Categories[0].id == "documents"
    ensures forall i, j | 0 <= i < j < |Categories| :: Categories[i].id != Categories[j].id
  {
  }

  /** Every catalog item starts uncompleted, is a plain (non-outfit) item, and has one of the five categories. */
  lemma CatalogItemsFresh()
    ensures forall t, i | t in Templates && 0 <= i < |t.items| ::
      !t.items[i].isCompleted && t.items[i].isOutfit == None && t.items[i].outfitItems == None
      && IsCategoryId(t.items[i].category)
  {
    forall t, i | t in Templates && 0 <= i < |t.items|
      ensures IsCategoryId(t.items[i].category)
    {
      var c := t.items[i].category;
      assert c == "documents" || c == "clothing" || c == "electronics" || c == "toiletries" || c == "misc";
      if c == "documents" { assert Categories[0].id == c; }
      else if c == "clothing" { assert Categories[1].id == c; }
      else if c == "electronics" { assert Categories[2].id == c; }
      else if c == "toiletries" { assert Categories[3].id == c; }
      else { assert Categories[4].id == c; }
    }
  }

  /** Item ids are distinct within each template. */
  lemma CatalogIdsDistinct()
    ensures forall t | t in Templates :: DistinctIds(t.items)
  {
    SampleIdsDistinct(SampleChecklist);
    OutsideLandsIdsDistinct(OutsideLandsItems);
  }

  lemma SampleIdsDistinct(items: seq<Item>)
    requires items == SampleChecklist
    ensures DistinctIds(items)
  {
    SampleIds0(items);
    SampleIds1(items);
    SampleIds2(items);
    IdsDistinctByRank(items, ["1", "2", "3", "4", "8", "9", "11", "13", "17", "18", "19", "21", "23"]);
  }

  lemma SampleIds0(items: seq<Item>)
    requires items == SampleChecklist
    ensures |items| == 13
    ensures items[0].id == "1" && items[1].id == "2" && items[2].id == "3" && items[3].id == "4" && items[4].id == "8"
  {
  }

  lemma SampleIds1(items: seq<Item>)
    requires items == SampleChecklist
    ensures |items| == 13
    ensures items[5].id == "9" && items[6].id == "11" && items[7].id == "13" && items[8].id == "17" && items[9].id == "18"
  {
  }

  lemma SampleIds2(items: seq<Item>)
    requires items == SampleChecklist
    ensures |items| == 13
    ensures items[10].id == "19" && items[11].id == "21" && items[12].id == "23"
  {
  }

  lemma OutsideLandsIdsDistinct(items: seq<Item>)
    requires items == OutsideLandsItems
    ensures DistinctIds(items)
  {
    OutsideLandsIds0(items);
    OutsideLandsIds1(items);
    OutsideLandsIds2(items);
    OutsideLandsIds3(items);
    IdsDistinctByRank(items, ["ol-1", "ol-2", "ol-3", "ol-4", "ol-5", "ol-6", "ol-8", "ol-9", "ol-11", "ol-13", "ol-17", "ol-18", "ol-19", "ol-20", "ol-21", "ol-22", "ol-23"]);
  }

  lemma OutsideLandsIds0(items: seq<Item>)
    requires items == OutsideLandsItems
    ensures |items| == 17
    ensures items[0].id == "ol-1" && items[1].id == "ol-2" && items[2].id == "ol-3" && items[3].id == "ol-4" && items[4].id == "ol-5"
  {
  }

  lemma OutsideLandsIds1(items: seq<Item>)
    requires items == OutsideLandsItems
    ensures |items| == 17
    ensures items[5].id == "ol-6" && items[6].id == "ol-8" && items[7].id == "ol-9" && items[8].id == "ol-11" && items[9].id == "ol-13"
  {
  }

  lemma OutsideLandsIds2(items: seq<Item>)
    requires items == OutsideLandsItems
    ensures |items| == 17
    ensures items[10].id == "ol-17" && items[11].id == "ol-18" && items[12].id == "ol-19" && items[13].id == "ol-20" && items[14].id == "ol-21"
  {
  }

  lemma OutsideLandsIds3(items: seq<Item>)
    requires items == OutsideLandsItems
    ensures |items| == 17
    ensures items[15].id == "ol-22" && items[16].id == "ol-23"
  {
  }

  /** Items whose ids are a list of strings with increasing ranks have distinct ids. */
  lemma IdsDistinctByRank(items: seq<Item>, ids: seq<string>)
    requires |items| == |ids| && forall i | 0 <= i < |ids| :: items[i].id == ids[i]
    requires forall i | 1 <= i < |ids| :: IdRank(ids[i - 1]) < IdRank(ids[i])
    ensures DistinctIds(items)
  {
    IncreasingRanksDistinct(items);
  }

  /** Orders ids by length, then by their last two characters. */
  function IdRank(id: string): int {
    var b := 0x11_0000;
    |id| * b * b
      + (if |id| >= 2 then id[|id| - 2] as int else 0) * b
      + (if |id| >= 1 then id[|id| - 1] as int else 0)
  }

  /** Ids whose ranks increase from each item to the next are distinct. */
  lemma {:induction false} IncreasingRanksDistinct(items: seq<Item>)
    requires forall i | 1 <= i < |items| :: IdRank(items[i - 1].id) < IdRank(items[i].id)
    ensures forall i, j | 0 <= i < j < |items| :: IdRank(items[i].id) < IdRank(items[j].id)
    ensures DistinctIds(items)
  {
    if items != [] {
      var t := items[1..];
      assert forall i | 0 <= i < |t| :: t[i] == items[i + 1];
      IncreasingRanksDistinct(t);
      forall i, j | 0 <= i < j < |items| ensures IdRank(items[i].id) < IdRank(items[j].id) {
        if i > 0 {
          assert items[i] == t[i - 1] && items[j] == t[j - 1];
        } else if j > 1 {
          assert items[1] == t[0] && items[j] == t[j - 1];
        }
      }
    }
  }

  /** Texts that start with a capital letter and pairwise differ in length or first letter are distinct under case folding. */
  lemma DistinctTextsByPrefix(items: seq<Item>)
    requires forall i | 0 <= i < |items| :: items[i].text != "" && Text.IsUpper(items[i].text[0])
    requires forall i, j | 0 <= i < j < |items| ::
      |items[i].text| != |items[j].text| || items[i].text[0] != items[j].text[0]
    ensures DistinctTexts(items)
  {
    forall i, j | 0 <= i < j < |items| ensures Text.Fold(items[i].text) != Text.Fold(items[j].text) {
      Text.FoldDiffers(items[i].text, items[j].text);
    }
  }

  /** The separation key of DistinctTextsByPrefix holds for the sample checklist. */
  lemma SampleTextsSeparated()
    ensures forall i | 0 <= i < |SampleChecklist| :: SampleChecklist[i].text != "" && Text.IsUpper(SampleChecklist[i].text[0])
    ensures forall i, j | 0 <= i < j < |SampleChecklist| ::
      |SampleChecklist[i].text| != |SampleChecklist[j].text| || SampleChecklist[i].text[0] != SampleChecklist[j].text[0]
  {
  }

  /** The separation key of DistinctTextsByPrefix holds for the Outside Lands items. */
  lemma OutsideLandsTextsSeparated()
    ensures forall i | 0 <= i < |OutsideLandsItems| :: OutsideLandsItems[i].text != "" && Text.IsUpper(OutsideLandsItems[i].text[0])
    ensures forall i, j | 0 <= i < j < |OutsideLandsItems| ::
      |OutsideLandsItems[i].text| != |OutsideLandsItems[j].text| || OutsideLandsItems[i].text[0] != OutsideLandsItems[j].text[0]
  {
  }

  /** Item texts are non-empty and distinct within each template, even ignoring case. */
  lemma CatalogTextsDistinct()
    ensures forall t | t in Templates :: DistinctTexts(t.items)
  {
    SampleTextsSeparated();
    DistinctTextsByPrefix(SampleChecklist);
    OutsideLandsTextsSeparated();
    DistinctTextsByPrefix(OutsideLandsItems);
  }

  /** The two template ids differ, lookups by them find the two templates, and Coachella is the sample event and checklist. */
  lemma CatalogShape()
    ensures |Templates| == 2 && Templates[0].id == "coachella" && Templates[1].id == "outsidelands"
    ensures Templates[0].event == SampleEvent && Templates[0].items == SampleChecklist
    ensures FindCatalogTemplate("coachella") == Some(Templates[0])
    ensures FindCatalogTemplate("outsidelands") == Some(Templates[1])
  {
  }
}
