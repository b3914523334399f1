# ravechecklist.com checklist core, modelled in Dafny

This project models the logic behind the festival packing checklist web app:

- **The data model and catalog.** Items, outfit sub-items, events and templates, the five categories, the sample event and checklist, and the two fixed templates (`data.dfy`).
- **Import and export in the mobile app's format.** Export maps web items to mobile items and wraps them in a versioned envelope. Import accepts an enveloped or bare checklist, validates it with the source's error messages, and rebuilds web items with fresh ids. This is modelled at the JSON-value level, with a parse-failure case and an injected id supply. The round trip is proved. An export containing an item with an empty text or category is refused on import as a whole. Otherwise the round trip is lossy only in ids, sub-item types, the `misc`/`miscellaneous` rename, sub-items on non-outfit items, and a missing `isOutfit`, which comes back as `false` (`import_export.dfy`, `json.dfy`).
- **The three hooks.**
  - The main checklist and the per-template checklist are classes. Each has one item-list field and a key-value store map, and each handler is a method replacing the list. The save effect writes the list only when it is non-empty.
  - Recently viewed templates are a class holding a most-recent-first history of at most ten entries, de-duplicated by id (`use_checklist.dfy`, `use_template_detail.dfy`, `use_template_history.dfy`).
  - The list transforms the handlers share (toggle, remove, edit, change category) and the rounded progress percentage are functions (`checklist_ops.dfy`).
- **The rules embedded in components:**
  - the month/year reading of free-text event dates and the template sort (`templates_page.dfy`);
  - the per-category tally (`category_counts.dfy`);
  - route parsing and the sidebar flag (`layout.dfy`);
  - the navigation highlight (`header.dfy`);
  - outfit completion and the edit/add guards (`outfit_item.dfy`);
  - the category filter and add form (`checklist_card.dfy`);
  - the template builder's schema, guards and preview (`create_template.dfy`);
  - the event card's edit/commit cycle (`event_info_card.dfy`);
  - the update toast's wording (`update_toast.dfy`).

JavaScript semantics are written out where the code depends on them:

- truthiness (`||` defaults, `if (x)` on strings and arrays);
- `trim()` whitespace;
- the regular-expression classes `\w` (ASCII only) and `.` (no line terminators);
- `String.length` in UTF-16 code units;
- reading a property of `null` throwing inside import's `try`.

`Date.now()`, `Math.random()` ids and the browser store are parameters:

- the id supply is a function from call number to id;
- timestamps are integers: the export's own `Date.now()` is one parameter, and the readings `convertItemToMobile` takes, one per exported item, are a second supply indexed by the item's position;
- each hook's store is a map from key to the value stored there.

Three behaviours of the code are easy to overlook:

- export emits `subItems` whenever `outfitItems` is present, whatever `isOutfit` says;
- import rebuilds sub-items only when `isOutfit && subItems` is truthy;
- `useTemplateDetail`'s progress has no guard for an empty list (it is `NaN` there, modelled as `None`).

## Model

| member | source | states |
|---|---|---|
| Data.CategoryIdsDistinct | src/utils/data.ts:24-30 | there are five category ids, pairwise distinct, and the first is `documents` |
| Data.CatalogItemsFresh | src/utils/data.ts:39-53 | every catalog item is uncompleted, plain (no outfit fields) and has one of the five category ids |
| Data.CatalogIdsDistinct | src/utils/data.ts:73-91 | item ids are distinct within each template |
| Data.CatalogTextsDistinct | src/utils/data.ts:40-52 | item texts are non-empty and distinct within each template, even ignoring ASCII case |
| Data.DistinctTextsByPrefix | src/utils/data.ts:74-90 | texts starting with a capital letter that differ pairwise in length or first letter are distinct under case folding |
| Data.CatalogShape | src/utils/data.ts:56-94 | two templates, `coachella` then `outsidelands`; Coachella's event and items are the sample event and checklist; lookups by the two ids find them |
| Data.FindTemplate | src/hooks/useTemplateDetail.ts:10 | `find` by id: none exactly when no template has the id, otherwise the first one that has it |
| ImportExport.DrawSplit | src/utils/importExport.ts:47-49 | drawing `a` then `b` ids from the supply is drawing `a + b` ids |
| ImportExport.CategoryToMobile | src/utils/importExport.ts:54 | the exported category is never `misc`; it is the item's own category exactly when that is not `misc` |
| ImportExport.CategoryToWeb | src/utils/importExport.ts:74 | the imported category is never `miscellaneous`; it is the mobile category exactly when that is not `miscellaneous` |
| ImportExport.CategoryRoundTrip | src/utils/importExport.ts:39-45 | mobile→web undoes web→mobile except on `miscellaneous`, web→mobile undoes mobile→web except on `misc`; all other ids pass through both |
| ImportExport.ItemToMobile | src/utils/importExport.ts:52-70 | an object with exactly the seven fields `id`, `name`, `category`, `checked`, `isOutfit`, `createdAt`, `updatedAt`, plus `subItems` exactly when `outfitItems` is present |
| ImportExport.ItemsToMobile | src/utils/importExport.ts:103 | one mobile item per web item, in order, each converted with its own timestamp reading |
| ImportExport.ExportItemFields | src/utils/importExport.ts:52-70 | each exported item keeps its id, `name = text`, `checked = isCompleted`, the mapped category, a boolean `isOutfit` (missing is false), and `subItems` exactly when `outfitItems` is present, one `{id, name, checked}` per sub-item; `createdAt` and `updatedAt` are both that item's own timestamp |
| ImportExport.ChecklistName | src/utils/importExport.ts:102 | the checklist name is the event name, or `My Festival Checklist` when that is empty; never empty |
| ImportExport.ExportChecklist | src/utils/importExport.ts:97-115 | the envelope has exactly the fields `version`, `exportedAt`, `checklist`, and the checklist exactly `id`, `name`, `items`, `createdAt`, `updatedAt` |
| ImportExport.ExportEnvelope | src/utils/importExport.ts:97-115 | the envelope has version `1.0` and the export time; the checklist has the generated id, the export time as both timestamps, the event name or the default, and the exported items with their own timestamps |
| ImportExport.SelectChecklist | src/utils/importExport.ts:132 | the `checklist` field when truthy, otherwise the payload itself; never `null` |
| ImportExport.ValidateItems | src/utils/importExport.ts:139-143 | no error exactly when every item has a truthy name and category; otherwise the error of the first failing item |
| ImportExport.SubItemsToWeb | src/utils/importExport.ts:85-90 | succeeds exactly when no sub-item is `null`; one rebuilt sub-item per mobile sub-item with the supply's next ids, type `accessories`, `name`/`checked` copied |
| ImportExport.ItemToWeb | src/utils/importExport.ts:73-94 | succeeds exactly on convertible items; the result is rebuilt from the mobile item with fresh ids, and the id counter advances past them |
| ImportExport.ItemsToWeb | src/utils/importExport.ts:146 | a converted list has one web item per mobile item, and the id supply only moves forward |
| ImportExport.ItemsToWebSucceeds | src/utils/importExport.ts:146 | converting the list succeeds exactly when every item is convertible |
| ImportExport.ItemsToWebRebuilt | src/utils/importExport.ts:146 | each converted item is its own mobile item's conversion, position by position |
| ImportExport.ItemsToWebIds | src/utils/importExport.ts:77-86 | the ids of all rebuilt items and sub-items are the supply's next values, in generation order |
| ImportExport.ValidateAndImportChecklist | src/utils/importExport.ts:127-155 | every error is one of the three messages the source returns |
| ImportExport.IsImportError | src/utils/importExport.ts:191-193 | true exactly for the outcomes that are not an import result |
| ImportExport.ImportAcceptsExactly | src/utils/importExport.ts:127-155 | import succeeds exactly on the declaratively accepted payloads, and `isImportError` is its negation |
| ImportExport.ImportErrorCases | src/utils/importExport.ts:129-154 | unparseable text or `null` gives `Invalid JSON format`; a falsy name or non-array items gives the format error; the first failing item gives the item error, or the JSON error when it is `null` |
| ImportExport.ImportedFields | src/utils/importExport.ts:146-151 | on success the name is the checklist's, there is one item per mobile item, each rebuilt from it, and all ids come fresh from the supply |
| ImportExport.AsSubItems | src/utils/importExport.ts:85-90 | reading rebuilt sub-items as typed values succeeds exactly when each one does, keeping count and order |
| ImportExport.ExportedItemAccepted | src/utils/importExport.ts:52-70 | an exported item with non-empty text and category passes validation and converts |
| ImportExport.RebuiltIsReimported | src/utils/importExport.ts:73-94 | importing an exported item restores its text, category (up to the rename), completion and `isOutfit`, and its sub-items' text and completion when it is an outfit |
| ImportExport.ExportImportRoundTrip | src/utils/importExport.ts:97-155 | importing an export with non-empty texts and categories succeeds, names the checklist as exported, and gives back one re-imported item per item, in order |
| ImportExport.ExportImportRefusesEmpty | src/utils/importExport.ts:140-141 | an export containing an item with empty text or category is refused on import |
| ImportExport.ExportImportLossless | src/utils/importExport.ts:52-94 | on items outside the lossy cases the round trip restores every item exactly, ids aside |
| ChecklistOps.Toggle | src/hooks/useChecklist.ts:28-34 | same length; items with the id have `isCompleted` flipped, all other items and fields are unchanged |
| ChecklistOps.ToggleTwice | src/hooks/useChecklist.ts:30-32 | toggling the same id twice restores the list |
| ChecklistOps.ToggleUnknown | src/hooks/useChecklist.ts:30-32 | toggling an id no item has changes nothing |
| ChecklistOps.ChangeCategory | src/hooks/useChecklist.ts:77-82 | only the category of the items with the id changes |
| ChecklistOps.Edit | src/hooks/useTemplateDetail.ts:79-82 | items with the id get the new text and category, keeping id and completion; others unchanged |
| ChecklistOps.EditToSame | src/hooks/useTemplateDetail.ts:80-82 | editing an item with its own text and category, in a list with distinct ids, changes nothing |
| ChecklistOps.Remove | src/hooks/useChecklist.ts:63-66 | keeps exactly the items whose id differs |
| ChecklistOps.RemoveConcat | src/hooks/useChecklist.ts:66 | removal distributes over concatenation, so kept items stay in order |
| ChecklistOps.RemoveCount | src/hooks/useChecklist.ts:66 | the length drops by exactly the number of items with the id; an unknown id changes nothing |
| ChecklistOps.RemoveIdempotent | src/hooks/useTemplateDetail.ts:65-68 | removing the same id twice is removing it once |
| ChecklistOps.NewItem | src/hooks/useChecklist.ts:46-54 | the added item has the given id, text and category and is uncompleted and plain |
| ChecklistOps.CompletedCount | src/components/ChecklistCard.tsx:74 | the completed count is at most the total, equals it exactly when all are completed, and is zero exactly when none is |
| ChecklistOps.RoundedPercent | src/hooks/useChecklist.ts:104-108 | a whole percentage within half a point of the exact share, between 0 and 100, 0 for none and 100 for all |
| ChecklistOps.Progress | src/hooks/useChecklist.ts:104-108 | 0 for an empty list, 100 when every item is completed, 0 when none is, always at most 100 |
| UseChecklist.InitialChecklist | src/hooks/useChecklist.ts:11-18 | the stored `mainChecklist` list when there is one, otherwise the sample checklist |
| UseChecklist.Saved | src/hooks/useChecklist.ts:22-26 | the store is written with the list only when the list is non-empty |
| UseChecklist.ChecklistHook.constructor | src/hooks/useChecklist.ts:11-26 | mounting loads the initial list and saves it, leaving the store in sync |
| UseChecklist.ChecklistHook.HandleToggleItem | src/hooks/useChecklist.ts:28-34 | the list becomes its toggle and is saved; the store stays in sync |
| UseChecklist.ChecklistHook.HandleAddItem | src/hooks/useChecklist.ts:46-54 | the new item is appended and the list saved under `mainChecklist` |
| UseChecklist.ChecklistHook.HandleRemoveItem | src/hooks/useChecklist.ts:63-66 | the list is filtered by id; an emptied list leaves the store as it was |
| UseChecklist.ChecklistHook.HandleChangeCategory | src/hooks/useChecklist.ts:77-82 | the matching items' category is rewritten and the list saved when non-empty |
| UseChecklist.ChecklistHook.HandleResetTemplate | src/hooks/useChecklist.ts:93-95 | the list becomes the sample checklist and the store gets it at once |
| UseTemplateDetail.StorageKeysSeparate | src/hooks/useTemplateDetail.ts:15 | `template_<id>` keys differ exactly when the ids differ, and never equal `mainChecklist` |
| UseTemplateDetail.LookupTemplate | src/hooks/useTemplateDetail.ts:10 | an undefined id finds nothing; a found template is in the catalog with that id; not found means no catalog template has it |
| UseTemplateDetail.InitialChecklist | src/hooks/useTemplateDetail.ts:13-23 | empty without a template; otherwise the stored copy when present, else the template's items |
| UseTemplateDetail.Saved | src/hooks/useTemplateDetail.ts:26-31 | written under the template's key only when there is a template and the list is non-empty |
| UseTemplateDetail.TemplateDetailHook.constructor | src/hooks/useTemplateDetail.ts:10-31 | an unknown id leaves the template undefined, the list empty and the store untouched |
| UseTemplateDetail.TemplateDetailHook.HandleToggleItem | src/hooks/useTemplateDetail.ts:33-36 | toggle, then conditional save |
| UseTemplateDetail.TemplateDetailHook.HandleAddItem | src/hooks/useTemplateDetail.ts:48-56 | append one uncompleted item, then conditional save |
| UseTemplateDetail.TemplateDetailHook.HandleRemoveItem | src/hooks/useTemplateDetail.ts:65-68 | filter by id; an emptied list is not written |
| UseTemplateDetail.TemplateDetailHook.HandleEditItem | src/hooks/useTemplateDetail.ts:79-82 | edit text and category of the matching items, then conditional save |
| UseTemplateDetail.TemplateDetailHook.HandleResetTemplate | src/hooks/useTemplateDetail.ts:91-95 | the template's items, written under its key; nothing at all without a template |
| UseTemplateDetail.ProgressPercentage | src/hooks/useTemplateDetail.ts:105-107 | undefined (`NaN`) exactly for the empty list; otherwise at most 100, 100 when all completed, 0 when none |
| UseTemplateHistory.WithoutId | src/hooks/useTemplateHistory.ts:40 | keeps exactly the entries with other ids, never more entries than before; order from `WithoutConcat` and count from `WithoutCount` |
| UseTemplateHistory.WithoutConcat | src/hooks/useTemplateHistory.ts:40 | filtering distributes over concatenation, so the kept entries stay in their relative order |
| UseTemplateHistory.WithoutCount | src/hooks/useTemplateHistory.ts:40 | the length drops by exactly the number of entries with the id |
| UseTemplateHistory.WithoutAbsent | src/hooks/useTemplateHistory.ts:40 | filtering an id that does not occur changes nothing |
| UseTemplateHistory.WithoutPresent | src/hooks/useTemplateHistory.ts:40 | in a duplicate-free history, filtering a present id removes exactly one entry |
| UseTemplateHistory.WithoutUnique | src/hooks/useTemplateHistory.ts:40 | in a duplicate-free history, filtering the id at position `k` removes exactly that entry and keeps the rest in order |
| UseTemplateHistory.WithoutKeepsDistinct | src/hooks/useTemplateHistory.ts:40 | filtering keeps ids distinct |
| UseTemplateHistory.AddEntry | src/hooks/useTemplateHistory.ts:38-53 | the new entry first, its id nowhere else, then a prefix of the filtered history, at most ten in all |
| UseTemplateHistory.AddKeepsDistinct | src/hooks/useTemplateHistory.ts:40-53 | adding keeps the history free of duplicate ids |
| UseTemplateHistory.AddNewToFull | src/hooks/useTemplateHistory.ts:53 | a new id added to a full history drops the oldest entry |
| UseTemplateHistory.AddNewWithRoom | src/hooks/useTemplateHistory.ts:43-50 | a new id added to a history with room is prepended, everything else kept |
| UseTemplateHistory.ReAddKeepsLength | src/hooks/useTemplateHistory.ts:40-53 | re-adding a present id keeps the length |
| UseTemplateHistory.ReAddMovesToFront | src/hooks/useTemplateHistory.ts:38-53 | in a duplicate-free history, re-adding the id at position `k` gives the new entry followed by the entries before and after `k` in their old order, cut to ten |
| UseTemplateHistory.LastViewedOnLoad | src/hooks/useTemplateHistory.ts:23-28 | none for an empty history; otherwise a catalog template with the first entry's id, if any |
| UseTemplateHistory.TemplateHistoryHook.constructor | src/hooks/useTemplateHistory.ts:15-31 | the stored history, or empty; last viewed looked up from its first entry |
| UseTemplateHistory.TemplateHistoryHook.AddToHistory | src/hooks/useTemplateHistory.ts:33-62 | an unknown id changes nothing; otherwise the history is the updated list, stored under `templateViewHistory`, and the template becomes last viewed |
| TemplatesPage.LeadingWord | src/pages/Templates.tsx:23 | the longest prefix of word characters: all word characters, and the next character is not one |
| TemplatesPage.MonthIndex | src/pages/Templates.tsx:17-20 | the index of a full month name, otherwise 0 |
| TemplatesPage.FirstRunFrom | src/pages/Templates.tsx:24 | the first position holding four digits, or none when there is none |
| TemplatesPage.YearAt | src/pages/Templates.tsx:29 | the value of four digits, at most 9999 |
| TemplatesPage.DateInfo | src/pages/Templates.tsx:16-34 | month below 12; `(0, 3000)` when there is no leading word or no four-digit run |
| TemplatesPage.DateInfoReads | src/pages/Templates.tsx:26-30 | when both match, the month is the leading word's month index and the year is the first four-digit run |
| TemplatesPage.DateInfoIs | src/pages/Templates.tsx:23-30 | a date whose word ends at `n` and whose first run is at `i` reads as that month and year |
| TemplatesPage.Compare | src/pages/Templates.tsx:36-44 | zero exactly when both dates read as the same (month, year); negative whenever the first year is earlier |
| TemplatesPage.CompareByKey | src/pages/Templates.tsx:40-44 | the comparator orders by year then month: negative exactly when the key is smaller, zero exactly for equal (month, year), antisymmetric |
| TemplatesPage.Insert | src/pages/Templates.tsx:14 | inserting into a key-ordered list keeps it ordered and adds exactly that template |
| TemplatesPage.SortBy | src/pages/Templates.tsx:14 | the sorted list is ordered by key and a permutation of its input |
| TemplatesPage.SortByDate | src/pages/Templates.tsx:14-45 | the same templates, each no later than the next by the comparator |
| TemplatesPage.CoachellaDate | src/utils/data.ts:34 | `April 11-13 & 18-20, 2025` reads as April 2025 |
| TemplatesPage.OutsideLandsDate | src/utils/data.ts:69 | `August 9-11, 2024` reads as August 2024 |
| TemplatesPage.CatalogOrder | src/pages/Templates.tsx:14-45 | the shipped catalog sorts Outside Lands before Coachella |
| TemplatesPage.CatalogCategoryTables | src/pages/Templates.tsx:96-100 | each catalog card's category counts sum to its item count, every row at least one |
| CategoryCounts.Bump | src/pages/Templates.tsx:98 | one reduce step adds one to the category's row, or appends `(c, 1)` for a new category |
| CategoryCounts.BumpTotal | src/pages/Templates.tsx:98 | one step adds one to the total |
| CategoryCounts.CountByCategory | src/pages/Templates.tsx:96-100 | one row per distinct category of the items, none twice |
| CategoryCounts.CountByCategoryOrder | src/pages/Templates.tsx:96-100 | the rows come in order of each category's first appearance among the items |
| CategoryCounts.CountByCategoryCounts | src/pages/Templates.tsx:96-100 | every row counts exactly its category's items (so at least one), and the rows sum to the item count |
| Layout.MatchRest | src/components/Layout.tsx:26 | matches exactly when the path is the prefix followed by a non-empty rest without line breaks, and captures that rest |
| Layout.CurrentTemplateId | src/components/Layout.tsx:25-33 | an id is non-empty, has no line break, and follows `/checklist/` or `/templates/` |
| Layout.CurrentTemplateIdIff | src/components/Layout.tsx:25-33 | a route names `id` exactly when it is either prefix followed by `id`, non-empty and without line breaks (including further slashes) |
| Layout.BarePrefixesNameNothing | src/components/Layout.tsx:26-32 | either prefix with nothing after it, and `/`, name no template |
| Layout.SelectThenRead | src/components/Layout.tsx:38-40 | the route a selection navigates to reads back as the selected id |
| Layout.SelectTemplatePath | src/components/Layout.tsx:39 | the route is `/checklist/` followed by the id |
| Layout.Sidebar.constructor | src/components/Layout.tsx:14-22 | the stored flag, closed when nothing is stored, then written back |
| Layout.Sidebar.Toggle | src/components/Layout.tsx:20-22 | the flag flips and the store tracks it |
| Header.IsActive | src/components/Header.tsx:8-10 | active exactly when the route starts with the path (the equality test adds nothing) |
| Header.DashboardHighlighted | src/components/Header.tsx:29 | exactly when the route starts with `/` and not with `/templates` |
| Header.TemplatesHighlighted | src/components/Header.tsx:37 | exactly when the route starts with `/templates` |
| Header.RootAlwaysActive | src/components/Header.tsx:9 | every route beginning with `/` makes `/` active |
| Header.ExactlyOneHighlighted | src/components/Header.tsx:29-37 | on a route beginning with `/` exactly one link is highlighted |
| Header.TemplatesPrefixOnly | src/components/Header.tsx:37 | `/templatesX` highlights Templates, not Dashboard; `/` and `/checklist/...` highlight Dashboard |
| OutfitItem.SubItemsOf | src/components/OutfitItem.tsx:77 | a missing sub-item list reads as empty |
| OutfitItem.CompletedSubItems | src/components/OutfitItem.tsx:78-79 | at most the total, equal to it exactly when every sub-item is completed |
| OutfitItem.ShownCompleted | src/components/OutfitItem.tsx:83-85 | with sub-items, complete exactly when all are; without, the item's own flag |
| OutfitItem.OwnFlagIgnored | src/components/OutfitItem.tsx:83-84 | with sub-items, the item's own flag has no effect on the shown completion |
| OutfitItem.OutfitItemState.constructor | src/components/OutfitItem.tsx:48-54 | closed dialog, the item's text and category as draft, empty sub-item form of type `top` |
| OutfitItem.OutfitItemState.EditClick | src/components/OutfitItem.tsx:56-60 | the draft is reset to the item's text and category and the dialog opens |
| OutfitItem.OutfitItemState.SaveEdit | src/components/OutfitItem.tsx:62-67 | `onEdit` is called with the untrimmed draft exactly when it exists and the draft is not blank; the dialog closes either way |
| OutfitItem.OutfitItemState.AddSubItem | src/components/OutfitItem.tsx:69-75 | the callback is called exactly when it exists and the draft is not blank, and only then is the draft cleared and the form closed |
| ChecklistCard.InCategory | src/components/ChecklistCard.tsx:32 | keeps exactly the items of the category |
| ChecklistCard.InCategoryConcat | src/components/ChecklistCard.tsx:32 | filtering distributes over concatenation, so the original order is kept |
| ChecklistCard.InCategoryCount | src/components/ChecklistCard.tsx:32 | the filtered list's length is the category's item count |
| ChecklistCard.FilteredItems | src/components/ChecklistCard.tsx:31-33 | all items when the filter is null or empty; otherwise exactly the filter category's items, in order |
| ChecklistCard.FilteredShowsCategory | src/components/ChecklistCard.tsx:31-33 | a filter shows exactly its category's items, as many as there are |
| ChecklistCard.CardState.constructor | src/components/ChecklistCard.tsx:26-28 | empty draft, `categories[0].id` (`documents`) selected, no filter |
| ChecklistCard.CardState.AddItem | src/components/ChecklistCard.tsx:35-40 | a non-blank draft is passed untrimmed with the selected category and cleared; a blank one is left and nothing is called |
| ChecklistCard.CardState.KeyDown | src/components/ChecklistCard.tsx:42-46 | Enter does exactly what Add does; other keys do nothing |
| CreateTemplate.FormValid | src/pages/CreateTemplate.tsx:17-33 | a valid form has no empty field and a name of at least two characters |
| CreateTemplate.FormErrors | src/pages/CreateTemplate.tsx:17-33 | no messages exactly when the form is valid; each field's message appears exactly when that field is too short: the name under 3 code units, each event field under 2 |
| CreateTemplate.FormLengths | src/pages/CreateTemplate.tsx:17-33 | the empty defaults fail all five rules; values with enough characters pass them all |
| CreateTemplate.Submit | src/pages/CreateTemplate.tsx:83-98 | invalid forms give their messages; a valid form with no items is refused; otherwise the event is built from the four event fields |
| CreateTemplate.CategoryName | src/pages/CreateTemplate.tsx:364-367 | a name exactly for the five category ids, the name of that category |
| CreateTemplate.PreviewRows | src/pages/CreateTemplate.tsx:358-371 | one line per category row of the reduce, with its name and count |
| CreateTemplate.PreviewTotal | src/pages/CreateTemplate.tsx:358-362 | the preview's counts sum to the item count, each at least one |
| CreateTemplate.Builder.constructor | src/pages/CreateTemplate.tsx:38-40 | no items, empty draft, first category |
| CreateTemplate.Builder.AddItem | src/pages/CreateTemplate.tsx:53-77 | a blank draft is refused with nothing changed; otherwise one uncompleted item with the untrimmed draft and the selected category is appended and the draft cleared |
| CreateTemplate.Builder.RemoveItem | src/pages/CreateTemplate.tsx:79-81 | keeps the items with other ids, in order |
| EventInfoCard.WithField | src/components/EventInfoCard.tsx:41-46 | the named field takes the value; every other field is unchanged |
| EventInfoCard.WithSameField | src/components/EventInfoCard.tsx:42-45 | setting a field to its own value changes nothing |
| EventInfoCard.Card.constructor | src/components/EventInfoCard.tsx:16-17 | viewing, with the event as draft |
| EventInfoCard.Card.SaveEventChanges | src/components/EventInfoCard.tsx:20-28 | the draft becomes the event and editing ends |
| EventInfoCard.Card.ToggleEditEvent | src/components/EventInfoCard.tsx:30-39 | from editing: commit and view; from viewing: copy the event to the draft and edit |
| EventInfoCard.Card.HandleEventChange | src/components/EventInfoCard.tsx:41-46 | only the named draft field changes; the event waits for a commit |
| EventInfoCard.Card.KeyDown | src/components/EventInfoCard.tsx:48-52 | Enter commits the draft and leaves editing; other keys change nothing |
| UpdateToast.OrElse | src/lib/utils.ts:33-34 | the given text when present and non-empty, otherwise the fallback |
| UpdateToast.DurationOf | src/lib/utils.ts:29 | the given duration when present and non-zero, otherwise 2000; never zero |
| UpdateToast.ShowUpdateToast | src/lib/utils.ts:24-37 | one toast: the changed wording with changes, the unchanged wording with its defaults without; the duration rule; no variant |
| UpdateToast.UnchangedDefaults | src/lib/utils.ts:31-36 | with no options, the unchanged toast says `No changes made` / `Item remains unchanged` for 2000 ms |
| UpdateToast.UnchangedWordingNonEmpty | src/lib/utils.ts:33-34 | the unchanged title and description are never empty |
| Text.TrimEmptyIffBlank | src/components/ChecklistCard.tsx:36 | `trim()` gives the empty string exactly when every character is whitespace |

## Left out

- The clipboard helpers (`copyToClipboard`, `readFromClipboard`) are browser I/O.
- JSON text is not modelled. `JSON.stringify`/`JSON.parse` are a structured value plus a parse-failure case, and numbers are reals.
- Property reads on objects see only own fields. Keys inherited from `Object.prototype` are not modelled in the category tables (`categoryToWeb["constructor"]`) or in the month table (`months["constructor"]`).
- Key coercion of non-string categories in the lookup tables is not modelled.
- `Object.entries` lists integer-like keys first. The category rows are in first-appearance order, which differs only for integer-like category ids.
- Toasts other than `showUpdateToast` are presentation. Their text and timing are not modelled.
- React effect scheduling is not modelled: each handler is followed at once by the save effect. The browser store is a map per hook, holding the value type that hook stores.
- Merge and autofill, change detection, base-checklist loading, the import/export handlers and the outfit sub-item handlers have no implementation in the files modelled, so they are not modelled.
- Theming, rendering, routing and static pages are not modelled.
- The date comparators and date formatting of the sidebar and template selector are not modelled. They depend on `Date`, the wall clock and `date-fns`.
- ChecklistOps.RoundedPercent: computes the percentage on exact rationals; floating-point rounding error at `.5` boundaries is not modelled.
- UseTemplateDetail.ProgressPercentage: `NaN` for the empty list is `None`; nothing else about `NaN` is modelled.
- TemplatesPage.SortByDate: states order and permutation only. Stability (equal dates keep their catalog order) is not proved, although the insertion sort modelling it is stable.
- UpdateToast.DurationOf: a `NaN` duration, also falsy, is not modelled.
- Layout.Sidebar.constructor: the stored value is taken to be a boolean. Other JSON stored under `sidebarOpen` is not modelled.
- `Date.now().toString()` ids for added items are parameters. Nothing is claimed about their uniqueness.
