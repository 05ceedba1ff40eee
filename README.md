# Data portal front end — a verified model of its logic

The data portal is a React single-page application. Users browse the
datasets they can open, the reports and APIs on offer, and a catalog of
items they can request access to. A cart turns selected catalog items into
an access request. A search box in the navigation bar jumps to portal pages.
Two chat helpers answer questions:

- the "Portal Helper" widget, which picks a fixed reply by keyword;
- an intent engine, which reads a free-text message and decides what the
  user wants and which dataset the message is about.

This project models the logic behind those screens in Dafny and proves what
it promises. The model has one module per source file, plus four shared
modules:

- `Common`: `Option`, the `Fetch` result of a request, and an
  order-keeping `Filter`.
- `Text`: ASCII `toLowerCase`, the `\s` class and `trim`, `includes`,
  run replacement, `join`, string `sort` and `new Set`.
- `Json`: table records and cell rendering.
- `Csv`: the export, and a reader for the same dialect, so that the export
  can be stated as a round trip.

The other modules:

- `QuickPins`: the pin toggle that the Reports and APIs pages share.
- `Search`: the search boxes of the Data, Reports and APIs pages.
- `KnowledgeMap`: the registry of eleven accessible datasets and three
  restricted sources.
- `IntentEngine`: `normalize`, `findDatasetKey` and `interpretIntent`.
- `DataPage`, `AnalyticsPage`, `ApisPage`, `CatalogPage`, `CartPage`: the
  pages.
- `GlobalSearchBox` and `ChatBotWidget`: the two components.

Form follows the source:

- Component state that handlers replace is a class. Each handler is a
  method whose `ensures` gives the new value of every field.
- What the page computes from that state (filters, categories, CSV text,
  answers) is a function, with lemmas about it.
- A request's answer (`fetch` and `json()`) is a parameter of the method
  that receives it, a `Fetch` value that is either loaded or failed.

The intent engine applies its regular expressions to normalised text. In
normalised text every whitespace run is one space, and there is none at
either end (`IntentEngine.NormalizeIsNormal`). On such text each pattern
can match only the substrings listed for it, so each pattern is modelled as
that finite set of substrings. For example,
`/(my|available)\s+datasets?/` becomes "my dataset" or "available dataset"
occurring in the message.

`interpretIntent` is split into three layers:

- `Passes`: the outcome of the seven tests;
- `Choose`: the if-chain over those outcomes, the key found, the
  context's key and `groupField`;
- `Wording`: the response text.

The properties of the chain are stated over `Choose` for every combination
of test outcomes, so they also hold for the outcomes of any actual message.

## Model

| member | source | states |
|---|---|---|
| IntentEngine.NormalizeIsNormal | src/data/IntentEngine.ts:29-30 | `normalize` output has no upper-case letter and no `_` or `-`, its only whitespace is single spaces, no two whitespace characters are adjacent, there is none at either end, and it is never longer than the input |
| IntentEngine.NormalizeFixed | src/data/IntentEngine.ts:29-30 | text that already has that shape is left unchanged by `normalize` |
| IntentEngine.NormalizeIdempotent | src/data/IntentEngine.ts:29-30 | normalising twice equals normalising once |
| IntentEngine.FirstHitSpec | src/data/IntentEngine.ts:48-53 | the search loop returns nothing exactly when no key passes; otherwise it returns a passing key that no passing key precedes |
| IntentEngine.FirstHitCovers | src/data/IntentEngine.ts:48-58 | over a list holding every key, the search fails exactly when no key passes, and a key it returns passes |
| IntentEngine.FirstHitEarliest | src/data/IntentEngine.ts:48-53 | over the registry, a search that some key passes succeeds, and what it returns stands no later in registry order than any passing key |
| IntentEngine.KeyMentionedNone | src/data/IntentEngine.ts:46-60 | `findDatasetKey` returns undefined exactly when the normalised message contains no key's label and none of its aliases |
| IntentEngine.KeyMentionedNamed | src/data/IntentEngine.ts:46-60 | a key that is found is named in the message by its label or by one of its aliases |
| IntentEngine.KeyMentionedByLabel | src/data/IntentEngine.ts:48-53 | when the message contains some label, the key found is named by its label and is the first such key in registry order, whatever aliases of earlier keys also occur |
| IntentEngine.KeyMentionedByAlias | src/data/IntentEngine.ts:54-58 | when no label occurs, the key found is named by an alias and is the first such key in registry order |
| IntentEngine.KeyMentionedNormalized | src/data/IntentEngine.ts:47 | `findDatasetKey` gives the same key for a message and for its normalised form, so the call on the normalised message inside `interpretIntent` is the same as a call on the raw one |
| IntentEngine.FirstByFrom | src/data/IntentEngine.ts:153 | the leftmost position at which `/by ([a-zA-Z0-9_ ]+)/` can match, or none when it cannot match anywhere |
| IntentEngine.ByCaptureFound | src/data/IntentEngine.ts:153 | the capture exists exactly when "by " followed by a field character occurs; it is non-empty, holds only field characters, and occurs right after a "by " |
| IntentEngine.CaptureStartsSolid | src/data/IntentEngine.ts:153 | in normalised text the capture never starts with whitespace |
| IntentEngine.GroupFieldShape | src/data/IntentEngine.ts:153-154 | in a normalised message with a "by <field>" phrase, `groupField` is non-empty and holds no whitespace, because inner spaces become `_` |
| IntentEngine.FirstMatch | src/data/IntentEngine.ts:67-186 | the intent is the i-th of help, catalog, list_datasets, list_fields, count, chart, group exactly when the i-th test passes and no earlier test does |
| IntentEngine.FallThrough | src/data/IntentEngine.ts:189-214 | when no test passes, the intent is `dataset` if the message names a key and `unknown` otherwise; the context plays no part |
| IntentEngine.ContextOnlyFillsIn | src/data/IntentEngine.ts:109-186 | the context's key never changes the intent, and it changes nothing at all in results whose intent does not work on a dataset |
| IntentEngine.NamedDatasetWins | src/data/IntentEngine.ts:109-174 | for list_fields, count, chart and group, a key named in the message wins over the context's key, which is only the fallback; with neither, the result has no key, loads nothing and asks the intent's clarifying question |
| IntentEngine.DatasetFromMessageOnly | src/data/IntentEngine.ts:189-204 | the `dataset` intent arises only from a key found in the message; it carries that key, that key's fixture path and its summary |
| IntentEngine.PathsAgree | src/data/IntentEngine.ts:81-214 | a result with both a key and a path loads that key's fixture; `catalog` loads the restricted catalog path and names no key; help, list_datasets, list_fields and unknown load nothing; only `catalog` has a path without a key |
| IntentEngine.HelpFirst | src/data/IntentEngine.ts:67-78 | any normalised message that contains "help" is classified as `help` |
| IntentEngine.AvailableDatasetsTests | src/data/IntentEngine.ts:81-93 | "available datasets" passes both the catalog test and the list test |
| IntentEngine.AvailableDatasetsIsCatalog | src/data/IntentEngine.ts:81-105 | a message without help phrases that contains "available datasets" also passes the list test, yet is classified as `catalog`, whatever dataset, context and field go with it |
| IntentEngine.CatalogFirst | src/data/IntentEngine.ts:67-88 | with the help test failing and the catalog test passing, the intent is `catalog` whatever later tests pass |
| IntentEngine.GroupsLabelHasGroup | src/data/IntentEngine.ts:167 | a message containing the label "active directory groups" passes the group test |
| IntentEngine.GroupsLabelMeansGroup | src/data/IntentEngine.ts:167-204 | unless an earlier test passes, a message naming "active directory groups" is a grouping request, so that dataset's summary is never reached through its own label |
| IntentEngine.DecideUsesMentionedKey | src/data/IntentEngine.ts:109-110 | the key the interpreter works with is the key `findDatasetKey` finds in the raw message |
| IntentEngine.NormalizedMessage | src/data/IntentEngine.ts:63-64 | interpreting an already normalised message gives the same result as interpreting the raw message |
| IntentEngine.ListedNamesComplete | src/data/IntentEngine.ts:96-98 | the sorted display names number eleven and include every key with underscores shown as spaces |
| IntentEngine.DisplayNames | src/data/IntentEngine.ts:96-97 | one display name per registry key, in registry order, each the key with `_` replaced by a space |
| IntentEngine.ListAnswerCounts | src/data/IntentEngine.ts:101-103 | the list answer begins with "You currently have access to N dataset(s):", where N is the number of names listed |
| IntentEngine.ListAnswerNames | src/data/IntentEngine.ts:101-103 | the list answer contains every name it lists |
| IntentEngine.ListTextCounts | src/data/IntentEngine.ts:96-103 | the `list_datasets` answer begins with the count of eleven datasets |
| IntentEngine.ListHeadEleven | src/data/IntentEngine.ts:102 | that first line reads "You currently have access to 11 dataset(s):" |
| IntentEngine.ListTextNamesAll | src/data/IntentEngine.ts:96-103 | the `list_datasets` answer names every dataset as the user reads it |
| IntentEngine.AnswerNamesField | src/data/IntentEngine.ts:156-183 | a chart or group answer with a non-empty field contains that field |
| KnowledgeMap.KeyNameInjective | src/data/KnowledgeMap.ts:162 | different keys have different names |
| KnowledgeMap.Position | src/data/KnowledgeMap.ts:5-141 | every key has a position below eleven in the registry |
| KnowledgeMap.KeyAt | src/data/KnowledgeMap.ts:5-141 | the key at a position is the key whose position that is |
| KnowledgeMap.AccessibleInOrder | src/data/KnowledgeMap.ts:5-141 | the registry has exactly eleven entries, each at its own position, none twice |
| KnowledgeMap.AllKeysAccessible | src/data/KnowledgeMap.ts:5-162 | every `DatasetKey` is listed in the registry |
| KnowledgeMap.KeyFieldsDistinct | src/data/KnowledgeMap.ts:10-134 | every entry has key fields, and none of them is listed twice |
| KnowledgeMap.EntryDescribed | src/data/KnowledgeMap.ts:6-140 | every accessible entry has a non-empty description and at least two insights |
| KnowledgeMap.DataPathShape | src/data/KnowledgeMap.ts:7-124 | every dataset's fixture is `/mock/data/` followed by the key's name and `.json` |
| KnowledgeMap.DataPathInjective | src/data/KnowledgeMap.ts:7-124 | two datasets with the same fixture path are the same dataset: each has a fixture of its own |
| KnowledgeMap.RestrictedIsNotADataset | src/data/KnowledgeMap.ts:143-159 | no restricted path is the path of an accessible dataset |
| Text.ToLower | src/data/IntentEngine.ts:30 | lower-casing keeps the length, leaves no upper-case letter, changes only upper-case letters, and changes nothing in text without them |
| Text.TrimSpec | src/data/IntentEngine.ts:30 | `trim` returns the slice of the text between its leading and trailing whitespace runs; the slice neither starts nor ends with whitespace |
| Text.BlankIff | src/pages/Cart.tsx:48 | a text trims to nothing exactly when it consists only of whitespace |
| Text.Collapse | src/data/IntentEngine.ts:30 | replacing each run of a character class by one character never lengthens the text, empties only the empty text, keeps or replaces the first character as its class says, and leaves no two adjacent characters of the class |
| Text.CollapseChars | src/data/IntentEngine.ts:30 | every character left by the run replacement is either the replacement or one of the original characters outside the class |
| Text.CollapseIdentity | src/data/IntentEngine.ts:30 | the run replacement leaves alone any text that has no run to replace |
| Text.CollapseRun | src/data/IntentEngine.ts:30 | a whole run of class characters becomes the one replacement character |
| Text.CollapseAppend | src/data/IntentEngine.ts:30 | when a cut does not split a run of class characters, replacing runs in the whole text gives the two parts' results one after the other; with `CollapseRun` and `CollapseIdentity` this fixes the result of every text |
| Text.ReplaceChar | src/pages/Data.tsx:38 | `replace(/_/g, " ")` keeps the length and changes exactly the `_` characters |
| Text.JoinContains | src/data/IntentEngine.ts:103 | every part of a joined text occurs in it |
| Text.Sort | src/pages/Catalog.tsx:66 | sorting strings gives a sorted permutation of them |
| Text.Dedup | src/pages/Catalog.tsx:65 | `Array.from(new Set(xs))` holds the elements of `xs` and nothing else, none of them twice |
| Text.SortNoDup | src/pages/Catalog.tsx:65-66 | sorting a list without repetitions gives a list without repetitions |
| Text.NatToStringValue | src/data/IntentEngine.ts:102 | the decimal rendering of a count reads back as that count |
| Json.Get | src/pages/Data.tsx:102 | `row[key]` is the value of the first field with that key, and `undefined` when the row has no such field |
| Json.FormatCell | src/pages/Data.tsx:328-333 | null and undefined render as nothing, objects as their JSON text, anything else as `String(v)` |
| Csv.DoubleQuotesKeeps | src/pages/Data.tsx:97 | doubling quotes leaves quote-free text alone, and adds or removes no comma, line feed or quote |
| Csv.UndoubleDouble | src/pages/Data.tsx:97 | un-doubling `""` recovers the text whose quotes were doubled |
| Csv.EscapeText | src/pages/Data.tsx:96-98 | a text is wrapped in quotes exactly when it holds a quote, a comma or a line feed; inside the wrapping quotes its quotes are doubled; any other text is unchanged |
| Csv.EscapeRoundTrip | src/pages/Data.tsx:93-99 | removing the wrapping quotes and un-doubling recovers the original text |
| Csv.Esc | src/pages/Data.tsx:93-99 | `esc` gives nothing for null and undefined, and otherwise the escaped form of what the cell shows, which un-escapes back to it |
| Csv.EscCells | src/pages/Data.tsx:102 | a line holds one escaped cell per column, in column order |
| Csv.Lines | src/pages/Data.tsx:102 | one line per row, in row order, each the row's escaped cells joined by commas |
| Csv.ParseEncoded | src/pages/Data.tsx:101-103 | a reader of the dialect gets back exactly the records written, when no record is empty |
| Csv.CsvRoundTrip | src/pages/Data.tsx:101-103 | reading the exported text back gives the column names and then, for each row, the text of each cell in column order, when column names hold no quote, comma or line feed |
| Csv.FileNameShape | src/pages/Data.tsx:109 | the download name is a stem of word characters, no longer than the label and empty only for an empty label, followed by ".csv"; a label of word characters is its own stem |
| Csv.FileNameRun | src/pages/Data.tsx:109 | a run of non-word characters between word characters, or at either end of the label, becomes one `_`, and the parts before and after it are named as they would be alone |
| Csv.FileNameExample | src/pages/Data.tsx:109 | the label "a!!b" is saved as "a_b.csv" |
| Search.Term | src/pages/Data.tsx:75 | the search term is never longer than the query, and is empty exactly when the query is all whitespace |
| Search.ByText | src/pages/Data.tsx:74-77 | a blank term keeps every entry; otherwise the result holds, in order, each entry whose lower-cased text contains the term, as many times as it occurs, and no other |
| Search.MatchingRows | src/pages/Data.tsx:82-84 | a blank term keeps every row; otherwise the result holds, in order, each row with a cell whose text contains the term, as many times as it occurs, and no other |
| QuickPins.Toggle | src/pages/Analytics.tsx:241-246 | clicking flips whether that key is pinned and no other's; an absent key goes last after the old pins; a present key loses every occurrence while the other pins keep their order and counts |
| QuickPins.ToggleKeepsNoDup | src/pages/Analytics.tsx:241-246 | a pin list without repetitions keeps that shape under any click |
| QuickPins.ToggleTwice | src/pages/Analytics.tsx:241-246 | pinning and then unpinning a key that was not pinned restores the list |
| QuickPins.FilterNoDup | src/pages/Analytics.tsx:244 | unpinning keeps a list free of repetitions |
| DataPage.SourceViews | src/pages/Data.tsx:36-39 | one view per source key, in order, each labelled with the key in which every `_` is a space and every other character is kept |
| DataPage.LoadedViews | src/pages/Data.tsx:36-45 | a missing `sources` field or a failed request gives an empty list; otherwise the views of the sources |
| DataPage.BuildPreview | src/pages/Data.tsx:61-67 | for a non-empty array, the columns are the first record's keys and the rows are every record; otherwise there are no columns and no rows |
| DataPage.FilteredRows | src/pages/Data.tsx:79-85 | no preview gives no rows; a blank term gives all the preview's rows; otherwise, in order, each preview row with a cell containing the term, as many times as it occurs, and no other |
| DataPage.PreviewFirstRowInOrder | src/pages/Data.tsx:61-64 | the j-th column's value in the first row is that record's j-th field value |
| DataPage.GetFirst | src/pages/Data.tsx:102 | looking up a field's own key finds that field or an earlier one with the same key |
| DataPage.DownloadCsv | src/pages/Data.tsx:87-109 | nothing without a preview; otherwise the CSV text of the preview's columns and rows, under the view key's file name |
| DataPage.DownloadReadsBack | src/pages/Data.tsx:87-109 | the download of a loaded non-empty file reads back as its first record's keys and the text of every cell |
| DataPage.DataPage.constructor | src/pages/Data.tsx:25-30 | the page starts with nothing loaded, nothing selected, an empty search and no error |
| DataPage.DataPage.SourcesLoaded | src/pages/Data.tsx:32-46 | the list becomes the loaded views, and nothing else changes |
| DataPage.DataPage.SetQuery | src/pages/Data.tsx:26 | only the query changes |
| DataPage.DataPage.Select | src/pages/Data.tsx:48-56 | the dataset becomes the selection, the error is cleared and loading starts |
| DataPage.DataPage.BackToList | src/pages/Data.tsx:145-148 | the "Datasets" button clears the selection and the query, and with no selection the preview goes |
| DataPage.DataPage.PreviewLoaded | src/pages/Data.tsx:58-71 | a loaded document becomes the preview and clears the query; a failure records its message and keeps the preview; loading ends either way |
| DataPage.DataPage.ShownViews | src/pages/Data.tsx:74-77 | the shown list is every view for a blank term; otherwise, in order, each view whose lower-cased label contains the term, as many times as it occurs, and no other |
| DataPage.DataPage.ShownRows | src/pages/Data.tsx:79-85 | the shown rows are the preview's rows filtered by the page's query, as `FilteredRows` states |
| AnalyticsPage.LoadedReports | src/pages/Analytics.tsx:66-76 | `res.reports` if it is an array, else `res` if it is an array, else nothing; a failed request gives nothing |
| AnalyticsPage.FilteredRows | src/pages/Analytics.tsx:103-109 | without a selection or for a blank term the rows are unchanged; otherwise, in order, each row with a cell containing the term, as many times as it occurs, and no other |
| AnalyticsPage.RowsOutcome | src/pages/Analytics.tsx:87-93 | a reply that is not ok is the error "Data not found"; a failed request keeps its message; otherwise the parsed rows |
| AnalyticsPage.DownloadCsv | src/pages/Analytics.tsx:112-129 | nothing without rows or without a selection; otherwise the CSV text with the first row's keys as columns, under the label's file name |
| AnalyticsPage.DownloadReadsBack | src/pages/Analytics.tsx:112-124 | the download reads back as the first row's keys and the text of every cell |
| AnalyticsPage.FindReport | src/pages/Analytics.tsx:305 | `reports.find` fails exactly when no report has the key, and otherwise returns a loaded report with that key |
| AnalyticsPage.PinnedCardsAreReports | src/pages/Analytics.tsx:302-306 | every card is a loaded report whose key is pinned, and there are no more cards than pins |
| AnalyticsPage.PinnedCardsCover | src/pages/Analytics.tsx:304-306 | a pinned key gets a card exactly when some loaded report has that key; pins that match no report are skipped |
| AnalyticsPage.PinnedCardsAll | src/pages/Analytics.tsx:304-306 | when every pin names a loaded report, there is one card per pin |
| AnalyticsPage.AnalyticsPage.constructor | src/pages/Analytics.tsx:19-32 | the page starts empty with the saved pins and a closed menu |
| AnalyticsPage.AnalyticsPage.ReportsLoaded | src/pages/Analytics.tsx:66-76 | the list becomes the loaded reports, and nothing else changes |
| AnalyticsPage.AnalyticsPage.SetQuery | src/pages/Analytics.tsx:196 | only the query changes |
| AnalyticsPage.AnalyticsPage.Select | src/pages/Analytics.tsx:79-86 | the report becomes the selection, loading starts and the error is cleared |
| AnalyticsPage.AnalyticsPage.Deselect | src/pages/Analytics.tsx:80-83 | no selection, and with it no rows |
| AnalyticsPage.AnalyticsPage.RowsLoaded | src/pages/Analytics.tsx:87-94 | loaded rows replace the old ones; an error keeps them and records its message; loading ends either way |
| AnalyticsPage.AnalyticsPage.ToggleMenu | src/pages/Analytics.tsx:225 | only the menu flag flips |
| AnalyticsPage.AnalyticsPage.TogglePin | src/pages/Analytics.tsx:241-246 | the pins become the toggled list, and nothing else changes |
| AnalyticsPage.AnalyticsPage.ClearPins | src/pages/Analytics.tsx:257-260 | no pins, and the menu closes |
| AnalyticsPage.AnalyticsPage.ShownReports | src/pages/Analytics.tsx:98-101 | the shown list is every report for a blank term; otherwise, in order, each report whose lower-cased label contains the term, as many times as it occurs, and no other |
| AnalyticsPage.AnalyticsPage.Cards | src/pages/Analytics.tsx:302-306 | no cards while a report is open; otherwise the pinned cards, whose properties `PinnedCardsAreReports`, `PinnedCardsCover` and `PinnedCardsAll` state; every card is a loaded, pinned report |
| ApisPage.SpecUrl | src/pages/APIs.tsx:51-61 | each URL is the mock base, then "/openapi-", the slug and ".json" |
| ApisPage.ApiViewsShape | src/pages/APIs.tsx:50-62 | the list has eleven entries, the i-th at `openapi-<i-th slug>.json` under the mock base |
| ApisPage.ApiKeysDistinct | src/pages/APIs.tsx:50-62 | no two entries share a key |
| ApisPage.RenameTitleSpec | src/pages/APIs.tsx:80 | a title that starts with "Data Portal API" has only that prefix replaced by "Data Edge API"; any other title is kept; renamed titles never start with the old name, so renaming twice equals renaming once |
| ApisPage.Retitled | src/pages/APIs.tsx:79-84 | a document with a title has it renamed; otherwise `info` is created when missing and gets the title "Data Edge API – " followed by the label; every other field of `info` is kept |
| ApisPage.RetitledNeverOldName | src/pages/APIs.tsx:79-84 | no title starts with "Data Portal API" after the rewrite |
| ApisPage.SpecDocument.constructor | src/pages/APIs.tsx:78 | a parsed document holds the `info` it was read with |
| ApisPage.SpecDocument.Retitle | src/pages/APIs.tsx:79-84 | the document's `info` is rewritten in place |
| ApisPage.ApisPage.constructor | src/pages/APIs.tsx:20-30 | the page starts with no views, no search, no selection, no document, a closed menu and the saved pins |
| ApisPage.ApisPage.Mount | src/pages/APIs.tsx:49-64 | the views become the fixed list, and nothing else changes |
| ApisPage.ApisPage.SetQuery | src/pages/APIs.tsx:156 | only the query changes |
| ApisPage.ApisPage.Select | src/pages/APIs.tsx:234 | only the selection changes |
| ApisPage.ApisPage.Deselect | src/pages/APIs.tsx:75 | no selection, and with it no document |
| ApisPage.ApisPage.SpecLoaded | src/pages/APIs.tsx:76-87 | a loaded document is retitled in place and shown; a failure shows no document |
| ApisPage.ApisPage.ToggleMenu | src/pages/APIs.tsx:179 | only the menu flag flips |
| ApisPage.ApisPage.TogglePin | src/pages/APIs.tsx:195-201 | the pins become the toggled list, and nothing else changes |
| ApisPage.ApisPage.ClearPins | src/pages/APIs.tsx:211 | no pins, and the menu closes |
| ApisPage.ApisPage.ShownViews | src/pages/APIs.tsx:67-70 | the shown list is every view for a blank term; otherwise, in order, each view whose lower-cased label contains the term, as many times as it occurs, and no other |
| CatalogPage.Tagged | src/pages/Catalog.tsx:47-57 | every item of a file is tagged with the file's kind, and nothing else about it changes |
| CatalogPage.CategoriesOf | src/pages/Catalog.tsx:65 | the items' categories, in item order |
| CatalogPage.CategoriesSpec | src/pages/Catalog.tsx:64-67 | the categories are sorted, free of repetitions, and exactly the categories the items have |
| CatalogPage.FilteredItems | src/pages/Catalog.tsx:69-95 | a blank term shows the items as they are. With a selection, the result is the selection alone, its columns (when it has any) filtered in order by name, type or description, each matching column kept as often as it occurs. Without one, the items matching by name or category are kept in order, each as often as it occurs |
| CatalogPage.DictionaryAsWritten | src/pages/Catalog.tsx:272-286 | the page draws a Data Dictionary exactly when a dataset with columns is selected; its rows are read from the first entry of `filteredItems` |
| CatalogPage.DictionaryShowsFirstItem | src/pages/Catalog.tsx:69-286 | with a blank search the Data Dictionary lists the columns of the tab's first item, whatever is selected |
| CatalogPage.DictionaryWrongItem | src/pages/Catalog.tsx:69-286 | with a blank search and a selected dataset whose columns differ from the first item's, the table does not list the selected dataset's columns |
| CatalogPage.Dictionary | src/pages/Catalog.tsx:272-291 | a Data Dictionary exactly when a dataset with columns is selected; its rows are the selected dataset's own columns, in order, each kept as often as it occurs when the term is blank or matches its name, type or description, and no other |
| CatalogPage.DictionarySearchAgrees | src/pages/Catalog.tsx:69-95 | for any non-blank search the page's table and the corrected one are the same |
| CatalogPage.CatalogPage.constructor | src/pages/Catalog.tsx:30-37 | nothing loaded, no search, no selection, no open category, the Data tab active |
| CatalogPage.CatalogPage.Loaded | src/pages/Catalog.tsx:43-59 | the answer for a file fills its own tab, tagged, and changes nothing else |
| CatalogPage.CatalogPage.SetQuery | src/pages/Catalog.tsx:140 | only the query changes |
| CatalogPage.CatalogPage.Select | src/pages/Catalog.tsx:209 | only the selection changes |
| CatalogPage.CatalogPage.BackToCatalog | src/pages/Catalog.tsx:104-107 | no selection and an empty search |
| CatalogPage.CatalogPage.SwitchTab | src/pages/Catalog.tsx:118-122 | the tab becomes active with no selection and an empty search, so `filteredItems` (`FilteredNow`) is then exactly that tab's items |
| CatalogPage.CatalogPage.DataDictionary | src/pages/Catalog.tsx:272-291 | the page's Data Dictionary, as corrected: present exactly when a dataset with columns is selected, and only ever listing that dataset's columns |
| CatalogPage.CatalogPage.ToggleCategory | src/pages/Catalog.tsx:196-198 | clicking the open category closes it; clicking any other opens it alone |
| CartPage.InitialForm | src/pages/Cart.tsx:9-17 | one entry per cart item, in cart order, with its id and name and both fields empty; a non-empty description is copied, and a missing or empty one becomes "No description available" |
| CartPage.Changed | src/pages/Cart.tsx:21-29 | only the named field of entries with that id changes; the length, order and all other entries stay |
| CartPage.Removed | src/pages/Cart.tsx:32 | every entry with that id goes; the others stay in order, each as often as before |
| CartPage.InitialFormInvalid | src/pages/Cart.tsx:9-48 | a freshly opened form cannot be submitted |
| CartPage.BlankJustificationInvalid | src/pages/Cart.tsx:46-48 | blanking the justification of an entry that is present makes the form invalid |
| CartPage.ChangeKeepsValid | src/pages/Cart.tsx:21-48 | a valid form stays valid when any field is changed to a text that is not only whitespace |
| CartPage.CartPage.constructor | src/pages/Cart.tsx:6-19 | the form is the initial form of the cart, not submitted |
| CartPage.CartPage.HandleChange | src/pages/Cart.tsx:21-29 | the form becomes the changed form, and nothing else changes |
| CartPage.CartPage.RemoveItem | src/pages/Cart.tsx:31-38 | the entries of that id go; when none is left, the cart is cleared and the browser goes home |
| CartPage.CartPage.ClearAll | src/pages/Cart.tsx:40-44 | no cart, no form, and the browser goes home |
| CartPage.CartPage.HandleSubmit | src/pages/Cart.tsx:50-58 | the cart is cleared and the thank-you view is shown |
| CartPage.CartPage.View | src/pages/Cart.tsx:58-79 | the thank-you view exactly when submitted; the empty-cart view exactly when not submitted and the form is empty |
| GlobalSearchBox.Results | src/components/GlobalSearch.tsx:46-54 | an empty input gives no results; otherwise the index entries, in index order, whose lower-cased name contains the lower-cased input |
| GlobalSearchBox.ExactNameFound | src/components/GlobalSearch.tsx:10-51 | typing an entry's exact name, in any case, lists that entry |
| GlobalSearchBox.GlobalSearch.constructor | src/components/GlobalSearch.tsx:21-33 | no own query, no results, no route |
| GlobalSearchBox.GlobalSearch.EffectiveValue | src/components/GlobalSearch.tsx:36 | the shown value is the `value` prop whenever it is given and the box's own query otherwise, which is empty for a controlled box |
| GlobalSearchBox.GlobalSearch.HandleChange | src/components/GlobalSearch.tsx:38-55 | a controlled box hands the text to its parent and never keeps it; an uncontrolled one keeps it; the results are those of the new text |
| GlobalSearchBox.GlobalSearch.HandleClear | src/components/GlobalSearch.tsx:57-64 | an empty text for the parent or the own query, and no results |
| GlobalSearchBox.GlobalSearch.HandleSelect | src/components/GlobalSearch.tsx:66-69 | the browser goes to the entry's page, then the box clears |
| ChatBotWidget.AnswerIgnoresCase | src/components/ChatBot.tsx:15-19 | the reply does not depend on letter case |
| ChatBotWidget.AnswerPriority | src/components/ChatBot.tsx:14-21 | "dataset" wins over "api" and "help", and "api" over "help"; the apology is given exactly when none of the three occurs |
| ChatBotWidget.ExchangeKeepsWellFormed | src/components/ChatBot.tsx:5-25 | a conversation that is the greeting followed by user/reply pairs keeps that shape after an exchange |
| ChatBotWidget.ChatBot.constructor | src/components/ChatBot.tsx:4-8 | closed, with exactly the greeting and an empty input |
| ChatBotWidget.ChatBot.SetInput | src/components/ChatBot.tsx:73 | only the input changes |
| ChatBotWidget.ChatBot.Send | src/components/ChatBot.tsx:10-28 | a whitespace-only input changes nothing; otherwise the exact input is appended as the user's message, then the reply chosen for it, and the input is emptied; the conversation keeps its shape |
| ChatBotWidget.ChatBot.Open | src/components/ChatBot.tsx:35 | only the open flag changes, to open |
| ChatBotWidget.ChatBot.Close | src/components/ChatBot.tsx:50 | only the open flag changes, to closed; the conversation is kept |

## Left out

- Requests: every `fetch` and `json()` call is left out. A request's outcome is a parameter of the method that receives it, either loaded or failed.
- Browser storage: `localStorage` persistence of the pins and the `storage` events are left out. Saved pins are a constructor parameter of the Reports and APIs pages.
- Browser downloads: `Blob`, `URL.createObjectURL` and the anchor click are left out. `DownloadCsv` returns the file name and the text instead.
- Other browser effects: `window.open` and `alert` are left out. Navigation is recorded as a `route` field.
- Timers: `ChatBot.Send` appends the user's message and the reply in one step. The source adds the reply 500 ms later, and two sends within that delay race on a stale copy of the list. The Cart's navigation 2 s after submitting is not modelled either.
- Rendering: JSX, styling, the background-colour mappings, SwaggerUI, routing and the static pages (Home, Contact, Settings, Navbar, Hero, LogoE) are left out.
- The chat flags: the `chatOpen` state of the Reports and APIs pages is left out. It only shows the widget, and the widget takes no props.
- `CartContext` is not part of this model. The cart is a sequence the page reads and clears.
- Library functions: `JSON.stringify` and `String()` of an object or array are carried as data in `Json.Value.Obj`.
- `Date.toLocaleString` is left out: `Json.FormatCell` has no `Date` case, because parsed JSON never yields one.
- Numbers are integers. Fractional numbers and their rendering are not modelled.
- Case mapping and sorting:
  - `toLowerCase` is ASCII only; other letters keep their case.
  - `sort` compares by character, not by UTF-16 code unit. The two orders differ only for characters outside the Basic Multilingual Plane.
  - The emoji in the chart and group answers is one character here, where JavaScript counts two units.
- Regular expressions are stated as the substrings they can match in normalised text, which is all they are applied to.
- `findDatasetKey` relabels each key with `normalize(key.replace(/_/g, " "))`. `IntentEngine.Label` spells out those eleven results.
- `DATASET_ALIASES` is indexed by `DatasetKey`. Every alias key is therefore a registry key by construction. The alias table lists its keys in registry order, so both passes search in registry order.
- `IntentEngine.AvailableDatasetsIsCatalog` is stated over the if-chain for any dataset, context and field. This includes the ones `interpretIntent` computes for the message.
- `label` fields are called `caption`, because `label` is a reserved word in Dafny.
- Csv.CsvRoundTrip: column names are written without escaping. The round trip therefore requires names without a quote, comma or line feed.
- Csv.ParseEncoded: a reader cannot tell an empty record from a record of one empty cell, so empty records are excluded.
- ApisPage.Retitled: titles are modelled as text. A non-string title, and a document that is `null` or lacks `info` when it is not an object, are not modelled.
- Catalog: requests that fail leave their tab empty; the page catches no error there, and the model has no failed case.
- Catalog display: the category lists and the popular cards are drawn from the active tab's items and the search does not change them (src/pages/Catalog.tsx:190-191 and 308-309). The model states which items they come from through `ItemsFor` and does not model the cards themselves.
- APIs pinned cards: the cards for the pinned APIs, shown only while nothing is selected (src/pages/APIs.tsx:249-269), are not modelled. They follow the same rule as the Reports page's cards, which `AnalyticsPage.PinnedCards` states.
- React re-renders: each `Select` method also applies the effect that runs when the selection changes. On the Data and Reports pages that clears the error and starts loading; on the APIs and Catalog pages only the selection changes. Re-selecting the entry that is already selected, which would not re-run the effects, is not modelled: the lists and the pinned cards are shown only while nothing is selected (src/pages/Data.tsx:213, src/pages/Analytics.tsx:273 and 302).

## Findings

| source | as written | input that shows it | evidently intended | confidence | as-written member | corrected member |
|---|---|---|---|---|---|---|
| src/pages/Catalog.tsx:286 | the Data Dictionary reads the columns of `filteredItems[0]`; a blank search makes `filteredItems` all of the tab's items | blank search, Data tab items [A, B] whose columns differ, B selected: the table lists A's columns | the selected dataset's own columns, filtered by the search | medium; not executed | CatalogPage.DictionaryWrongItem | CatalogPage.Dictionary |
