# Brewery listing page — a Dafny model

The page fetches the breweries of a US state from the Open Brewery DB and
keeps only the micro, regional and brewpub ones. It then shows the first ten
that pass three filters: brewery type, a set of ticked cities, and a
case-insensitive search over name and city. All page state sits in one
record. `setState` shallow-merges a partial record over it and rebuilds the
`<main>` region from scratch, unless the caller asks it to skip the render.

This project models that logic from `src/main.ts`, with record shapes from
`src/types.ts`:

- `Seqs`: `Array.prototype.filter` as `Filter`. It is proved to keep exactly
  the passing elements, in order and with their multiplicities, and to be
  the one longest subsequence whose elements all pass.
- `Text`: `toLowerCase`, restricted to ASCII letters, and `includes`, as a
  left-to-right scan. The scan is proved equal to "the term occurs at some
  index".
- `Types`: the `Brewery` and `State` records.
- `Store`: `Partial<State>` as `Patch`, and the shallow merge `Merge`.
- `FetchData`: `cleanData`, plus `extractCitiesData` as a loop over a
  seen-dictionary. Both the code as written and the corrected version are
  modelled (see Findings).
- `Filters`: the patches built by the type select, by a city checkbox and
  by "clear all".
- `ListView`: `renderList` without the DOM. The three filter steps run in
  the source's order, then a loop renders at most ten items. It includes
  the phone display rule of `renderListItem`.
- `App`: the class `Page`, which holds the state and the `<main>` contents
  as a list of sections. It has `setState`, `render`, `renderMain` and the
  event handlers that call `setState`.
- `Scenarios`: the two-brewery examples and the ten-of-fifteen cap, stated
  as lemmas.

`includes` here is the JavaScript string method. `Includes("", …)` holds
for the empty term, as it does in JavaScript. The code only searches when
the search text is non-empty.

The model follows the code in these details:

- The city list and the selected-city list are arrays, not sets.
- Ticking appends without checking for an existing entry.
- Unticking removes every occurrence.
- Ticking and then unticking restores the list exactly, not just up to
  set equality, when the lower-cased city was not selected before. Through
  the page that is always the case, since a box renders ticked exactly when
  its lower-cased city is selected.

## Model

| member | source | states |
|---|---|---|
| Seqs.Filter | src/main.ts:26-33 | the result is no longer than the input, and it holds exactly the input elements that satisfy the predicate |
| Seqs.FilterIsSubsequence | src/main.ts:26-33 | filtering keeps the original relative order (the result is a subsequence of the input) |
| Seqs.FilterCount | src/main.ts:26-33 | each passing element occurs as often as in the input; each failing one does not occur |
| Seqs.SubsequenceBound | src/main.ts:26-33 | no subsequence made only of passing elements is longer than the filter's result |
| Seqs.FilterUnique | src/main.ts:26-33 | a subsequence of passing elements that is as long as the filter's result is that result |
| Seqs.FilterConcat | src/main.ts:143-145 | filtering a concatenation is the concatenation of the filtered parts |
| Seqs.FilterAllPass | src/main.ts:308-329 | a filter that every element passes changes nothing |
| Seqs.FilterFilter | src/main.ts:308-329 | two successive filters are one filter by the conjunction of their predicates |
| Text.ToLower | src/main.ts:318 | lower-casing keeps the length and maps every character through the ASCII letter rule |
| Text.ToLowerIdempotent | src/main.ts:323-327 | lower-casing an already lower-cased string changes nothing |
| Text.IncludesSpec | src/main.ts:326-327 | `includes` holds if and only if the term occurs at some index of the text |
| Text.IncludesEmpty | src/main.ts:326-327 | every text includes the empty term |
| Text.Includes | src/main.ts:326-327 | the left-to-right scan for `includes`: it never holds for a term longer than the text and always holds for the empty term (its full meaning is `Text.IncludesSpec`) |
| Store.Merge | src/main.ts:14-18 | after the merge, each field given in the patch has the patch's value and every other field keeps its old value |
| Store.MergeEmpty | src/main.ts:14-18 | merging `{}` leaves the state identical |
| Store.MergeThen | src/main.ts:14-18 | two merges in a row equal one merge of the combined patch |
| Store.MergeIdempotent | src/main.ts:14-18 | merging the same patch twice equals merging it once |
| Store.MergeFull | src/main.ts:14-18 | a patch that gives every field replaces the state outright |
| FetchData.IsAllowedType | src/main.ts:28-31 | `cleanData`'s test: the type is "micro", "regional" or "brewpub" |
| FetchData.CleanData | src/main.ts:26-33 | kept records are exactly the input records whose type is micro, regional or brewpub, in input order |
| FetchData.CleanDataExact | src/main.ts:26-33 | each allowed record is kept as often as it occurs, and every other record is dropped; no longer subsequence of allowed records exists |
| FetchData.DistinctCities | src/main.ts:35-47 | the city list has no duplicates; every input city occurs in it verbatim, and each entry is some input record's city |
| FetchData.ExtractCitiesData | src/main.ts:35-47 | the seen-dictionary loop returns exactly the distinct cities in first-seen order |
| FetchData.CitiesAsWritten | src/main.ts:35-47 | the loop as written, whose `cities[city]` test is also truthy for inherited property names: its list has no duplicates and never holds an inherited name; every other input city is in it |
| FetchData.CitiesAsWrittenDropsCity | src/main.ts:36-46 | a kept brewery in the city "constructor" is missing from the code's city list but present in the corrected one |
| FetchData.CitiesAsWrittenAgrees | src/main.ts:35-47 | when no city is named like an inherited property, the code as written and the corrected list agree |
| FetchData.CitiesAsWrittenIsFiltered | src/main.ts:35-47 | on every input, the code's city list is the corrected list with the inherited property names removed, in the same order |
| Filters.TickCity | src/main.ts:137-140 | ticking appends the lower-cased city and keeps the earlier entries in place |
| Filters.UntickCity | src/main.ts:141-146 | unticking removes every occurrence of the lower-cased city; other entries keep their order and multiplicity |
| Filters.UntickAbsent | src/main.ts:141-146 | unticking a city that is not selected changes nothing |
| Filters.TickThenUntick | src/main.ts:136-148 | if the lower-cased city was absent, ticking then unticking restores the original list exactly |
| Filters.UntickThenTick | src/main.ts:136-148 | if the lower-cased city was present, unticking then ticking selects the same set of cities |
| Filters.TypeChangePatch | src/main.ts:121-123 | the type select's patch sets `filterByType` to the chosen value and changes nothing else |
| Filters.CityChangePatch | src/main.ts:136-148 | the checkbox patch sets `filterByCity` to the ticked or unticked list and changes nothing else |
| Filters.ClearAllPatch | src/main.ts:177-181 | "clear all" empties `filterByCity` and changes nothing else |
| ListView.HasType | src/main.ts:311-313 | the type step's test: the brewery's type equals the selected type |
| ListView.InCities | src/main.ts:317-319 | the city step's test: the brewery's lower-cased city is one of the selected cities |
| ListView.MatchesSearch | src/main.ts:323-328 | the search step's test: the lower-cased term is included in the lower-cased name or in the lower-cased city (meaning proved by `ListView.MatchesSearchSpec`) |
| ListView.ByType | src/main.ts:310-314 | the type step, a filter of the breweries by `HasType` |
| ListView.ByCity | src/main.ts:316-320 | the city step, a filter of the breweries by `InCities` |
| ListView.BySearch | src/main.ts:322-329 | the search step, a filter of the breweries by `MatchesSearch` |
| ListView.AfterType | src/main.ts:308-314 | the list after the first reassignment: the type step when a type is set, else the stored list |
| ListView.AfterCity | src/main.ts:316-320 | the list after the second reassignment: the city step when any city is selected, else the previous list |
| ListView.Visible | src/main.ts:322-329 | the list after the third reassignment: the search step on the lower-cased text when there is search text, else the previous list (its meaning is `ListView.VisibleIsOneFilter`) |
| ListView.MatchesSearchSpec | src/main.ts:322-328 | a brewery matches the search if and only if the lower-cased term occurs in its lower-cased name or in its lower-cased city |
| ListView.VisibleIsOneFilter | src/main.ts:308-329 | the three filter steps, in their order, equal one filter by "passes every active filter" |
| ListView.VisibleSoundAndComplete | src/main.ts:308-329 | a brewery is kept if and only if it is stored and passes every active filter; multiplicities and stored order are preserved |
| ListView.VisibleIsLongestPassing | src/main.ts:308-329 | the kept list is the longest subsequence of stored breweries that pass the filters, and the only one of that length |
| ListView.NoFiltersKeepsAll | src/main.ts:308-329 | with no filter set, every stored brewery is kept |
| ListView.TypeFilterLastAgrees | src/main.ts:310-329 | applying the type filter after the other two gives the same list |
| ListView.PhoneText | src/main.ts:291 | the shown phone is "N/A" exactly when the phone is empty; otherwise it is "+" followed by the phone |
| ListView.ItemOf | src/main.ts:268-296 | a list item shows the brewery's name, type, street, city, postal code and website as stored, and its phone by `PhoneText` |
| ListView.ShownItems | src/main.ts:331-335 | at most ten items, fewer only when fewer breweries are kept; item `i` is the item of the `i`-th kept brewery |
| ListView.RenderList | src/main.ts:301-339 | the rendered items are `min(10, number kept)` of them, namely the first kept breweries in order |
| App.CheckboxOf | src/main.ts:128-134 | a city checkbox has the lower-cased city as value, the city as caption, and is ticked exactly when the lower-cased city is selected |
| App.CityCheckboxes | src/main.ts:191 | one checkbox per stored city, in stored order, each captioned with that city and ticked exactly when its lower-cased form is selected |
| App.CheckboxAfterChange | src/main.ts:128-148 | after ticking (unticking) a city its box shows ticked (unticked); boxes of other lower-cased cities keep their state |
| App.MainSections | src/main.ts:343-358 | with no state name entered, `<main>` is empty; otherwise it holds the filters, the title, the search bar and the list of at most ten items, in that order |
| App.InitialStateConsistent | src/main.ts:5-12 | the initial state satisfies the stored-state invariant |
| App.ConsistentView | src/main.ts:26-47 | under the stored-state invariant, every listed brewery has an allowed type and every city checkbox is captioned with some stored brewery's city |
| App.Page.constructor | src/main.ts:362-366 | the page starts with the empty state, which satisfies the stored-state invariant, and renders once, which leaves `<main>` empty |
| App.Page.Render | src/main.ts:350-358 | a render counts once and sets `<main>` to the sections of the current state; without a `<main>` element nothing changes |
| App.Page.RenderMain | src/main.ts:343-348 | appends the four sections in order |
| App.Page.SetState | src/main.ts:14-23 | the new state is the merge of the patch over the old one; a render happens if and only if `skipRender` is false |
| App.Page.OnSelectStateInput | src/main.ts:76-80 | typing a state name stores it and does not render |
| App.Page.OnBreweriesFetched | src/main.ts:54-62 | a response stores the allowed breweries and their distinct cities, establishes the invariant and renders |
| App.Page.OnTypeChange | src/main.ts:121-123 | choosing a type stores it, keeps the invariant and renders |
| App.Page.OnCityChange | src/main.ts:136-148 | toggling a checkbox stores the ticked or unticked list, keeps the invariant and renders |
| App.Page.OnClearAll | src/main.ts:177-181 | "clear all" empties the city filter, keeps the invariant and renders |
| Scenarios.TypeScenario | src/main.ts:310-314 | with type "micro", of "Oak Hill" (micro) and "River Brewpub" (brewpub) only "Oak Hill" is kept |
| Scenarios.CityScenario | src/main.ts:316-320 | with the city filter ["dallas"], only the brewery in "Dallas" is kept |
| Scenarios.SearchScenario | src/main.ts:322-329 | the search "oak" keeps only "Oak Hill", matched case-insensitively on its name |
| Scenarios.AllPassingShowsFirstTen | src/main.ts:331-335 | when every stored brewery passes, the first `min(10, count)` of them are shown in stored order |
| Scenarios.FifteenShowsTen | src/main.ts:331-335 | of fifteen passing breweries, exactly the first ten are shown |

## Left out

- The network request in `getBreweriesByState` (src/main.ts:49-53) is left out because it is I/O. This covers the unencoded query string, JSON decoding, failures that are never handled, and responses arriving out of order. `App.Page.OnBreweriesFetched` takes the decoded response as a parameter.
- DOM construction is left out: `innerHTML` templates, `querySelector` lookups, the `selected` flag on type options, labels, and the wiring of event listeners and `submit` handlers (src/main.ts:67-124, 150-264, 268-299). `<main>` is modelled as a list of sections that carry the values shown.
- The search bar's input handler (src/main.ts:245-257) is left out. It stores the text with `skipRender` and then replaces only the `article` element, which is a DOM shortcut. The list it draws is `ListView.RenderList` of the same state.
- The `console.log` in `main` is left out.
- Unicode case mapping is left out: `Text.ToLower` lower-cases ASCII letters only.
- `Object.keys` puts integer-like keys first. `FetchData.ExtractCitiesData` returns keys in insertion order, so a city named like "123" would be listed in a different position.
- Brewery fields the page never reads (ids, coordinates, country and others) are left out. A `null` phone behaves like the empty string, since both are falsy.
- FetchData.ExtractCitiesData: models the intended own-key test and not the inherited-property lookup of the code. The code's behaviour is `FetchData.CitiesAsWritten` (see Findings), and `FetchData.CitiesAsWrittenIsFiltered` relates the two on every input. `App.Page.OnBreweriesFetched` stores the corrected list, so `App.Consistent` (the city list is the distinct stored cities) holds of the model but not of the page as written when a stored city is named like an inherited property, such as "constructor".

## Findings

| source | as written | input that shows it | evidently intended | confidence | as-written member | corrected member |
|---|---|---|---|---|---|---|
| src/main.ts:36-46 | `if (cities[city]) continue` on a plain `{}` also reads properties inherited from `Object.prototype`, so such a city is never entered | a kept brewery whose `city` is "constructor" (also "toString", "valueOf", "__proto__", …): the city list is empty | every distinct city is listed | high that the behaviour exists; low practical impact, since real city names are capitalised; not executed | FetchData.CitiesAsWrittenDropsCity | FetchData.ExtractCitiesData |
