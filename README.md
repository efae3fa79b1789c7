# Job finder: filter and selection state

This project models the state kept by the `App` component of a client-side job
directory (`src/components/App.jsx`). The component loads a fixed list of job
records. The user can narrow the list by state, by industry and by a free-text
search. The user can select one job, from the list or from the map, and can mark
jobs as contacted. The model proves four things:

- the visible list is exactly the jobs that pass all three criteria, in source order;
- the selection is empty or has the `companyId` of a visible job, since the code matches the selection by `companyId` (`App.jsx:46`);
- changing a criterion clears the selection;
- the contacted set is a toggle set that filtering and selection never touch.

Modules, one file each:

- `Wrappers` (`wrappers.dfy`): `Option`, for the `null`-or-record selection.
- `Text` (`text.dfy`): ASCII lower-casing (`toLowerCase`) and substring search
  (`includes`), with `Includes` characterised by occurrence positions.
- `ListOps` (`list_ops.dfy`): `Array.prototype.filter` and `Array.prototype.find`
  as `Filter` and `Find`, with order, membership, multiplicity and fusion lemmas.
- `Jobs` (`jobs.dfy`): the job record and identifier predicates.
- `FilterEngine` (`filter_engine.dfy`): the three criteria and `ComputeVisible`,
  the chain of guarded `filter` stages of the filtering effect.
- `Contacts` (`contacts.dfy`): the toggle on the set of contacted `companyId`s.
- `JobFinder` (`app.dfy`): class `App`, whose fields are the component's `useState`
  variables. It has one method per user action. Each method runs the effects that
  the action triggers (the filtering effect, the selection reset) to completion.
  The object invariant `Valid()` says that the visible list is derived from the
  criteria and that the selection is empty or has the `companyId` of a visible job.
  A selected record that shares a visible job's `companyId` without being in the
  list passes this test, as it does in the code. With unique identifiers and a
  selection taken from the list, `SelectedJobIsVisible` gives record-level visibility.
  Four client methods at the end replay two-job scenarios (a state filter, a
  search that matches nothing, "Clear") and a double toggle against the contracts.

How the model reads the code's React semantics:

- A state setter given the value it already holds causes no re-render. An effect
  runs only when one of its dependencies changed. So `UpdateCriteria` clears the
  selection on every real change of a criterion, but a "change" to the same value
  leaves the whole state as it was. The effect at `App.jsx:51-53` cannot fire
  without a changed dependency. The drop-downs and the search box only report
  real changes anyway.
- The three setters that `clearFilters` calls are batched into one update. When no
  filter is active, the "Clear" button is not rendered (`App.jsx:150`). If
  `ClearFilters` is called in that state anyway, it changes nothing.
- Selecting a job that no visible job matches by `companyId` does not leave the old
  selection in place. The code first sets the new job. The filtering effect, which
  depends on `selectedJob`, then finds no visible job with that `companyId` and
  sets the selection to `null`. The views only offer visible jobs, so this path is
  not reachable from the interface.
- Both effects run after a criterion changes. The filtering effect runs first and
  the reset runs second, so the net result is a recomputed list and no selection.

## Model

| member | source | states |
|---|---|---|
| Text.Lower | src/components/App.jsx:37-40 | the lower-cased copy has the input's length, contains no upper-case ASCII letter, and maps each character on its own |
| Text.LowerIdempotent | src/components/App.jsx:37-40 | lower-casing an already lower-cased string changes nothing |
| Text.LowerKeepsLowerCase | src/components/App.jsx:37-40 | a string without upper-case letters is its own lower-cased copy |
| Text.IncludesIffOccurs | src/components/App.jsx:37-40 | `includes` holds exactly when the needle occurs at some position of the haystack |
| Text.Includes | src/components/App.jsx:37-40 | `includes`: tries each start position from the left; its meaning is stated by `IncludesIffOccurs` |
| Text.MissingCharNotIncluded | src/components/App.jsx:37-40 | a needle holding a character the haystack lacks is not included in it |
| Text.LowerLacksLetter | src/components/App.jsx:37-40 | a lower-case letter absent from a string in both cases is absent from its lower-cased copy |
| Text.EmptyIncluded | src/components/App.jsx:35-41 | the empty string is included in every string |
| ListOps.Filter | src/components/App.jsx:28 | `filter` never grows the list, and an element is in the result iff it is in the input and passes the test |
| ListOps.FilterEmbeds | src/components/App.jsx:28 | the filtered list sits at strictly increasing positions of the input: the order is kept |
| ListOps.FilterIsSubsequence | src/components/App.jsx:28 | the filtered list is a subsequence of the input |
| ListOps.FilterAppend | src/components/App.jsx:28 | filtering a concatenation is the concatenation of the filtered parts |
| ListOps.FilterMultiplicity | src/components/App.jsx:28 | a passing element occurs as often as in the input, a failing one never: nothing is added or duplicated |
| ListOps.FilterFusion | src/components/App.jsx:25-41 | two `filter` stages in a row equal one filter by the conjunction of their tests |
| ListOps.FilterExtensional | src/components/App.jsx:28 | tests that agree on every element give the same filtered list |
| ListOps.GuardedFilter | src/components/App.jsx:27-29 | a stage run only when its criterion is active is one filter by "inactive, or passes" |
| ListOps.FilterKeepsAllIff | src/components/App.jsx:25-41 | the filter returns its input unchanged iff every element passes |
| ListOps.FilterRejectsAll | src/components/App.jsx:28 | a filter that keeps no element returns the empty list |
| ListOps.Find | src/components/App.jsx:46 | `find` returns nothing iff no element matches, otherwise the first matching element |
| Jobs.IdLocatesJob | src/components/App.jsx:46 | with unique `companyId`s, a sub-list that has a job's identifier holds that very job |
| FilterEngine.StatePasses | src/components/App.jsx:27-28 | the state test: "All States", or the job's state equals the chosen one |
| FilterEngine.IndustryPasses | src/components/App.jsx:31-32 | the industry test: "All Industries", or the job's industry equals the chosen one |
| FilterEngine.TermMatches | src/components/App.jsx:36-41 | the lower-cased term is included in the lower-cased company name, address, first or last name |
| FilterEngine.SearchPasses | src/components/App.jsx:35-41 | the search test: an empty term, or the term matches |
| FilterEngine.Passes | src/components/App.jsx:27-41 | the conjunction of the three tests that `ComputeVisible` is proved against |
| FilterEngine.ComputeVisible | src/components/App.jsx:24-44 | a job is visible iff it is in the full list and passes the state, industry and search tests, so every excluded job fails one of them; the list never grows |
| FilterEngine.ComputeVisibleIsOneFilter | src/components/App.jsx:25-41 | the three guarded stages together are a single filter by the conjunction of the three tests |
| FilterEngine.VisibleIsOrderedSubsequence | src/components/App.jsx:25-44 | the visible list is a subsequence of the full list in source order |
| FilterEngine.VisibleMultiplicity | src/components/App.jsx:25-44 | a passing job appears as often as in the full list, a failing one not at all |
| FilterEngine.ComputeVisibleIdempotent | src/components/App.jsx:25-44 | filtering the visible list again with the same criteria gives the same list |
| FilterEngine.ShowsAllIff | src/components/App.jsx:25-44 | the visible list equals the full list iff every job passes the criteria |
| FilterEngine.ShowsNothingIff | src/components/App.jsx:25-44 | the visible list is empty iff no job passes the criteria |
| FilterEngine.DefaultCriteriaShowAll | src/components/App.jsx:13-15 | with "All States", "All Industries" and an empty term the visible list is the full list |
| FilterEngine.SearchIgnoresCase | src/components/App.jsx:35-41 | the search test ignores the term's case, and the empty-term guard only skips a test that every job passes |
| FilterEngine.SearchPassesIffOccurs | src/components/App.jsx:36-41 | a non-empty term passes iff its lower-cased form occurs in the lower-cased company name, address, first or last name |
| Contacts.Toggled | src/components/App.jsx:57-62 | the toggled id flips membership, every other id keeps it, and the size moves by one |
| Contacts.ToggleTwiceRestores | src/components/App.jsx:56-64 | toggling the same id twice restores the set |
| JobFinder.App.constructor | src/components/App.jsx:11-22 | after loading: default criteria, the whole list visible, nothing contacted, nothing selected |
| JobFinder.App.RefreshVisible | src/components/App.jsx:24-49 | the visible list is recomputed from the criteria, and the selection is dropped exactly when no visible job has its `companyId` |
| JobFinder.App.UpdateCriteria | src/components/App.jsx:24-53 | the criteria take the new values and the list follows them; the selection is cleared iff some criterion actually changed; the contacted set is untouched |
| JobFinder.App.SetSelectedState | src/components/App.jsx:126 | the state criterion changes alone; a different value clears the selection |
| JobFinder.App.SetSelectedIndustry | src/components/App.jsx:140 | the industry criterion changes alone; a different value clears the selection |
| JobFinder.App.SetSearchTerm | src/components/App.jsx:117 | the search term changes alone; a different value clears the selection |
| JobFinder.App.HasActiveFilters | src/components/App.jsx:73 | when no criterion is active the visible list is the whole list |
| JobFinder.App.ClearFilters | src/components/App.jsx:66-70 | criteria back to defaults, no active filter, the whole list visible, the selection cleared when a filter was active, contacted set untouched |
| JobFinder.App.SelectJob | src/components/App.jsx:186 | a click on a job card (or a map marker, line 208) selects that job if a visible job has its `companyId`, and clears the selection otherwise; list, criteria and contacted set unchanged |
| JobFinder.App.IsContacted | src/components/App.jsx:183 | the contact marker of a card: membership of its `companyId` in the contacted set; `ToggleJobContact` states how it changes |
| JobFinder.App.ContactedCount | src/components/App.jsx:72 | the badge count: the size of the contacted set; `ToggleJobContact` states how it changes |
| JobFinder.App.ToggleJobContact | src/components/App.jsx:56-64 | the contacted set becomes its toggle at `id`: the marker flips for `id`, stays for every other id, and the count moves by one; nothing else changes |
| JobFinder.NoMatchWithoutLetter | src/components/App.jsx:36-41 | a term holding a letter that none of the four searched fields contains, in either case, matches nothing |
| JobFinder.SelectedJobIsVisible | src/components/App.jsx:46-48 | with unique identifiers, a selected job from the list is itself visible and passes all three tests |

## Left out

- Text.Lower: lower-cases ASCII letters only. JavaScript's `toLowerCase` also maps non-ASCII letters; Unicode case mapping is not modelled.
- Loading `companies.json` (`App.jsx:5`, `19-22`) is not modelled. The loaded list is the constructor's argument, and the render before the load effect runs, with an empty list, is not modelled.
- React's render and effect scheduling is not modelled. Each method runs one action and the effects it triggers, in declaration order, to completion.
- Record identity is not modelled: the model compares job records by value, while React compares `selectedJob` by object identity.
- The drop-down option lists (`App.jsx:7-8`) are not modelled. The filter accepts any string as a criterion, as the code does.
- `hasActiveFilters` returns the search string itself when only the term is set (`App.jsx:73`). The model keeps only its truth value, which is all the code uses (`App.jsx:150`).
- Latitude and longitude are floating-point numbers used only by the map, so the model leaves them out. The map's centre, zoom and `key` computation (`MapView.jsx:6-24`) and the markers and popups (`MapView.jsx:27-77`) are presentation.
- `JobCard.jsx` styling, `AnimateJobCardOnScroll.jsx` and `main.jsx` are presentation and set-up, and are not modelled. The contact button's `stopPropagation` (`JobCard.jsx:54-57`) appears in the model only as `ToggleJobContact` and `SelectJob` being separate actions.
- The rendered counts (`App.jsx:95`, `98`, `168`) are the sizes of the contacted set and the visible list. They appear in the model as `ContactedCount` and `|filteredJobs|`.
