# Trip map filters and marker icons, in Dafny

A model of the filter and icon logic of the trip map page (`src/app/trips/Map.tsx`):
a pilgrimage-site dataset is shown as map markers, and two rows of toggle buttons
pick which site categories (jyotirlinga, jyotipeeth, shaktipeeth, krishna) and which
visit statuses (visited, notVisited) are shown.

The model has three pure parts:

- **Selection toggle** (`selection.dfy`, `filters.dfy`). Each button click applies one
  list update to a `seq<string>`. A selected key loses every occurrence. An unselected
  key is appended. `Filters` wraps the two lists in a `FilterState` and replays click
  sequences. It also maps the lists to two key sets, where a click flips the clicked key
  in one of them, and proves that the lists select the same keys as those sets.
- **Visibility** (`mapview.dfy`). The markers are the dataset records whose category
  and derived status (`visited` → `"visited"`, otherwise `"notVisited"`) are both
  selected, in dataset order.
- **Icon resolver** (`icons.dfy`). A `(category, visited)` pair gives an icon
  descriptor: an image path plus fixed size and anchor geometry.

`seqs.dfy` holds the order-preserving `Filter` that both the toggle and the visibility
filter use, the subsequence relation and duplicate-freedom. `keys.dfy` holds the
category and status keys and the default selections.

The dataset (`@/data/temples.json`) is not part of this model. It is a parameter
`seq<Location>` of every view function.

Points where the program's behaviour is easy to misread:

- Two clicks on the same button might be expected to restore the previous list. The
  code restores which keys are selected, and with them the visible markers
  (`Filters.ClickTwiceRestoresSelection`, `MapView.ClickTwiceRestoresVisible`). It
  restores the exact list if and only if the key was absent, or occurred exactly once
  as the last element (`Selection.ToggleTwiceRestoresListIff`). Two clicks on
  "krishna" from the initial list are such a case (`Selection.ToggleTwiceLastKeyRestores`).
  In every other case the key ends up once, at the end (`Selection.ToggleTwiceFromPresent`,
  `Selection.ToggleTwiceReorders`).
- A record's category is stored as an arbitrary string and nothing validates it, so
  `Location.category` is a `string`.
- `getIcon` gives an unknown category an empty image path, with no fallback icon and no
  error (`Icons.GetIcon`). On the page this path is never drawn, whatever the dataset.
  The category list starts with the four known keys, and the category buttons only
  toggle those keys, so a record of any other category is never visible
  (`MapView.ReachableMarkersHaveImages`). For an arbitrary filter state, the same holds
  when the dataset has only known categories (`MapView.KnownRecordsGetImages`).

## Model

| member | source | states |
|---|---|---|
| Seqs.Filter | src/app/trips/Map.tsx:153-158 | The result holds exactly the elements that pass the test. The result is a subsequence of the input, so dataset order is kept. It is shorter than the input unless every element passes. |
| Seqs.FilterMultiplicity | src/app/trips/Map.tsx:153-158 | Each element that passes the test occurs in the result as often as in the input. Every other element does not occur. |
| Seqs.FilterConcat | src/app/trips/Map.tsx:153-158 | Filtering distributes over concatenation. This is the element-by-element reference definition of the filter. |
| Seqs.FilterKeepsNoDuplicates | src/app/trips/Map.tsx:70 | Filtering a duplicate-free list gives a duplicate-free list. |
| Selection.Remove | src/app/trips/Map.tsx:70 | No occurrence of the key is left. Every other key keeps its count and its relative order. The list gets strictly shorter when the key was present. |
| Selection.Toggle | src/app/trips/Map.tsx:68-78 | The toggled key's membership flips and every other key's membership is kept. An absent key is appended after the unchanged list. A present key loses every occurrence while the other keys keep their counts and order. |
| Selection.ToggleTwiceRestoresMembership | src/app/trips/Map.tsx:70 | After two toggles of the same key, exactly the original keys are members. |
| Selection.ToggleTwiceFromAbsent | src/app/trips/Map.tsx:70 | Two toggles of an initially absent key give back the exact original list. |
| Selection.ToggleTwiceFromPresent | src/app/trips/Map.tsx:70 | Two toggles of an initially present key give the list without that key, followed by one copy of it. |
| Selection.ToggleTwiceRestoresListIff | src/app/trips/Map.tsx:70 | Two toggles give back the exact list if and only if the key was absent, or occurred once as the last element. |
| Selection.ToggleTwiceLastKeyRestores | src/app/trips/Map.tsx:31-36 | Two toggles of "krishna", the last key of the initial category list, give back that list unchanged. |
| Selection.ToggleTwiceReorders | src/app/trips/Map.tsx:70 | Counterexample to exact restoration: toggling "a" twice in ["a", "b"] gives ["b", "a"]. |
| Selection.ToggleKeepsNoDuplicates | src/app/trips/Map.tsx:68-78 | A toggle keeps a duplicate-free selection list duplicate-free. |
| Selection.ToggleTwiceIsPermutation | src/app/trips/Map.tsx:68-78 | On a duplicate-free list, two toggles of one key give a permutation of the list. |
| Keys.ParseCategory | src/app/trips/Map.tsx:84-92 | A recognised key is the key of the category it names. An unrecognised key is the key of no category. |
| Keys.ParseKey | src/app/trips/Map.tsx:84-92 | Every category's key is recognised as that category. |
| Keys.StatusKey | src/app/trips/Map.tsx:157 | The derived status is "visited" for a visited record and "notVisited" otherwise. |
| Keys.StatusKeyInjective | src/app/trips/Map.tsx:157 | The derived status separates visited from not-visited records. |
| Keys.DefaultsSelectEveryKeyOnce | src/app/trips/Map.tsx:31-40 | The initial category list holds exactly the four known keys. The initial status list holds both status keys. Both lists are duplicate-free. |
| Filters.ToggleCategory | src/app/trips/Map.tsx:68-72 | A category click flips the clicked key's membership, keeps every other category key's, and leaves the status list untouched. Any string is accepted as a key. |
| Filters.ToggleStatus | src/app/trips/Map.tsx:74-78 | A status click flips the clicked key's membership, keeps every other status key's, and leaves the category list untouched. Any string is accepted as a key. |
| Filters.RunKeepsWellFormed | src/app/trips/Map.tsx:68-78 | Any sequence of clicks keeps both selection lists duplicate-free. |
| Filters.ReachableStatesWellFormed | src/app/trips/Map.tsx:31-40 | Every state reachable from the initial selection is duplicate-free. |
| Filters.ButtonClicksKeepCategoriesKnown | src/app/trips/Map.tsx:42-47 | Clicks that carry the panel's button keys keep every selected category one of the four known keys. |
| Filters.StepRefinesAbstractStep | src/app/trips/Map.tsx:68-78 | One click on the lists selects the same keys as flipping the clicked key in the matching key set. |
| Filters.RunRefinesAbstractRun | src/app/trips/Map.tsx:68-78 | Any click sequence on the lists selects the same keys as the same sequence of flips on the key sets. |
| Filters.ClickTwiceRestoresSelection | src/app/trips/Map.tsx:68-78 | Clicking the same button twice restores the set of selected keys. |
| Icons.GetIcon | src/app/trips/Map.tsx:81-100 | Size is [32,32], anchor [16,32] and popup anchor [0,-32] for every input. The image path is empty exactly when the category is not one of the four known keys. |
| Icons.GetIconFollowsConvention | src/app/trips/Map.tsx:84-92 | Each known category's path is `/icons/{key}-visited.png` when visited and `/icons/{key}.png` otherwise. |
| Icons.IconUrlsDistinct | src/app/trips/Map.tsx:84-92 | The four categories and two visit states give eight pairwise distinct image paths. |
| Icons.IconGeometryUniform | src/app/trips/Map.tsx:94-99 | Any two descriptors differ at most in their image path. |
| MapView.Visible | src/app/trips/Map.tsx:153-158 | A record is visible exactly when it is in the dataset with its category selected and its derived status selected. It keeps its multiplicity, and visible records appear in dataset order. |
| MapView.Markers | src/app/trips/Map.tsx:159-164 | There is one marker per visible record, in the same order. Each marker has the record's id as key, its coordinates as position, and the icon for its category and visit status. |
| MapView.EmptySelectionShowsNothing | src/app/trips/Map.tsx:153-158 | If either selection list is empty, no record is visible. |
| MapView.InitialShowsKnownRecords | src/app/trips/Map.tsx:153-158 | With the initial selections, a dataset whose categories are all known is shown in full. |
| MapView.VisibleDependsOnSelectedKeys | src/app/trips/Map.tsx:153-158 | Two states that select the same keys show the same records, whatever the order or repetition in their lists. |
| MapView.ClickTwiceRestoresVisible | src/app/trips/Map.tsx:153-158 | Clicking the same button twice shows the same records as before. |
| MapView.SelectingMoreShowsMore | src/app/trips/Map.tsx:153-158 | Selecting a previously unselected key only adds records, and the records already shown keep their relative order. |
| MapView.VisibleByRecord | src/app/trips/Map.tsx:153-158 | Visibility is decided record by record. The visible list of a concatenation is the concatenation of the visible lists, and one record is visible exactly when it is shown. |
| MapView.UnusedCategoryKeyChangesNothing | src/app/trips/Map.tsx:68-72 | Toggling a category key that no record carries leaves the visible records unchanged. |
| MapView.KnownRecordsGetImages | src/app/trips/Map.tsx:159-164 | For a dataset whose categories are all known, no drawn marker has an empty image path. |
| MapView.ReachableMarkersHaveImages | src/app/trips/Map.tsx:108-164 | From the initial state, after any sequence of button clicks, no drawn marker has an empty image path, for any dataset. |
| MapView.KrishnaScenario | src/app/trips/Map.tsx:153-164 | A visited krishna record at (20, 80) starts with one marker that uses `/icons/krishna-visited.png`. Deselecting "visited" removes the marker. Reselecting "visited" brings back the identical marker. |

## Left out

- Loading the mapping library (`src/app/trips/Map.tsx:11-27`, `54-66`). The dynamic imports and the "Loading map..." placeholder are asynchronous module loading. The model assumes the library is loaded.
- JSX rendering (`src/app/trips/Map.tsx:102-175`). This covers CSS class choice, button labels and emoji, popup markup and the tile-layer URL. Of the button lists at lines 42-52 only the keys are modelled (`Filters.IsButtonClick`); the toggles themselves accept any string.
- Map centre and zoom (`src/app/trips/Map.tsx:144-145`). These are fixed configuration values.
- Record coordinates. They are carried as an opaque `LatLng` pair of reals, with no arithmetic on them.
- The mapping library's icon constructor (`src/app/trips/Map.tsx:94`). This is a foreign call. Only the descriptor passed to it is modelled.
- `src/app/trips/page.tsx`. It holds page metadata and layout and has no logic.
- The contents of `@/data/temples.json`. The model treats the dataset as an arbitrary sequence. A record's `id` is modelled as an `int`.
- MapView.Markers: the contract covers each marker's key, position and icon, but not the popup text (name, category, status label), which is markup.
