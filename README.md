# Room-list filter selection

A Dafny model of how the room list of the Element-based Android messenger
selects its filters. The filter bar offers six filters (All, Unread, People,
Rooms, Favourites, Invites). Some of them cannot be combined. The default
selection strategy keeps the chosen filters in an insertion-ordered set and
republishes the chips of the bar after every change.

The model has three modules:

- `RoomListFilters` (`room_list_filter.dfy`): the `Filter` enumeration.
  `Entries` lists the filters in declaration order, which is the order the
  bar first shows them in. `IncompatibleFilters` is the table of filters that
  each filter excludes.
- `OrderedSets` (`ordered_sets.dfy`): the insertion-ordered set (Kotlin's
  `LinkedHashSet`) as a sequence without repeats, plus the order-preserving
  operations the strategy uses:
  - `Add` models `add`;
  - `Without` models `remove`, `removeAll` and list `minus`;
  - `Dedup` models `toSet`.
- `FilterSelection` (`filter_selection.dfy`):
  - `FilterSelectionState` is one chip of the bar;
  - `BuildFilters` is the published view (`buildFilters`);
  - `AfterSelect` and `AfterDeselect` give the selection after each call;
  - the class `DefaultFilterSelectionStrategy` has the two fields of the
    source class. `selectedFilters` holds the selection and
    `filterSelectionStates` holds the published value. `Select`, `Deselect`
    and `Clear` change them in place. `IsSelected` reads them. `Valid()`
    states that the selection has no repeats and that the published value
    is always `BuildFilters` of the current selection.

`BuildFilters` follows the source branch by branch. If some filter other than
All is selected, the bar shows:

- first, the selected filters marked selected;
- then `entries` minus the selected filters, minus every filter a selected
  filter excludes, and minus All, all marked unselected.

Otherwise the bar shows All marked selected, followed by the other five
filters marked unselected. Its properties are stated by the `View…` lemmas.

Three behaviours of the code are kept as written:

- In the initial state nothing is selected, so `isSelected(All)` is false,
  but the bar shows All as selected (`InitialState`).
- Selecting All removes nothing. After selecting Unread and then All, both
  are selected (`AllJoinsSpecificFilter`). In general, selecting All beside a
  specific filter keeps that filter, and the bar shows All as one more
  selected chip (`SelectAllBesideSpecificFilter`). The filters are exclusive only in the
  direction the table states: a specific filter drops All, but All does not
  drop the specific filters.
- `deselect` refuses only when the filter is the single selected one.
  Deselecting a filter that is not selected leaves the selection as it was.

## Model

| member | source | states |
|---|---|---|
| `RoomListFilters.Ordinal` | features/roomlist/impl/src/main/kotlin/io/element/android/features/roomlist/impl/filters/RoomListFilter.kt:16-22 | every filter has a position in declaration order, and `Entries` holds that filter at that position |
| `RoomListFilters.EntriesEnumerateEachOnce` | features/roomlist/impl/src/main/kotlin/io/element/android/features/roomlist/impl/filters/RoomListFilter.kt:12-22 | `entries` lists every filter, and no filter twice |
| `RoomListFilters.DeclaredBeforeByOrdinal` | features/roomlist/impl/src/main/kotlin/io/element/android/features/roomlist/impl/filters/RoomListFilter.kt:16-22 | a filter comes before another in `entries` exactly when its ordinal is smaller |
| `RoomListFilters.DeclaredBeforeHasSmallerOrdinal` | features/roomlist/impl/src/main/kotlin/io/element/android/features/roomlist/impl/filters/RoomListFilter.kt:16-22 | if a filter occurs before another in `entries`, its ordinal is smaller |
| `RoomListFilters.IncompatibleFilters` | features/roomlist/impl/src/main/kotlin/io/element/android/features/roomlist/impl/filters/RoomListFilter.kt:24-32 | no filter excludes itself; only All excludes nothing; every specific filter excludes All; Invites excludes every other filter |
| `RoomListFilters.IncompatibilitySymmetric` | features/roomlist/impl/src/main/kotlin/io/element/android/features/roomlist/impl/filters/RoomListFilter.kt:27-31 | among the specific filters, `g` excludes `f` exactly when `f` excludes `g` |
| `OrderedSets.Add` | features/roomlist/impl/src/main/kotlin/io/element/android/features/roomlist/impl/filters/selection/DefaultFilterSelectionStrategy.kt:29 | after `add`, the set holds the old members plus the new one. Old members keep their positions. A new element grows the set by one, and a present one leaves the size unchanged. No repeats are introduced |
| `OrderedSets.AddKeepsOrder` | features/roomlist/impl/src/main/kotlin/io/element/android/features/roomlist/impl/filters/selection/DefaultFilterSelectionStrategy.kt:29 | `add` does not change the relative order of the members already present |
| `OrderedSets.Without` | features/roomlist/impl/src/main/kotlin/io/element/android/features/roomlist/impl/filters/selection/DefaultFilterSelectionStrategy.kt:63-65 | list `minus`, `remove` (line 38) and `removeAll` (line 25) keep exactly the elements not removed. The result is no longer than the input and has no repeats if the input had none |
| `OrderedSets.WithoutAbsent` | features/roomlist/impl/src/main/kotlin/io/element/android/features/roomlist/impl/filters/selection/DefaultFilterSelectionStrategy.kt:25 | `removeAll` of elements that are not present changes nothing |
| `OrderedSets.WithoutKeepsOrder` | features/roomlist/impl/src/main/kotlin/io/element/android/features/roomlist/impl/filters/selection/DefaultFilterSelectionStrategy.kt:38 | removal keeps the relative order of the elements that remain |
| `OrderedSets.Dedup` | features/roomlist/impl/src/main/kotlin/io/element/android/features/roomlist/impl/filters/selection/DefaultFilterSelectionStrategy.kt:74 | `toSet` keeps exactly the elements of the list, each once |
| `OrderedSets.DedupOfDistinct` | features/roomlist/impl/src/main/kotlin/io/element/android/features/roomlist/impl/filters/selection/DefaultFilterSelectionStrategy.kt:74 | `toSet` of a list without repeats keeps the list as it is, order included |
| `FilterSelection.IncompatibleWithAny` | features/roomlist/impl/src/main/kotlin/io/element/android/features/roomlist/impl/filters/selection/DefaultFilterSelectionStrategy.kt:64 | the `flatMap` of the table over the selection holds every filter that some selected filter excludes |
| `FilterSelection.ExcludedBySomeSelected` | features/roomlist/impl/src/main/kotlin/io/element/android/features/roomlist/impl/filters/selection/DefaultFilterSelectionStrategy.kt:64 | the `flatMap` holds nothing else: each filter in it is excluded by some selected filter |
| `FilterSelection.HasSpecificFilter` | features/roomlist/impl/src/main/kotlin/io/element/android/features/roomlist/impl/filters/selection/DefaultFilterSelectionStrategy.kt:55 | the test `any { it != RoomListFilter.All }`: holds when some selected filter is not All; it picks the branch of `BuildFilters` |
| `FilterSelection.Mark` | features/roomlist/impl/src/main/kotlin/io/element/android/features/roomlist/impl/filters/selection/DefaultFilterSelectionStrategy.kt:56-61 | the `map` of the filters to chips (also at lines 67-72 and 80-85): one chip per filter, every chip marked alike, and every filter of the list gets its chip |
| `FilterSelection.BuildFilters` | features/roomlist/impl/src/main/kotlin/io/element/android/features/roomlist/impl/filters/selection/DefaultFilterSelectionStrategy.kt:53-93 | `buildFilters`, branch by branch; its properties are the ones `ViewWithoutSpecificFilter`, `SpecificViewShape`, `ViewSelectedFirst`, `ViewOffersCompatible`, `ViewDeclarationOrder` and `ViewNoFilterTwice` prove |
| `FilterSelection.Unselected` | features/roomlist/impl/src/main/kotlin/io/element/android/features/roomlist/impl/filters/selection/DefaultFilterSelectionStrategy.kt:63-65 | the filters offered unselected are exactly those that are not selected, not excluded by a selected filter and not All. None is listed twice |
| `FilterSelection.UnselectedInDeclarationOrder` | features/roomlist/impl/src/main/kotlin/io/element/android/features/roomlist/impl/filters/selection/DefaultFilterSelectionStrategy.kt:63-65 | the filters offered unselected keep declaration order |
| `FilterSelection.AfterSelect` | features/roomlist/impl/src/main/kotlin/io/element/android/features/roomlist/impl/filters/selection/DefaultFilterSelectionStrategy.kt:22-32 | after `select(filter)`, `filter` is selected. Every other filter is selected exactly when it was selected before and `filter` is All or does not exclude it. No repeats are introduced |
| `FilterSelection.SelectIdempotent` | features/roomlist/impl/src/main/kotlin/io/element/android/features/roomlist/impl/filters/selection/DefaultFilterSelectionStrategy.kt:22-32 | selecting the same filter twice gives the same selection as selecting it once |
| `FilterSelection.SelectExcludesIncompatible` | features/roomlist/impl/src/main/kotlin/io/element/android/features/roomlist/impl/filters/selection/DefaultFilterSelectionStrategy.kt:24-29 | after selecting a specific filter, All and every filter it excludes are no longer selected |
| `FilterSelection.SelectKeepsOrder` | features/roomlist/impl/src/main/kotlin/io/element/android/features/roomlist/impl/filters/selection/DefaultFilterSelectionStrategy.kt:24-29 | filters that survive a `select` keep their relative order |
| `FilterSelection.SelectAllKeepsSelection` | features/roomlist/impl/src/main/kotlin/io/element/android/features/roomlist/impl/filters/selection/DefaultFilterSelectionStrategy.kt:24-29 | selecting All removes nothing, and every selected filter keeps its position |
| `FilterSelection.SelectAllBesideSpecificFilter` | features/roomlist/impl/src/main/kotlin/io/element/android/features/roomlist/impl/filters/selection/DefaultFilterSelectionStrategy.kt:24-31 | for any selection that holds a specific filter but not All, selecting All keeps a specific filter selected, and the rebuilt bar shows All selected right after the filters selected before it |
| `FilterSelection.AllJoinsSpecificFilter` | features/roomlist/impl/src/main/kotlin/io/element/android/features/roomlist/impl/filters/selection/DefaultFilterSelectionStrategy.kt:24-29 | selecting Unread and then All leaves both selected, in that order |
| `FilterSelection.SelectInvitesAlone` | features/roomlist/impl/src/main/kotlin/io/element/android/features/roomlist/impl/filters/selection/DefaultFilterSelectionStrategy.kt:24-29 | whatever was selected before, selecting Invites leaves exactly Invites selected |
| `FilterSelection.AfterDeselect` | features/roomlist/impl/src/main/kotlin/io/element/android/features/roomlist/impl/filters/selection/DefaultFilterSelectionStrategy.kt:34-41 | `deselect` never adds a filter and never introduces a repeat |
| `FilterSelection.DeselectSoleFilter` | features/roomlist/impl/src/main/kotlin/io/element/android/features/roomlist/impl/filters/selection/DefaultFilterSelectionStrategy.kt:36 | deselecting the only selected filter changes nothing |
| `FilterSelection.DeselectKeepsSomeFilter` | features/roomlist/impl/src/main/kotlin/io/element/android/features/roomlist/impl/filters/selection/DefaultFilterSelectionStrategy.kt:34-41 | `deselect` never empties a non-empty selection |
| `FilterSelection.DeselectRemovesExactly` | features/roomlist/impl/src/main/kotlin/io/element/android/features/roomlist/impl/filters/selection/DefaultFilterSelectionStrategy.kt:38 | apart from the sole-filter case, `deselect` removes exactly that filter. Every other filter keeps its membership and its order relative to the others |
| `FilterSelection.ViewWithoutSpecificFilter` | features/roomlist/impl/src/main/kotlin/io/element/android/features/roomlist/impl/filters/selection/DefaultFilterSelectionStrategy.kt:77-92 | when nothing or only All is selected, the bar is All marked selected, then Unread, People, Rooms, Favourites and Invites marked unselected |
| `FilterSelection.InitialView` | features/roomlist/impl/src/main/kotlin/io/element/android/features/roomlist/impl/filters/selection/DefaultFilterSelectionStrategy.kt:18-20 | the bar built from the empty initial selection is the default bar |
| `FilterSelection.InitialState` | features/roomlist/impl/src/main/kotlin/io/element/android/features/roomlist/impl/filters/selection/DefaultFilterSelectionStrategy.kt:17-45 | a new strategy answers `isSelected(All)` with false, yet its first published bar is the default bar, whose first chip is All marked selected |
| `FilterSelection.DefaultViewFiltersDistinct` | features/roomlist/impl/src/main/kotlin/io/element/android/features/roomlist/impl/filters/selection/DefaultFilterSelectionStrategy.kt:77-92 | the default bar shows each filter once |
| `FilterSelection.SpecificViewShape` | features/roomlist/impl/src/main/kotlin/io/element/android/features/roomlist/impl/filters/selection/DefaultFilterSelectionStrategy.kt:55-74 | with a specific filter selected, `toSet` removes nothing from the bar: it is the selected chips followed by the unselected ones |
| `FilterSelection.ViewSelectedFirst` | features/roomlist/impl/src/main/kotlin/io/element/android/features/roomlist/impl/filters/selection/DefaultFilterSelectionStrategy.kt:56-61 | with a specific filter selected, the bar starts with every selected filter, in selection order, marked selected |
| `FilterSelection.ViewOffersCompatible` | features/roomlist/impl/src/main/kotlin/io/element/android/features/roomlist/impl/filters/selection/DefaultFilterSelectionStrategy.kt:63-72 | after the selected chips, every chip is unselected and shows a filter that is neither All, nor selected, nor excluded by a selected filter. Every such filter gets a chip |
| `FilterSelection.ViewDeclarationOrder` | features/roomlist/impl/src/main/kotlin/io/element/android/features/roomlist/impl/filters/selection/DefaultFilterSelectionStrategy.kt:63-72 | the unselected chips follow declaration order |
| `FilterSelection.ViewNoFilterTwice` | features/roomlist/impl/src/main/kotlin/io/element/android/features/roomlist/impl/filters/selection/DefaultFilterSelectionStrategy.kt:53-93 | whatever the selection, no filter has two chips on the bar |
| `FilterSelection.DefaultFilterSelectionStrategy.constructor` | features/roomlist/impl/src/main/kotlin/io/element/android/features/roomlist/impl/filters/selection/DefaultFilterSelectionStrategy.kt:17-20 | a new strategy has an empty selection and publishes the default bar |
| `FilterSelection.DefaultFilterSelectionStrategy.Select` | features/roomlist/impl/src/main/kotlin/io/element/android/features/roomlist/impl/filters/selection/DefaultFilterSelectionStrategy.kt:22-32 | the selection becomes `AfterSelect` of the old one and the bar is republished for it. The filter is selected, and no filter it excludes is |
| `FilterSelection.DefaultFilterSelectionStrategy.Deselect` | features/roomlist/impl/src/main/kotlin/io/element/android/features/roomlist/impl/filters/selection/DefaultFilterSelectionStrategy.kt:34-41 | the selection becomes `AfterDeselect` of the old one and the bar matches it. A non-empty selection stays non-empty |
| `FilterSelection.DefaultFilterSelectionStrategy.IsSelected` | features/roomlist/impl/src/main/kotlin/io/element/android/features/roomlist/impl/filters/selection/DefaultFilterSelectionStrategy.kt:43-45 | answers whether the filter is in the current selection |
| `FilterSelection.DefaultFilterSelectionStrategy.Clear` | features/roomlist/impl/src/main/kotlin/io/element/android/features/roomlist/impl/filters/selection/DefaultFilterSelectionStrategy.kt:47-51 | the selection becomes exactly All, and the bar is the default bar |

## Left out

- The `MutableStateFlow` holding the published value is a plain field.
  Emission to collectors, and the coroutine machinery behind it, are not
  modelled.
- The `FilterSelectionStrategy` interface is not part of this model, and
  neither is the source of the `FilterSelectionState` class. The chip is
  declared minimally as a filter and a selected flag.
- The dependency-injection annotations and the scope binding are left out.
  They carry no behaviour.
- The string resource attached to each filter is left out. It is a
  platform lookup used only for display.
- The chips are rendered by the filter bar view, with its scrolling and
  animation. That view is declarative UI and is left out.
- The published `Set<FilterSelectionState>` is an insertion-ordered set. It
  is modelled as a sequence without repeats. Its order is exactly the order
  in which the source builds it.
