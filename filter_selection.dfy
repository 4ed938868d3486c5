// The default filter selection strategy of the room list: an
// insertion-ordered set of selected filters, and the view of the filter bar
// that is republished after every change.
module FilterSelection {
  import opened OrderedSets
  import opened RoomListFilters

  /** One chip of the filter bar: a filter and whether it is shown selected. */
  datatype FilterSelectionState = FilterSelectionState(filter: Filter, isSelected: bool)

  /** The filter bar when no specific filter is selected: All selected, then the rest in declaration order. */
  const DefaultView: seq<FilterSelectionState> := [
    FilterSelectionState(All, true),
    FilterSelectionState(Unread, false),
    FilterSelectionState(People, false),
    FilterSelectionState(Rooms, false),
    FilterSelectionState(Favourites, false),
    FilterSelectionState(Invites, false)
  ]

  /** `map { FilterSelectionState(it, isSelected) }`: one chip per filter, all marked alike. */
  function Mark(fs: seq<Filter>, isSelected: bool): (r: seq<FilterSelectionState>)
    ensures |r| == |fs|
    ensures forall c :: c in r ==> c.filter in fs && c.isSelected == isSelected
    ensures forall f :: f in fs ==> FilterSelectionState(f, isSelected) in r
  {
    var r := seq(|fs|, i requires 0 <= i < |fs| => FilterSelectionState(fs[i], isSelected));
    ChipPerFilter(fs, r, isSelected);
    r
  }

  lemma ChipPerFilter(fs: seq<Filter>, r: seq<FilterSelectionState>, isSelected: bool)
    requires |r| == |fs|
    requires forall i :: 0 <= i < |fs| ==> r[i] == FilterSelectionState(fs[i], isSelected)
    ensures forall f :: f in fs ==> FilterSelectionState(f, isSelected) in r
  {
    forall f | f in fs ensures FilterSelectionState(f, isSelected) in r {
      var k :| 0 <= k < |fs| && fs[k] == f;
      assert r[k] == FilterSelectionState(f, isSelected);
    }
  }

  /** Some filter other than All is selected. */
  predicate HasSpecificFilter(selected: seq<Filter>)
  {
    exists f :: f in selected && f != All
  }

  /** `flatMap { it.incompatibleFilters }.toSet()`: every filter some selected filter excludes. */
  function IncompatibleWithAny(selected: seq<Filter>): (r: set<Filter>)
    ensures forall f, g :: f in selected && g in IncompatibleFilters(f) ==> g in r
    decreases |selected|
  {
    if selected == [] then {}
    else IncompatibleFilters(selected[0]) + IncompatibleWithAny(selected[1..])
  }

  /** Nothing else is excluded: each excluded filter is excluded by some selected filter. */
  lemma {:induction false} ExcludedBySomeSelected(selected: seq<Filter>, g: Filter)
    requires g in IncompatibleWithAny(selected)
    ensures exists f :: f in selected && g in IncompatibleFilters(f)
    decreases |selected|
  {
    if g !in IncompatibleFilters(selected[0]) {
      ExcludedBySomeSelected(selected[1..], g);
      var f :| f in selected[1..] && g in IncompatibleFilters(f);
      assert f in selected;
    }
  }

  /**
   * The filters offered unselected beside a selection that holds a specific
   * filter: `entries - selected - incompatible - All`.
   */
  function Unselected(selected: seq<Filter>): (r: seq<Filter>)
    ensures forall g :: g in r <==> g !in selected && g !in IncompatibleWithAny(selected) && g != All
    ensures Distinct(r)
  {
    EntriesEnumerateEachOnce();
    Without(Without(Without(Entries, Elements(selected)), IncompatibleWithAny(selected)), {All})
  }

  /** The published view of the filter bar for a selection (`buildFilters`). */
  function BuildFilters(selected: seq<Filter>): seq<FilterSelectionState>
  {
    if HasSpecificFilter(selected) then
      Dedup(Mark(selected, true) + Mark(Unselected(selected), false))
    else
      Dedup([FilterSelectionState(All, true)] + Mark(Without(Entries, {All}), false))
  }

  /** The selection after `select(filter)`. */
  function AfterSelect(selected: seq<Filter>, filter: Filter): (r: seq<Filter>)
    ensures filter in r
    ensures forall g :: g != filter ==>
      (g in r <==> g in selected && (filter == All || g !in IncompatibleFilters(filter)))
    ensures Distinct(selected) ==> Distinct(r)
  {
    var kept := if filter != All then Without(selected, IncompatibleFilters(filter)) else selected;
    Add(kept, filter)
  }

  /** The selection after `deselect(filter)`. */
  function AfterDeselect(selected: seq<Filter>, filter: Filter): (r: seq<Filter>)
    ensures forall g :: g in r ==> g in selected
    ensures Distinct(selected) ==> Distinct(r)
  {
    if |selected| == 1 && filter in selected then selected
    else Without(selected, {filter})
  }

  // ----- Properties of select -----

  /** Selecting the same filter twice leaves the selection it left the first time. */
  lemma SelectIdempotent(selected: seq<Filter>, filter: Filter)
    requires Distinct(selected)
    ensures AfterSelect(AfterSelect(selected, filter), filter) == AfterSelect(selected, filter)
  {
    var once := AfterSelect(selected, filter);
    if filter != All {
      WithoutAbsent(once, IncompatibleFilters(filter));
    }
  }

  /** A specific filter drops every filter it is incompatible with, All among them. */
  lemma SelectExcludesIncompatible(selected: seq<Filter>, filter: Filter)
    requires filter != All
    ensures All !in AfterSelect(selected, filter)
    ensures forall g :: g in IncompatibleFilters(filter) ==> g !in AfterSelect(selected, filter)
  {
  }

  /**
   * Filters that `filter` does not exclude keep both their membership (see
   * `AfterSelect`) and their relative order.
   */
  lemma SelectKeepsOrder(selected: seq<Filter>, filter: Filter, g: Filter, h: Filter)
    requires g in selected && h in selected
    requires filter == All || (g !in IncompatibleFilters(filter) && h !in IncompatibleFilters(filter))
    ensures Before(AfterSelect(selected, filter), g, h) <==> Before(selected, g, h)
  {
    if filter != All {
      var kept := Without(selected, IncompatibleFilters(filter));
      WithoutKeepsOrder(selected, IncompatibleFilters(filter), g, h);
      AddKeepsOrder(kept, filter, g, h);
    } else {
      AddKeepsOrder(selected, filter, g, h);
    }
  }

  /** Selecting All drops nothing: every selected filter keeps its place. */
  lemma SelectAllKeepsSelection(selected: seq<Filter>)
    ensures AfterSelect(selected, All)[..|selected|] == selected
    ensures forall g :: g in selected ==> g in AfterSelect(selected, All)
  {
  }

  /** Selecting Invites leaves Invites as the only selected filter. */
  lemma SelectInvitesAlone(selected: seq<Filter>)
    requires Distinct(selected)
    ensures AfterSelect(selected, Invites) == [Invites]
  {
    Singleton(AfterSelect(selected, Invites), Invites);
  }

  /**
   * Selecting All after a specific filter does not drop that filter, so All
   * and a specific filter can be selected together.
   */
  lemma AllJoinsSpecificFilter()
    ensures AfterSelect(AfterSelect([], Unread), All) == [Unread, All]
    ensures HasSpecificFilter([Unread, All])
  {
    assert Unread in [Unread, All];
  }

  /**
   * In general: selecting All beside a specific filter keeps the specific
   * filter, and the bar then shows All as one more selected chip, right after
   * the filters selected before it.
   */
  lemma SelectAllBesideSpecificFilter(selected: seq<Filter>)
    requires Distinct(selected) && HasSpecificFilter(selected) && All !in selected
    ensures HasSpecificFilter(AfterSelect(selected, All))
    ensures |selected| < |BuildFilters(AfterSelect(selected, All))|
    ensures BuildFilters(AfterSelect(selected, All))[|selected|] == FilterSelectionState(All, true)
  {
    var after := AfterSelect(selected, All);
    assert after == selected + [All];
    var f :| f in selected && f != All;
    assert f in after;
    ViewSelectedFirst(after);
  }

  // ----- Properties of deselect -----

  /** Deselecting the only selected filter changes nothing. */
  lemma DeselectSoleFilter(filter: Filter)
    ensures AfterDeselect([filter], filter) == [filter]
  {
  }

  /** Deselecting never empties a non-empty selection. */
  lemma DeselectKeepsSomeFilter(selected: seq<Filter>, filter: Filter)
    requires Distinct(selected) && selected != []
    ensures AfterDeselect(selected, filter) != []
  {
    if |selected| != 1 || filter !in selected {
      FirstTwo(selected);
      var g := if selected[0] != filter then selected[0] else selected[1];
      assert g in AfterDeselect(selected, filter);
    }
  }

  /**
   * Otherwise deselecting removes exactly `filter` and keeps the order of
   * the filters that stay.
   */
  lemma DeselectRemovesExactly(selected: seq<Filter>, filter: Filter, g: Filter, h: Filter)
    requires !(|selected| == 1 && filter in selected)
    requires g != filter && h != filter
    ensures filter !in AfterDeselect(selected, filter)
    ensures g in AfterDeselect(selected, filter) <==> g in selected
    ensures Before(AfterDeselect(selected, filter), g, h) <==> Before(selected, g, h)
  {
    WithoutKeepsOrder(selected, {filter}, g, h);
  }

  // ----- Properties of the published view -----

  /**
   * With no specific filter selected (nothing at all, or only All) the bar
   * shows all six filters, All first and selected, the rest unselected in
   * declaration order.
   */
  lemma ViewWithoutSpecificFilter(selected: seq<Filter>)
    requires forall f :: f in selected ==> f == All
    ensures BuildFilters(selected) == DefaultView
  {
    assert !HasSpecificFilter(selected);
    DefaultViewBuilt();
  }

  // The three lemmas below compute the default view one step at a time.

  lemma DefaultViewBuilt()
    ensures Dedup([FilterSelectionState(All, true)] + Mark(Without(Entries, {All}), false)) == DefaultView
  {
    SpecificEntries();
    DefaultViewDeduplicated();
  }

  lemma SpecificEntries()
    ensures Without(Entries, {All}) == Entries[1..]
  {
    WithoutAbsent(Entries[1..], {All});
  }

  lemma DefaultViewDeduplicated()
    ensures Dedup([FilterSelectionState(All, true)] + Mark(Entries[1..], false)) == DefaultView
  {
    assert [FilterSelectionState(All, true)] + Mark(Entries[1..], false) == DefaultView;
    DedupOfDistinct(DefaultView);
  }

  /** The default view shows each filter once. */
  lemma DefaultViewFiltersDistinct()
    ensures forall i, j :: 0 <= i < j < |DefaultView| ==> DefaultView[i].filter != DefaultView[j].filter
  {
    EntriesEnumerateEachOnce();
    forall i | 0 <= i < |DefaultView| ensures DefaultView[i].filter == Entries[i] {
    }
  }

  /** In the initial state All is not selected, yet the bar shows it selected. */
  lemma InitialView()
    ensures BuildFilters([]) == DefaultView
  {
    ViewWithoutSpecificFilter([]);
  }

  // Layout, ChipsOffered, ChipsInOrder and ChipsDistinct reason about a bar
  // made of selected chips followed by unselected ones, apart from how the
  // two parts are computed.

  /** Where each chip of `Mark(first, true) + Mark(rest, false)` comes from. */
  lemma Layout(first: seq<Filter>, rest: seq<Filter>)
    ensures |Mark(first, true) + Mark(rest, false)| == |first| + |rest|
    ensures forall i :: 0 <= i < |first| ==>
      (Mark(first, true) + Mark(rest, false))[i] == FilterSelectionState(first[i], true)
    ensures forall i :: |first| <= i < |first| + |rest| ==>
      (Mark(first, true) + Mark(rest, false))[i] == FilterSelectionState(rest[i - |first|], false)
  {
  }

  /** The view with a specific filter selected is the selected chips followed by the unselected ones. */
  lemma SpecificViewShape(selected: seq<Filter>)
    requires Distinct(selected) && HasSpecificFilter(selected)
    ensures BuildFilters(selected) == Mark(selected, true) + Mark(Unselected(selected), false)
  {
    var un := Unselected(selected);
    var v := Mark(selected, true) + Mark(un, false);
    Layout(selected, un);
    forall i, j | 0 <= i < j < |v| ensures v[i] != v[j] {
    }
    DedupOfDistinct(v);
  }

  /** With a specific filter selected, the bar starts with the selected filters, in selection order, shown selected. */
  lemma ViewSelectedFirst(selected: seq<Filter>)
    requires Distinct(selected) && HasSpecificFilter(selected)
    ensures |selected| <= |BuildFilters(selected)|
    ensures forall i :: 0 <= i < |selected| ==> BuildFilters(selected)[i] == FilterSelectionState(selected[i], true)
  {
    SpecificViewShape(selected);
    Layout(selected, Unselected(selected));
  }

  /**
   * After the selected filters the bar shows, unselected, exactly the filters
   * that are neither selected, nor All, nor excluded by a selected filter.
   */
  lemma ViewOffersCompatible(selected: seq<Filter>)
    requires Distinct(selected) && HasSpecificFilter(selected)
    ensures forall i :: |selected| <= i < |BuildFilters(selected)| ==>
      var c := BuildFilters(selected)[i];
      !c.isSelected && c.filter != All && c.filter !in selected && c.filter !in IncompatibleWithAny(selected)
    ensures forall g :: g != All && g !in selected && g !in IncompatibleWithAny(selected) ==>
      FilterSelectionState(g, false) in BuildFilters(selected)
  {
    SpecificViewShape(selected);
    ChipsOffered(selected, Unselected(selected));
  }

  lemma ChipsOffered(first: seq<Filter>, rest: seq<Filter>)
    ensures forall i :: |first| <= i < |Mark(first, true) + Mark(rest, false)| ==>
      !(Mark(first, true) + Mark(rest, false))[i].isSelected && (Mark(first, true) + Mark(rest, false))[i].filter in rest
    ensures forall g :: g in rest ==> FilterSelectionState(g, false) in Mark(first, true) + Mark(rest, false)
  {
    var v, n := Mark(first, true) + Mark(rest, false), |first|;
    Layout(first, rest);
    forall i | n <= i < |v| ensures !v[i].isSelected && v[i].filter in rest {
      assert v[i] == FilterSelectionState(rest[i - n], false);
    }
    forall g | g in rest ensures FilterSelectionState(g, false) in v {
      var k :| 0 <= k < |rest| && rest[k] == g;
      assert v[n + k] == FilterSelectionState(g, false);
    }
  }

  /** The unselected part of the bar keeps declaration order. */
  lemma ViewDeclarationOrder(selected: seq<Filter>)
    requires Distinct(selected) && HasSpecificFilter(selected)
    ensures forall i, j :: |selected| <= i < j < |BuildFilters(selected)| ==>
      DeclaredBefore(BuildFilters(selected)[i].filter, BuildFilters(selected)[j].filter)
  {
    var un := Unselected(selected);
    forall i, j | 0 <= i < j < |un| ensures DeclaredBefore(un[i], un[j]) {
      UnselectedInDeclarationOrder(selected, i, j);
    }
    SpecificViewShape(selected);
    ChipsInOrder(selected, un);
  }

  lemma ChipsInOrder(first: seq<Filter>, rest: seq<Filter>)
    requires forall i, j :: 0 <= i < j < |rest| ==> DeclaredBefore(rest[i], rest[j])
    ensures forall i, j :: |first| <= i < j < |Mark(first, true) + Mark(rest, false)| ==>
      DeclaredBefore((Mark(first, true) + Mark(rest, false))[i].filter, (Mark(first, true) + Mark(rest, false))[j].filter)
  {
    var v, n := Mark(first, true) + Mark(rest, false), |first|;
    Layout(first, rest);
    forall i, j | n <= i < j < |v| ensures DeclaredBefore(v[i].filter, v[j].filter) {
      assert v[i].filter == rest[i - n] && v[j].filter == rest[j - n];
    }
  }

  /** No filter has two chips on the bar. */
  lemma ViewNoFilterTwice(selected: seq<Filter>)
    requires Distinct(selected)
    ensures forall i, j :: 0 <= i < j < |BuildFilters(selected)| ==>
      BuildFilters(selected)[i].filter != BuildFilters(selected)[j].filter
  {
    if HasSpecificFilter(selected) {
      SpecificViewShape(selected);
      ChipsDistinct(selected, Unselected(selected));
    } else {
      ViewWithoutSpecificFilter(selected);
      DefaultViewFiltersDistinct();
    }
  }

  lemma ChipsDistinct(first: seq<Filter>, rest: seq<Filter>)
    requires Distinct(first) && Distinct(rest)
    requires forall g :: g in rest ==> g !in first
    ensures forall i, j :: 0 <= i < j < |Mark(first, true) + Mark(rest, false)| ==>
      (Mark(first, true) + Mark(rest, false))[i].filter != (Mark(first, true) + Mark(rest, false))[j].filter
  {
    var v, n := Mark(first, true) + Mark(rest, false), |first|;
    Layout(first, rest);
    forall i, j | 0 <= i < j < |v| ensures v[i].filter != v[j].filter {
      if j < n {
        assert v[i].filter == first[i] && v[j].filter == first[j];
      } else if i < n {
        assert v[i].filter == first[i] && v[j].filter == rest[j - n] && rest[j - n] in rest;
      } else {
        assert v[i].filter == rest[i - n] && v[j].filter == rest[j - n];
      }
    }
  }

  /** The unselected filters keep declaration order. */
  lemma UnselectedInDeclarationOrder(selected: seq<Filter>, i: int, j: int)
    requires 0 <= i < j < |Unselected(selected)|
    ensures DeclaredBefore(Unselected(selected)[i], Unselected(selected)[j])
  {
    var un := Unselected(selected);
    var a, b := un[i], un[j];
    var xs1, xs2 := Elements(selected), IncompatibleWithAny(selected);
    var w1 := Without(Entries, xs1);
    var w2 := Without(w1, xs2);
    assert Before(un, a, b);
    WithoutKeepsOrder(w2, {All}, a, b);
    WithoutKeepsOrder(w1, xs2, a, b);
    WithoutKeepsOrder(Entries, xs1, a, b);
  }

  /**
   * The strategy object: the selected filters as an insertion-ordered set,
   * and the view it publishes.
   */
  class DefaultFilterSelectionStrategy {
    var selectedFilters: seq<Filter>
    var filterSelectionStates: seq<FilterSelectionState>

    /** The selection has no repeats and the published view is built from it. */
    ghost predicate Valid()
      reads this
    {
      Distinct(selectedFilters) && filterSelectionStates == BuildFilters(selectedFilters)
    }

    constructor ()
      ensures Valid()
      ensures selectedFilters == [] && filterSelectionStates == DefaultView
    {
      selectedFilters := [];
      filterSelectionStates := BuildFilters([]);
      InitialView();
    }

    method Select(filter: Filter)
      requires Valid()
      modifies this
      ensures Valid()
      ensures selectedFilters == AfterSelect(old(selectedFilters), filter)
      ensures filter in selectedFilters
      ensures filter != All ==> forall g :: g in IncompatibleFilters(filter) ==> g !in selectedFilters
    {
      if filter != All {
        selectedFilters := Without(selectedFilters, IncompatibleFilters(filter));
      }
      selectedFilters := Add(selectedFilters, filter);
      filterSelectionStates := BuildFilters(selectedFilters);
    }

    method Deselect(filter: Filter)
      requires Valid()
      modifies this
      ensures Valid()
      ensures selectedFilters == AfterDeselect(old(selectedFilters), filter)
      ensures old(selectedFilters) != [] ==> selectedFilters != []
    {
      if |selectedFilters| == 1 && filter in selectedFilters {
        return;
      }
      if selectedFilters != [] {
        DeselectKeepsSomeFilter(selectedFilters, filter);
      }
      selectedFilters := Without(selectedFilters, {filter});
      filterSelectionStates := BuildFilters(selectedFilters);
    }

    method IsSelected(filter: Filter) returns (b: bool)
      ensures b <==> filter in selectedFilters
    {
      b := filter in selectedFilters;
    }

    method Clear()
      requires Valid()
      modifies this
      ensures Valid()
      ensures selectedFilters == [All] && filterSelectionStates == DefaultView
    {
      selectedFilters := [];
      selectedFilters := Add(selectedFilters, All);
      filterSelectionStates := BuildFilters(selectedFilters);
      ViewWithoutSpecificFilter(selectedFilters);
    }
  }

  /**
   * A new strategy reports All as not selected, yet publishes the default
   * bar, in which All is shown selected.
   */
  method InitialState() returns (allSelected: bool, view: seq<FilterSelectionState>)
    ensures !allSelected && view == DefaultView
    ensures view[0] == FilterSelectionState(All, true)
  {
    var strategy := new DefaultFilterSelectionStrategy();
    allSelected := strategy.IsSelected(All);
    view := strategy.filterSelectionStates;
  }
}
