// The room-list filters: a fixed enumeration whose declaration order is the
// order in which the filter bar first shows them, and the table of filters
// that cannot be combined with each one.
module RoomListFilters {
  import opened OrderedSets

  datatype Filter = All | Unread | People | Rooms | Favourites | Invites

  /** Every filter, in declaration order. */
  const Entries: seq<Filter> := [All, Unread, People, Rooms, Favourites, Invites]

  /** The position of a filter in declaration order. */
  function Ordinal(f: Filter): (n: nat)
    ensures n < |Entries| && Entries[n] == f
  {
    match f
    case All => 0
    case Unread => 1
    case People => 2
    case Rooms => 3
    case Favourites => 4
    case Invites => 5
  }

  /** `entries` lists each filter exactly once. */
  lemma EntriesEnumerateEachOnce()
    ensures Distinct(Entries)
    ensures forall f :: f in Entries
  {
    forall f ensures f in Entries {
      assert Entries[Ordinal(f)] == f;
    }
  }

  /** `a` is declared before `b`. */
  predicate DeclaredBefore(a: Filter, b: Filter)
  {
    Before(Entries, a, b)
  }

  /** Declaration order is the order of the ordinals. */
  lemma DeclaredBeforeByOrdinal(a: Filter, b: Filter)
    ensures DeclaredBefore(a, b) <==> Ordinal(a) < Ordinal(b)
  {
    if Ordinal(a) < Ordinal(b) {
      assert Entries[Ordinal(a)] == a && Entries[Ordinal(b)] == b;
    }
    if DeclaredBefore(a, b) {
      DeclaredBeforeHasSmallerOrdinal(a, b);
    }
  }

  /** A filter that occurs before another in `Entries` has the smaller ordinal. */
  lemma DeclaredBeforeHasSmallerOrdinal(a: Filter, b: Filter)
    requires Before(Entries, a, b)
    ensures Ordinal(a) < Ordinal(b)
  {
    EntriesEnumerateEachOnce();
    var i, j :| 0 <= i < j < |Entries| && Entries[i] == a && Entries[j] == b;
    assert Ordinal(a) == i && Ordinal(b) == j;
  }

  /**
   * The filters that are dropped from the selection when `f` is selected.
   * All combines with everything; every specific filter excludes All; Invites
   * excludes every other filter; no filter excludes itself.
   */
  function IncompatibleFilters(f: Filter): (r: set<Filter>)
    ensures f !in r
    ensures r == {} <==> f == All
    ensures f != All ==> All in r
    ensures f == Invites ==> forall g: Filter :: g.Invites? || g in r
  {
    match f
    case All => {}
    case Rooms => {All, People, Invites}
    case People => {All, Rooms, Invites}
    case Unread => {All, Invites}
    case Favourites => {All, Invites}
    case Invites => {All, Rooms, People, Unread, Favourites}
  }

  /** Among the specific filters, incompatibility goes both ways. */
  lemma IncompatibilitySymmetric(f: Filter, g: Filter)
    requires f != All && g != All
    ensures g in IncompatibleFilters(f) <==> f in IncompatibleFilters(g)
  {
  }
}
