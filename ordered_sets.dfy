// Insertion-ordered sets (Kotlin's LinkedHashSet) and the order-preserving
// list operations the filter selection relies on. An insertion-ordered set is
// a sequence in which no element occurs twice.
module OrderedSets {

  /** No element occurs twice. */
  predicate Distinct<T(==)>(s: seq<T>)
  {
    forall i, j :: 0 <= i < j < |s| ==> s[i] != s[j]
  }

  /**
   * The elements of a sequence, as a set. The ensures repeats the body; it is
   * there so that the solver sees membership without unfolding the
   * comprehension, not as a property of its own.
   */
  function Elements<T(!new)>(s: seq<T>): (r: set<T>)
    ensures forall y :: y in r <==> y in s
  {
    set y | y in s
  }

  /** `a` occurs somewhere before `b`. */
  predicate Before<T(==)>(s: seq<T>, a: T, b: T)
  {
    exists i, j :: 0 <= i < j < |s| && s[i] == a && s[j] == b
  }

  /**
   * `add` on an insertion-ordered set: an element already present keeps its
   * place, a new one goes to the end.
   */
  function Add<T(==,!new)>(s: seq<T>, x: T): (r: seq<T>)
    ensures forall y :: y in r <==> y in s || y == x
    ensures |r| == if x in s then |s| else |s| + 1
    ensures r[..|s|] == s
    ensures Distinct(s) ==> Distinct(r)
  {
    if x in s then s else s + [x]
  }

  /**
   * Order-preserving removal of every element of `xs`: `removeAll` and
   * `remove` on an insertion-ordered set, and `minus` on a list.
   */
  function Without<T(==,!new)>(s: seq<T>, xs: set<T>): (r: seq<T>)
    ensures forall y :: y in r <==> y in s && y !in xs
    ensures |r| <= |s|
    ensures Distinct(s) ==> Distinct(r)
    decreases |s|
  {
    if s == [] then []
    else if s[0] in xs then Without(s[1..], xs)
    else [s[0]] + Without(s[1..], xs)
  }

  /**
   * `toSet` on a list (and `+` onto a set): an insertion-ordered set holding
   * the first occurrence of every element, in list order.
   */
  function Dedup<T(==,!new)>(s: seq<T>): (r: seq<T>)
    ensures forall y :: y in r <==> y in s
    ensures Distinct(r)
    decreases |s|
  {
    if s == [] then []
    else
      var d := Dedup(s[..|s| - 1]);
      if s[|s| - 1] in d then d else d + [s[|s| - 1]]
  }

  /** A list without repeats becomes a set with the same order. */
  lemma {:induction false} DedupOfDistinct<T(!new)>(s: seq<T>)
    requires Distinct(s)
    ensures Dedup(s) == s
    decreases |s|
  {
    if s != [] {
      var init := s[..|s| - 1];
      assert Distinct(init);
      DedupOfDistinct(init);
      assert s[|s| - 1] !in init;
      assert init + [s[|s| - 1]] == s;
    }
  }

  /** Removing elements that do not occur changes nothing. */
  lemma {:induction false} WithoutAbsent<T(!new)>(s: seq<T>, xs: set<T>)
    requires forall y :: y in s ==> y !in xs
    ensures Without(s, xs) == s
    decreases |s|
  {
    if s != [] {
      assert s[0] in s;
      WithoutAbsent(s[1..], xs);
      assert [s[0]] + s[1..] == s;
    }
  }

  lemma BeforeCons<T>(x: T, t: seq<T>, a: T, b: T)
    ensures Before([x] + t, a, b) <==> (x == a && b in t) || Before(t, a, b)
  {
    var s := [x] + t;
    if Before(s, a, b) {
      var i, j :| 0 <= i < j < |s| && s[i] == a && s[j] == b;
      if i == 0 {
        assert t[j - 1] == b;
      } else {
        assert t[i - 1] == a && t[j - 1] == b;
      }
    }
    if x == a && b in t {
      var k :| 0 <= k < |t| && t[k] == b;
      assert s[0] == a && s[k + 1] == b;
    }
    if Before(t, a, b) {
      var i, j :| 0 <= i < j < |t| && t[i] == a && t[j] == b;
      assert s[i + 1] == a && s[j + 1] == b;
    }
  }

  /** Removal keeps the relative order of the elements it keeps. */
  lemma {:induction false} WithoutKeepsOrder<T(!new)>(s: seq<T>, xs: set<T>, a: T, b: T)
    requires a !in xs && b !in xs
    ensures Before(Without(s, xs), a, b) <==> Before(s, a, b)
    decreases |s|
  {
    if s != [] {
      var x, t := s[0], s[1..];
      assert s == [x] + t;
      WithoutKeepsOrder(t, xs, a, b);
      BeforeCons(x, t, a, b);
      if x !in xs {
        BeforeCons(x, Without(t, xs), a, b);
      }
    }
  }

  /** The first two elements of a sequence without repeats are two different members. */
  lemma FirstTwo<T>(s: seq<T>)
    ensures Distinct(s) && |s| >= 2 ==> s[0] in s && s[1] in s && s[0] != s[1]
  {
  }

  /** Adding a new element at the end keeps the order of the elements already there. */
  lemma AddKeepsOrder<T(!new)>(s: seq<T>, x: T, a: T, b: T)
    requires a in s && b in s
    ensures Before(Add(s, x), a, b) <==> Before(s, a, b)
  {
    var r := Add(s, x);
    if Before(r, a, b) && x !in s {
      var i, j :| 0 <= i < j < |r| && r[i] == a && r[j] == b;
      assert j < |s| by {
        assert r[|s|] == x;
      }
      assert s[i] == a && s[j] == b;
    }
    if Before(s, a, b) {
      var i, j :| 0 <= i < j < |s| && s[i] == a && s[j] == b;
      assert r[i] == a && r[j] == b;
    }
  }

  /** A set without repeats whose only element is `x` is `[x]`. */
  lemma Singleton<T>(s: seq<T>, x: T)
    requires Distinct(s) && x in s
    requires forall y :: y in s ==> y == x
    ensures s == [x]
  {
    assert s[0] in s;
    FirstTwo(s);
  }
}
