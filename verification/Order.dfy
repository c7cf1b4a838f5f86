/** Strict total orders and the sorted listing of a finite set.

    A `BTreeSet` lists its elements in ascending order and `sort_unstable` on distinct keys
    gives the same list; both are `SortSet` here. Byte strings are Dafny strings in which one
    character stands for one byte, ordered byte by byte. */
module Order {

  ghost predicate StrictTotal<T(!new)>(less: (T, T) -> bool) {
    && (forall x :: !less(x, x))
    && (forall x, y, z :: less(x, y) && less(y, z) ==> less(x, z))
    && (forall x, y :: x != y ==> less(x, y) || less(y, x))
  }

  ghost predicate Sorted<T>(s: seq<T>, less: (T, T) -> bool) {
    forall i, j | 0 <= i < j < |s| :: less(s[i], s[j])
  }

  function Elements<T>(s: seq<T>): set<T> {
    set x | x in s
  }

  ghost predicate IsLeast<T>(m: T, s: set<T>, less: (T, T) -> bool) {
    m in s && forall x :: x in s && x != m ==> less(m, x)
  }

  lemma {:induction false} LeastExists<T(!new)>(s: set<T>, less: (T, T) -> bool)
    requires StrictTotal(less) && s != {}
    ensures exists m :: IsLeast(m, s, less)
  {
    var m :| m in s;
    var rest := s - {m};
    if rest == {} {
      assert s == {m};
      assert IsLeast(m, s, less);
    } else {
      LeastExists(rest, less);
      var n :| IsLeast(n, rest, less);
      assert IsLeast(if less(n, m) then n else m, s, less);
    }
  }

  function Least<T(!new, ==)>(s: set<T>, less: (T, T) -> bool): (m: T)
    requires StrictTotal(less) && s != {}
    ensures IsLeast(m, s, less)
  {
    LeastExists(s, less);
    assert exists m :: m in s && forall x :: x in s && x != m ==> less(m, x) by {
      var w :| IsLeast(w, s, less);
    }
    var m :| m in s && forall x :: x in s && x != m ==> less(m, x);
    m
  }

  lemma SortedCons<T(!new)>(m: T, tail: seq<T>, s: set<T>, less: (T, T) -> bool)
    requires IsLeast(m, s, less) && Sorted(tail, less) && Elements(tail) == s - {m}
    ensures Sorted([m] + tail, less) && Elements([m] + tail) == s
  {
    var r := [m] + tail;
    forall i, j | 0 <= i < j < |r|
      ensures less(r[i], r[j])
    {
      if i == 0 {
        assert r[j] == tail[j - 1] && tail[j - 1] in Elements(tail);
      }
    }
    assert Elements(r) == {m} + Elements(tail);
  }

  /** The elements of `s` in ascending order. */
  function SortSet<T(!new, ==)>(s: set<T>, less: (T, T) -> bool): (r: seq<T>)
    requires StrictTotal(less)
    ensures Elements(r) == s && |r| == |s|
  {
    if s == {} then []
    else
      var m := Least(s, less);
      var tail := SortSet(s - {m}, less);
      assert Elements([m] + tail) == {m} + Elements(tail);
      [m] + tail
  }

  lemma {:induction false} SortSetSorted<T(!new)>(s: set<T>, less: (T, T) -> bool)
    requires StrictTotal(less)
    ensures Sorted(SortSet(s, less), less)
  {
    if s != {} {
      var m := Least(s, less);
      SortSetSorted(s - {m}, less);
      SortedCons(m, SortSet(s - {m}, less), s, less);
    }
  }

  /** A strictly ascending list is determined by its set of elements. */
  lemma {:induction false} SortedUnique<T(!new)>(a: seq<T>, b: seq<T>, less: (T, T) -> bool)
    requires StrictTotal(less) && Sorted(a, less) && Sorted(b, less)
    requires Elements(a) == Elements(b)
    ensures a == b
  {
    if a == [] {
      assert forall i | 0 <= i < |b| :: b[i] in Elements(b);
    } else {
      assert a[0] in Elements(b);
      assert b != [];
      assert b[0] in Elements(a);
      var i :| 0 <= i < |b| && b[i] == a[0];
      var j :| 0 <= j < |a| && a[j] == b[0];
      assert a[0] == b[0];
      TailElements(a, less);
      TailElements(b, less);
      SortedUnique(a[1..], b[1..], less);
      assert a == [a[0]] + a[1..] && b == [b[0]] + b[1..];
    }
  }

  lemma TailElements<T(!new)>(a: seq<T>, less: (T, T) -> bool)
    requires StrictTotal(less) && Sorted(a, less) && a != []
    ensures Elements(a[1..]) == Elements(a) - {a[0]} && Sorted(a[1..], less)
  {
    assert a == [a[0]] + a[1..];
    forall x | x in Elements(a[1..])
      ensures x in Elements(a) && x != a[0]
    {
      var i :| 0 <= i < |a[1..]| && a[1..][i] == x;
      assert less(a[0], a[i + 1]);
    }
  }

  /** Byte-string order. */
  predicate TextLess(a: string, b: string) {
    b != "" && (a == "" || a[0] < b[0] || (a[0] == b[0] && TextLess(a[1..], b[1..])))
  }

  lemma {:induction false} TextTransitive(a: string, b: string, c: string)
    requires TextLess(a, b) && TextLess(b, c)
    ensures TextLess(a, c)
  {
    if a != "" && a[0] == b[0] && b[0] == c[0] {
      TextTransitive(a[1..], b[1..], c[1..]);
    }
  }

  lemma {:induction false} TextTotal(a: string, b: string)
    ensures a == b || TextLess(a, b) || TextLess(b, a)
  {
    if a != "" && b != "" && a[0] == b[0] {
      TextTotal(a[1..], b[1..]);
      assert a == [a[0]] + a[1..] && b == [b[0]] + b[1..];
    }
  }

  lemma {:induction false} TextIrreflexive(a: string)
    ensures !TextLess(a, a)
  {
    if a != "" {
      TextIrreflexive(a[1..]);
    }
  }

  lemma TextStrictTotal()
    ensures StrictTotal(TextLess)
  {
    forall x: string ensures !TextLess(x, x) { TextIrreflexive(x); }
    forall x: string, y: string, z: string | TextLess(x, y) && TextLess(y, z)
      ensures TextLess(x, z)
    {
      TextTransitive(x, y, z);
    }
    forall x: string, y: string | x != y
      ensures TextLess(x, y) || TextLess(y, x)
    {
      TextTotal(x, y);
    }
  }

  predicate NatLess(a: nat, b: nat) {
    a < b
  }
}
