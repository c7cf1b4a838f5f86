/** Exact scopes (strictly sorted lists) and path-prefix scopes, with their intersections. */
module Scopes {
  import opened Order

  datatype ExactScope<T> = Denied | Exact(values: seq<T>)

  datatype ScopeVerdict = ScopeOk | EmptyScope | DuplicateScope | UnsortedScope

  /** Neighbouring pairs ascend; the validator looks at `windows(2)` only. */
  predicate Ascending<T>(s: seq<T>, less: (T, T) -> bool) {
    forall i | 0 <= i && i + 1 < |s| :: less(s[i], s[i + 1])
  }

  function ValidateScope<T(==)>(scope: ExactScope<T>, less: (T, T) -> bool): ScopeVerdict {
    match scope
    case Denied => ScopeOk
    case Exact(values) =>
      if values == [] then EmptyScope
      else if |Elements(values)| != |values| then DuplicateScope
      else if !Ascending(values, less) then UnsortedScope
      else ScopeOk
  }

  function Members<T(==)>(scope: ExactScope<T>): set<T> {
    match scope
    case Denied => {}
    case Exact(values) => Elements(values)
  }

  /** The scope listing a set: `Denied` for the empty set. */
  function Listing<T(!new, ==)>(s: set<T>, less: (T, T) -> bool): ExactScope<T>
    requires StrictTotal(less)
  {
    if s == {} then Denied else Exact(SortSet(s, less))
  }

  function ExactIntersection<T(!new, ==)>(left: ExactScope<T>, right: ExactScope<T>, less: (T, T) -> bool)
    : ExactScope<T>
    requires StrictTotal(less)
  {
    if left.Denied? || right.Denied? then Denied
    else Listing(Members(left) * Members(right), less)
  }

  // ----- path prefixes -----

  predicate PathIsWithin(candidate: string, parent: string) {
    candidate == parent
    || (parent <= candidate
        && ((parent != "" && parent[|parent| - 1] == '/')
            || (|parent| < |candidate| && candidate[|parent|] == '/')))
  }

  predicate Comparable(a: string, b: string) {
    PathIsWithin(a, b) || PathIsWithin(b, a)
  }

  function Deeper(a: string, b: string): string {
    if PathIsWithin(a, b) then a else b
  }

  function PathMeet(left: set<string>, right: set<string>): set<string> {
    set a, b | a in left && b in right && Comparable(a, b) :: Deeper(a, b)
  }

  function PathIntersection(left: ExactScope<string>, right: ExactScope<string>): ExactScope<string> {
    TextStrictTotal();
    if left.Denied? || right.Denied? then Denied
    else Listing(PathMeet(Members(left), Members(right)), TextLess)
  }

  method PathScopeIntersection(left: ExactScope<string>, right: ExactScope<string>)
    returns (scope: ExactScope<string>)
    ensures scope == PathIntersection(left, right)
  {
    TextStrictTotal();
    if left.Denied? || right.Denied? {
      return Denied;
    }
    var result: set<string> := {};
    for i := 0 to |left.values|
      invariant result == PathMeet(Elements(left.values[..i]), Elements(right.values))
    {
      result := MeetOne(left.values[i], right.values, result);
      ElementsGrow(left.values, i);
      MeetGrowLeft(Elements(left.values[..i]), left.values[i], Elements(right.values));
    }
    assert left.values[..|left.values|] == left.values;
    scope := Listing(result, TextLess);
  }

  /** The inner loop: what one left path contributes. */
  method MeetOne(leftPath: string, right: seq<string>, start: set<string>) returns (result: set<string>)
    ensures result == start + PathMeet({leftPath}, Elements(right))
  {
    result := start;
    for j := 0 to |right|
      invariant result == start + PathMeet({leftPath}, Elements(right[..j]))
    {
      var rightPath := right[j];
      if PathIsWithin(leftPath, rightPath) {
        result := result + {leftPath};
      } else if PathIsWithin(rightPath, leftPath) {
        result := result + {rightPath};
      }
      ElementsGrow(right, j);
      MeetGrow(leftPath, Elements(right[..j]), rightPath);
    }
    assert right[..|right|] == right;
  }

  lemma MeetGrowLeft(left: set<string>, a: string, right: set<string>)
    ensures PathMeet(left + {a}, right) == PathMeet(left, right) + PathMeet({a}, right)
  {
    forall m | m in PathMeet(left + {a}, right)
      ensures m in PathMeet(left, right) + PathMeet({a}, right)
    {
      var x, b :| x in left + {a} && b in right && Comparable(x, b) && m == Deeper(x, b);
      assert x in left || x in {a};
    }
  }

  lemma ElementsGrow<T>(s: seq<T>, i: nat)
    requires i < |s|
    ensures Elements(s[..i + 1]) == Elements(s[..i]) + {s[i]}
  {
    assert s[..i + 1] == s[..i] + [s[i]];
  }

  lemma MeetGrow(a: string, right: set<string>, b: string)
    ensures PathMeet({a}, right + {b}) ==
            PathMeet({a}, right) + (if Comparable(a, b) then {Deeper(a, b)} else {})
  {
  }

  // ----- order of paths -----

  lemma WithinTransitive(a: string, b: string, c: string)
    requires PathIsWithin(a, b) && PathIsWithin(b, c)
    ensures PathIsWithin(a, c)
  {
    if a != b && b != c {
      assert c <= a;
    }
  }

  lemma WithinAntisymmetric(a: string, b: string)
    requires PathIsWithin(a, b) && PathIsWithin(b, a)
    ensures a == b
  {
  }

  /** Two ancestors of one path are comparable. */
  lemma AncestorsComparable(p: string, a: string, b: string)
    requires PathIsWithin(p, a) && PathIsWithin(p, b)
    ensures Comparable(a, b)
  {
    var (short, long) := if |a| <= |b| then (a, b) else (b, a);
    assert short == p[..|short|] && long == p[..|long|];
    assert short <= long;
    if |short| < |long| {
      assert long[|short|] == p[|short|];
    } else {
      assert short == long;
    }
  }

  lemma DeeperIsMeet(p: string, a: string, b: string)
    ensures Comparable(a, b) ==> (PathIsWithin(p, Deeper(a, b)) <==> PathIsWithin(p, a) && PathIsWithin(p, b))
  {
    if PathIsWithin(a, b) && PathIsWithin(p, a) {
      WithinTransitive(p, a, b);
    }
    if PathIsWithin(b, a) && PathIsWithin(p, b) {
      WithinTransitive(p, b, a);
    }
    if PathIsWithin(a, b) && PathIsWithin(b, a) {
      WithinAntisymmetric(a, b);
    }
  }

  ghost predicate PathAllowed(p: string, scope: set<string>) {
    exists a :: a in scope && PathIsWithin(p, a)
  }

  /** A path is below the intersection exactly when it is below both scopes. */
  lemma PathMeetExact(p: string, left: set<string>, right: set<string>)
    ensures PathAllowed(p, PathMeet(left, right)) <==> PathAllowed(p, left) && PathAllowed(p, right)
  {
    if PathAllowed(p, PathMeet(left, right)) {
      var m :| m in PathMeet(left, right) && PathIsWithin(p, m);
      var a, b :| a in left && b in right && Comparable(a, b) && m == Deeper(a, b);
      DeeperIsMeet(p, a, b);
      assert PathIsWithin(p, a) && PathIsWithin(p, b);
    }
    if PathAllowed(p, left) && PathAllowed(p, right) {
      var a :| a in left && PathIsWithin(p, a);
      var b :| b in right && PathIsWithin(p, b);
      AncestorsComparable(p, a, b);
      DeeperIsMeet(p, a, b);
      assert Deeper(a, b) in PathMeet(left, right);
    }
  }

  lemma PathMeetCommutes(left: set<string>, right: set<string>)
    ensures PathMeet(left, right) == PathMeet(right, left)
  {
    forall a, b | a in left && b in right && Comparable(a, b)
      ensures Deeper(a, b) == Deeper(b, a)
    {
      if PathIsWithin(a, b) && PathIsWithin(b, a) {
        WithinAntisymmetric(a, b);
      }
    }
    forall m | m in PathMeet(left, right)
      ensures m in PathMeet(right, left)
    {
      var a, b :| a in left && b in right && Comparable(a, b) && m == Deeper(a, b);
      assert Comparable(b, a) && m == Deeper(b, a);
    }
    forall m | m in PathMeet(right, left)
      ensures m in PathMeet(left, right)
    {
      var b, a :| b in right && a in left && Comparable(b, a) && m == Deeper(b, a);
      assert Comparable(a, b) && m == Deeper(a, b);
    }
  }

  lemma InOwnMeet(a: string, s: set<string>)
    requires a in s
    ensures a in PathMeet(s, s)
  {
    assert Comparable(a, a) && Deeper(a, a) == a;
  }

  lemma OfOwnMeet(m: string, s: set<string>)
    requires m in PathMeet(s, s)
    ensures m in s
  {
    var a, b :| a in s && b in s && Comparable(a, b) && m == Deeper(a, b);
  }

  lemma PathMeetIdempotent(s: set<string>)
    ensures PathMeet(s, s) == s
  {
    var meet := PathMeet(s, s);
    forall a | a in s ensures a in meet { InOwnMeet(a, s); }
    forall m | m in meet ensures m in s { OfOwnMeet(m, s); }
  }

  /** A comparable triple has one deepest element, however it is bracketed. */
  lemma DeeperAssociates(a: string, b: string, c: string)
    requires Comparable(a, b) && Comparable(Deeper(a, b), c)
    ensures Comparable(b, c) && Comparable(a, Deeper(b, c))
    ensures Deeper(Deeper(a, b), c) == Deeper(a, Deeper(b, c))
  {
    var m := Deeper(a, b);
    DeeperIsMeet(m, a, b);
    if PathIsWithin(c, m) {
      WithinTransitive(c, m, a);
      WithinTransitive(c, m, b);
      if PathIsWithin(b, c) {
        WithinAntisymmetric(b, c);
      }
      if PathIsWithin(m, c) {
        WithinAntisymmetric(m, c);
      }
      if PathIsWithin(a, Deeper(b, c)) {
        WithinAntisymmetric(a, Deeper(b, c));
      }
    } else {
      AncestorsComparable(m, a, c);
      AncestorsComparable(m, b, c);
      DeeperIsMeet(m, b, c);
      AncestorsComparable(m, a, Deeper(b, c));
      DeeperIsMeet(m, a, Deeper(b, c));
      WithinAntisymmetricMeet(m, a, b, c);
    }
  }

  lemma WithinAntisymmetricMeet(m: string, a: string, b: string, c: string)
    requires m == Deeper(a, b) && PathIsWithin(m, c) && PathIsWithin(m, a) && PathIsWithin(m, b)
    requires Comparable(b, c) && Comparable(a, Deeper(b, c))
    ensures Deeper(m, c) == m && Deeper(a, Deeper(b, c)) == m
  {
    var n := Deeper(a, Deeper(b, c));
    assert PathIsWithin(n, a) && PathIsWithin(n, Deeper(b, c)) by {
      DeeperIsMeet(n, a, Deeper(b, c));
    }
    DeeperIsMeet(n, b, c);
    DeeperIsMeet(n, a, b);
    DeeperIsMeet(m, b, c);
    DeeperIsMeet(m, a, Deeper(b, c));
    WithinAntisymmetric(m, n);
  }

  lemma PathMeetHalf(x: set<string>, y: set<string>, z: set<string>)
    ensures PathMeet(PathMeet(x, y), z) <= PathMeet(x, PathMeet(y, z))
  {
    forall m | m in PathMeet(PathMeet(x, y), z)
      ensures m in PathMeet(x, PathMeet(y, z))
    {
      var d, c :| d in PathMeet(x, y) && c in z && Comparable(d, c) && m == Deeper(d, c);
      var a, b :| a in x && b in y && Comparable(a, b) && d == Deeper(a, b);
      DeeperAssociates(a, b, c);
      assert Deeper(b, c) in PathMeet(y, z);
    }
  }

  lemma PathMeetAssociates(x: set<string>, y: set<string>, z: set<string>)
    ensures PathMeet(PathMeet(x, y), z) == PathMeet(x, PathMeet(y, z))
  {
    PathMeetHalf(x, y, z);
    PathMeetHalf(z, y, x);
    PathMeetCommutes(x, y);
    PathMeetCommutes(y, z);
    PathMeetCommutes(PathMeet(x, y), z);
    PathMeetCommutes(x, PathMeet(y, z));
  }

  // ----- scopes as sets -----

  lemma {:induction false} AscendingSorted<T(!new)>(s: seq<T>, less: (T, T) -> bool)
    requires StrictTotal(less) && Ascending(s, less)
    ensures Sorted(s, less)
  {
    if s != [] {
      var n := |s| - 1;
      assert Ascending(s[..n], less);
      AscendingSorted(s[..n], less);
      forall i | 0 <= i < n
        ensures less(s[i], s[n])
      {
        if i < n - 1 {
          assert less(s[..n][i], s[..n][n - 1]);
        }
        assert less(s[n - 1], s[n - 1 + 1]);
      }
      forall i, j | 0 <= i < j < |s|
        ensures less(s[i], s[j])
      {
        if j < n {
          assert less(s[..n][i], s[..n][j]);
        }
      }
    }
  }

  /** A valid scope is the listing of its set of members, so scope algebra is set algebra. */
  lemma ValidIsListing<T(!new)>(scope: ExactScope<T>, less: (T, T) -> bool)
    requires StrictTotal(less) && ValidateScope(scope, less).ScopeOk?
    ensures scope == Listing(Members(scope), less)
  {
    if scope.Exact? {
      AscendingSorted(scope.values, less);
      SortSetSorted(Members(scope), less);
      SortedUnique(scope.values, SortSet(Members(scope), less), less);
      assert scope.values[0] in Members(scope);
    }
  }

  lemma ListingIsValid<T(!new)>(s: set<T>, less: (T, T) -> bool)
    requires StrictTotal(less)
    ensures ValidateScope(Listing(s, less), less).ScopeOk? && Members(Listing(s, less)) == s
  {
    SortSetSorted(s, less);
  }
}
