/** The rules constraints are validated by, in order, on their own characters and numbers. */
module ConstraintAnswers {
  import opened Constraints
  import opened Order
  import opened Scopes
  import opened Text

  // ----- scopes -----

  predicate Distinct<T(==)>(values: seq<T>) {
    forall i, j | 0 <= i < j < |values| :: values[i] != values[j]
  }

  lemma {:induction false} DistinctCounts<T>(values: seq<T>)
    ensures Distinct(values) <==> |Elements(values)| == |values|
    ensures |Elements(values)| <= |values|
  {
    if values != [] {
      var n := |values| - 1;
      var front, last := values[..n], values[n];
      DistinctCounts(front);
      assert values == front + [last];
      assert Elements(values) == Elements(front) + {last};
      if last in Elements(front) {
        var i :| 0 <= i < n && front[i] == last;
        assert values[i] == values[n];
        assert Elements(values) == Elements(front);
      }
      if Distinct(values) {
        assert Distinct(front) by {
          forall i, j | 0 <= i < j < |front|
            ensures front[i] != front[j]
          {
            assert values[i] == front[i] && values[j] == front[j];
          }
        }
      }
    }
  }

  /** An exact scope is not empty, repeats nothing and ascends throughout. */
  lemma ScopeAnswers<T>(scope: ExactScope<T>, less: (T, T) -> bool)
    ensures ScopeCheck(scope, less) == match scope
      case Denied => Pass
      case Exact(values) =>
        if values == [] then Fail(EmptyExactScope)
        else if !Distinct(values) then Fail(DuplicateExactScope)
        else if !(forall i | 0 <= i && i + 1 < |values| :: less(values[i], values[i + 1])) then Fail(UnsortedExactScope)
        else Pass
  {
    if scope.Exact? {
      DistinctCounts(scope.values);
    }
  }

  /** The order the source declares methods and schemes in is the order their scopes are listed in. */
  lemma DeclaredOrders(i: nat, j: nat)
    ensures var methods := [Get, Head, Options, Post, Put, Patch, Delete];
      i < j < |methods| ==> MethodLess(methods[i], methods[j]) && !MethodLess(methods[j], methods[i])
    ensures SchemeLess(Http, Https) && !SchemeLess(Https, Http)
  {
  }

  // ----- hosts and paths -----

  predicate HostLabel(part: string) {
    && MadeOf(part, 63, LOWERS + DIGITS + "-") && part[0] != '-' && part[|part| - 1] != '-'
  }

  /** A host is at most 253 characters of dot-separated lower-case labels. */
  lemma HostAnswers(parts: seq<string>)
    requires parts != [] && forall i | 0 <= i < |parts| :: '.' !in parts[i]
    ensures var host := Join(parts, '.');
      HostOk(host) <==> 0 < |host| <= 253 && forall i | 0 <= i < |parts| :: HostLabel(parts[i])
  {
    var host := Join(parts, '.');
    SplitIs(parts, '.');
    if 0 < |host| <= 253 {
      forall i | 0 <= i < |parts|
        ensures HostPartOk(parts[i]) <==> HostLabel(parts[i])
      {
        HostPart(parts[i]);
      }
      HostCharacters(parts);
      assert HostOk(host) <==> forall i | 0 <= i < |parts| :: HostPartOk(parts[i]) by {
        if forall i | 0 <= i < |parts| :: HostPartOk(parts[i]) {
          assert forall part | part in parts :: LabelOk(part);
        }
        if HostOk(host) {
          forall i | 0 <= i < |parts|
            ensures HostPartOk(parts[i])
          {
            assert parts[i] in Split(host, '.');
          }
        }
      }
    }
  }

  predicate PartCharacters(part: string) {
    forall k | 0 <= k < |part| :: !IsUpper(part[k]) && part[k] !in "/:@\\"
  }

  predicate HostPartOk(part: string) {
    LabelOk(part) && PartCharacters(part)
  }

  lemma HostPart(part: string)
    ensures HostPartOk(part) <==> HostLabel(part)
  {
    forall k | 0 <= k < |part|
      ensures part[k] in LOWERS + DIGITS + "-" <==>
              (IsAlnum(part[k]) || part[k] == '-') && !IsUpper(part[k]) && part[k] !in "/:@\\"
    {
      LowerIs(part[k]);
      DigitIs(part[k]);
    }
  }

  lemma {:induction false} HostCharacters(parts: seq<string>)
    requires parts != []
    ensures var host := Join(parts, '.');
      PartCharacters(host) <==> forall i | 0 <= i < |parts| :: PartCharacters(parts[i])
  {
    if |parts| > 1 {
      HostCharacters(parts[1..]);
      var rest := Join(parts[1..], '.');
      var host := parts[0] + ['.'] + rest;
      assert PartCharacters(host) <==> PartCharacters(parts[0]) && PartCharacters(rest) by {
        forall k | 0 <= k < |parts[0]| ensures host[k] == parts[0][k] {}
        forall k | 0 <= k < |rest| ensures host[|parts[0]| + 1 + k] == rest[k] {}
        assert host[|parts[0]|] == '.';
        if PartCharacters(host) {
          forall k | 0 <= k < |rest|
            ensures !IsUpper(rest[k]) && rest[k] !in "/:@\\"
          {
            assert host[|parts[0]| + 1 + k] == rest[k];
          }
        }
      }
      assert forall i | 1 <= i < |parts| :: parts[i] == parts[1..][i - 1];
    }
  }

  /** No two slashes in a row. */
  predicate SlashesApart(path: string) {
    forall i | 0 <= i && i + 1 < |path| :: !(path[i] == '/' && path[i + 1] == '/')
  }

  lemma SlashesApartIs(path: string)
    ensures Contains(path, "//") <==> !SlashesApart(path)
  {
    ContainsIs(path, "//");
    if i: nat :| OccursAt(path, "//", i) {
      assert path[i..i + 2][0] == path[i] && path[i..i + 2][1] == path[i + 1];
    }
    if i: nat :| i + 1 < |path| && path[i] == '/' && path[i + 1] == '/' {
      assert path[i..i + 2] == "//";
      assert OccursAt(path, "//", i);
    }
  }

  predicate Plain(c: char) {
    0x21 <= c as int <= 0x7e && c !in {'?', '#', '\\', '%'}
  }

  lemma PlainIs(c: char)
    ensures ('!' <= c <= '~' && c !in "?#\\%") <==> Plain(c)
  {
  }

  predicate Real(segment: string) {
    segment != "." && segment != ".."
  }

  lemma RealIs(segments: seq<string>)
    ensures (forall segment | segment in segments :: segment != "." && segment != "..") <==>
            (forall i | 0 <= i < |segments| :: Real(segments[i]))
  {
    if forall segment | segment in segments :: segment != "." && segment != ".." {
      forall i | 0 <= i < |segments|
        ensures Real(segments[i])
      {
        assert segments[i] in segments;
      }
    }
  }

  /** A path prefix is at most 2048 printable characters from a leading slash on, without `?`, `#`,
      `\` or `%`, without two slashes in a row, and no segment is `.` or `..`. */
  lemma PathAnswers(segments: seq<string>)
    requires segments != [] && forall i | 0 <= i < |segments| :: '/' !in segments[i]
    ensures var path := Join(segments, '/');
      PathOk(path) <==>
      && 0 < |path| <= 2048 && path[0] == '/'
      && (forall i | 0 <= i < |path| :: Plain(path[i]))
      && SlashesApart(path)
      && (forall i | 0 <= i < |segments| :: Real(segments[i]))
  {
    var path := Join(segments, '/');
    SplitIs(segments, '/');
    SlashesApartIs(path);
    RealIs(segments);
    forall i | 0 <= i < |path|
      ensures ('!' <= path[i] <= '~' && path[i] !in "?#\\%") <==> Plain(path[i])
    {
      PlainIs(path[i]);
    }
  }

  /** Being within a prefix: equal to it, or going on after it at a segment boundary. */
  lemma WithinAnswers(candidate: string, parent: string, more: string)
    ensures PathIsWithin(candidate, candidate)
    ensures parent != "" ==>
      (PathIsWithin(parent + more, parent) <==> more == "" || more[0] == '/' || parent[|parent| - 1] == '/')
    ensures PathIsWithin(candidate, parent) ==> parent <= candidate
  {
    assert (parent + more)[..|parent|] == parent;
    if more != "" {
      assert (parent + more)[|parent|] == more[0];
    } else {
      assert parent + more == parent;
    }
  }

  // ----- validation -----

  /** One rule: whether it holds, and the error if it is the first that does not. */
  datatype Rule = Rule(holds: bool, error: ConstraintError)

  function FirstBroken(rules: seq<Rule>): Verdict {
    if rules == [] then Pass
    else if rules[0].holds then FirstBroken(rules[1..])
    else Fail(rules[0].error)
  }

  function ScopeVerdictRule<T(==)>(scope: ExactScope<T>, less: (T, T) -> bool): seq<Rule> {
    match scope
    case Denied => []
    case Exact(values) =>
      [Rule(values != [], EmptyExactScope), Rule(Distinct(values), DuplicateExactScope),
       Rule(forall i | 0 <= i && i + 1 < |values| :: less(values[i], values[i + 1]), UnsortedExactScope)]
  }

  predicate CurrencyCode(code: string) {
    |code| == 3 && code[0] in UPPERS && code[1] in UPPERS && code[2] in UPPERS
  }

  /** All the rules, in the order in which a broken one is reported. */
  function LimitRules(c: Constraints): seq<Rule> {
    [Rule(MadeOf(c.environment, 64, ALPHANUMERIC + "-_"), InvalidEnvironment),
     Rule(c.time.notBefore < c.time.expiresAt, InvalidTimeWindow),
     Rule(c.uses.capacity.Uses? ==> c.uses.capacity.maxUses != 0 && c.uses.capacity.maxConcurrent != 0,
          InvalidUseCapacity),
     Rule(c.uses.request != Bytes(0), InvalidByteLimit),
     Rule(c.uses.response != Bytes(0), InvalidByteLimit)]
  }

  function NetworkRules(n: Network): seq<Rule> {
    [Rule(!n.redirects, RedirectsDenied)]
    + (ScopeVerdictRule(n.schemes, SchemeLess)
    + (ScopeVerdictRule(n.hosts, TextLess)
    + (ScopeVerdictRule(n.ports, NatLess)
    + (ScopeVerdictRule(n.methods, MethodLess)
    + (ScopeVerdictRule(n.paths, TextLess)
    + ([Rule(forall i | 0 <= i < |Values(n.hosts)| :: HostOk(Values(n.hosts)[i]), InvalidHost)]
    + [Rule(forall i | 0 <= i < |Values(n.paths)| :: PathOk(Values(n.paths)[i]), InvalidPathPrefix)]))))))
  }

  function Values<T>(scope: ExactScope<T>): seq<T> {
    match scope
    case Denied => []
    case Exact(values) => values
  }

  function SpendRules(s: Spend): seq<Rule> {
    [Rule(s == Spend(NoCurrency, 0) || (s.currency.Currency? && s.maxMinorUnits > 0 && CurrencyCode(s.currency.code)),
          InvalidSpendCap)]
  }

  lemma {:induction false} FirstOfTwo(a: seq<Rule>, b: seq<Rule>)
    ensures FirstBroken(a + b) == Then(FirstBroken(a), FirstBroken(b))
  {
    if a == [] {
      assert a + b == b;
    } else {
      assert (a + b)[1..] == a[1..] + b;
      FirstOfTwo(a[1..], b);
    }
  }

  lemma OneRule(r: Rule, more: seq<Rule>)
    ensures FirstBroken([r] + more) == Then(Require(r.holds, r.error), FirstBroken(more))
    ensures FirstBroken([r]) == Require(r.holds, r.error)
  {
    assert ([r] + more)[1..] == more && [r][1..] == [];
  }

  lemma ScopeRule<T>(scope: ExactScope<T>, less: (T, T) -> bool)
    ensures FirstBroken(ScopeVerdictRule(scope, less)) == ScopeCheck(scope, less)
  {
    ScopeAnswers(scope, less);
    if scope.Exact? {
      var rules := ScopeVerdictRule(scope, less);
      assert rules[1..] == [rules[1], rules[2]] && rules[1..][1..] == [rules[2]] && [rules[2]][1..] == [];
      assert FirstBroken([rules[2]]) == Require(rules[2].holds, rules[2].error);
    }
  }

  lemma MembersOf<T>(scope: ExactScope<T>, ok: T -> bool)
    ensures (forall x | x in Members(scope) :: ok(x)) <==> (forall i | 0 <= i < |Values(scope)| :: ok(Values(scope)[i]))
  {
    if forall x | x in Members(scope) :: ok(x) {
      forall i | 0 <= i < |Values(scope)|
        ensures ok(Values(scope)[i])
      {
        assert Values(scope)[i] in Members(scope);
      }
    }
    if forall i | 0 <= i < |Values(scope)| :: ok(Values(scope)[i]) {
      forall x | x in Members(scope)
        ensures ok(x)
      {
        var i :| 0 <= i < |Values(scope)| && Values(scope)[i] == x;
      }
    }
  }

  lemma NetworkAnswers(n: Network)
    ensures ValidateNetwork(n) == FirstBroken(NetworkRules(n))
  {
    hide ScopeCheck, ScopeVerdictRule, FirstBroken, HostOk, PathOk;
    var schemes, hosts := ScopeVerdictRule(n.schemes, SchemeLess), ScopeVerdictRule(n.hosts, TextLess);
    var ports, methods := ScopeVerdictRule(n.ports, NatLess), ScopeVerdictRule(n.methods, MethodLess);
    var paths := ScopeVerdictRule(n.paths, TextLess);
    var first := Rule(!n.redirects, RedirectsDenied);
    var hostRule := Rule(forall i | 0 <= i < |Values(n.hosts)| :: HostOk(Values(n.hosts)[i]), InvalidHost);
    var pathRule := Rule(forall i | 0 <= i < |Values(n.paths)| :: PathOk(Values(n.paths)[i]), InvalidPathPrefix);
    MembersOf(n.hosts, h => HostOk(h));
    MembersOf(n.paths, p => PathOk(p));
    ScopeRule(n.schemes, SchemeLess);
    ScopeRule(n.hosts, TextLess);
    ScopeRule(n.ports, NatLess);
    ScopeRule(n.methods, MethodLess);
    ScopeRule(n.paths, TextLess);
    EightParts(first, schemes, hosts, ports, methods, paths, hostRule, pathRule);
  }

  lemma EightParts(first: Rule, a: seq<Rule>, b: seq<Rule>, c: seq<Rule>, d: seq<Rule>, e: seq<Rule>, y: Rule, z: Rule)
    ensures FirstBroken([first] + (a + (b + (c + (d + (e + ([y] + [z]))))))) ==
      Then(Require(first.holds, first.error),
      Then(FirstBroken(a), Then(FirstBroken(b), Then(FirstBroken(c), Then(FirstBroken(d), Then(FirstBroken(e),
      Then(Require(y.holds, y.error), Require(z.holds, z.error))))))))
  {
    hide FirstBroken, Then, Require;
    OneRule(first, a + (b + (c + (d + (e + ([y] + [z]))))));
    FirstOfTwo(a, b + (c + (d + (e + ([y] + [z])))));
    FirstOfTwo(b, c + (d + (e + ([y] + [z]))));
    FirstOfTwo(c, d + (e + ([y] + [z])));
    FirstOfTwo(d, e + ([y] + [z]));
    FirstOfTwo(e, [y] + [z]);
    OneRule(y, [z]);
    OneRule(z, []);
  }

  lemma CurrencyIs(code: string)
    ensures (|code| == 3 && forall i | 0 <= i < |code| :: IsUpper(code[i])) <==> CurrencyCode(code)
  {
    hide IsUpper;
    if |code| == 3 {
      UpperIs(code[0]);
      UpperIs(code[1]);
      UpperIs(code[2]);
    }
  }

  lemma SpendAnswers(s: Spend)
    ensures ValidateSpend(s) == FirstBroken(SpendRules(s))
  {
    hide FirstBroken, CurrencyCode, IsUpper;
    OneRule(SpendRules(s)[0], []);
    if s.currency.Currency? {
      CurrencyIs(s.currency.code);
    }
  }

  lemma FiveRules(rules: seq<Rule>)
    requires |rules| == 5
    ensures FirstBroken(rules) ==
      Then(Require(rules[0].holds, rules[0].error), Then(Require(rules[1].holds, rules[1].error),
      Then(Require(rules[2].holds, rules[2].error), Then(Require(rules[3].holds, rules[3].error),
           Require(rules[4].holds, rules[4].error)))))
  {
    hide FirstBroken;
    OneRule(rules[0], rules[1..]);
    OneRule(rules[1], rules[2..]);
    OneRule(rules[2], rules[3..]);
    OneRule(rules[3], rules[4..]);
    OneRule(rules[4], []);
    assert rules == [rules[0]] + rules[1..] && rules[1..] == [rules[1]] + rules[2..];
    assert rules[2..] == [rules[2]] + rules[3..] && rules[3..] == [rules[3]] + rules[4..] && rules[4..] == [rules[4]];
  }

  /** Constraints are valid exactly when no rule is broken, and otherwise the first broken rule is
      the one reported. */
  lemma ValidateAnswers(c: Constraints)
    ensures Validate(c) == FirstBroken(LimitRules(c) + NetworkRules(c.network) + SpendRules(c.spend))
  {
    hide FirstBroken, NetworkRules, SpendRules, MadeOf, IsLabel, ValidateNetwork, ValidateSpend;
    FirstOfTwo(LimitRules(c) + NetworkRules(c.network), SpendRules(c.spend));
    FirstOfTwo(LimitRules(c), NetworkRules(c.network));
    FiveRules(LimitRules(c));
    LabelIs(c.environment, 64, "-_");
    NetworkAnswers(c.network);
    SpendAnswers(c.spend);
  }

  // ----- intersection -----

  /** The windows have a moment in common. */
  predicate Overlap(a: TimeWindow, b: TimeWindow) {
    && a.notBefore < a.expiresAt && b.notBefore < b.expiresAt
    && a.notBefore < b.expiresAt && b.notBefore < a.expiresAt
  }

  /** The first failure in this order is the answer: the left argument's own, the right one's own, another
      environment, windows that do not meet. */
  lemma IntersectAnswers(a: Constraints, b: Constraints)
    ensures var r := Intersect(a, b);
      var left := Validate(a).Pass?;
      var both := left && Validate(b).Pass?;
      && (!left ==> r == Refused(Validate(a).error))
      && (left && !both ==> r == Refused(Validate(b).error))
      && (both && a.environment != b.environment ==> r == Refused(EnvironmentMismatch))
      && (both && a.environment == b.environment && !Overlap(a.time, b.time) ==> r == Refused(InvalidTimeWindow))
      && (r.Narrow? <==> both && a.environment == b.environment && Overlap(a.time, b.time))
      && (r.Narrow? ==> MeetsLimits(a, b, r.value) && MeetsSpend(a.spend, b.spend, r.value.spend))
  {
    hide Validate, MeetNetwork;
  }

  predicate Smallest(n: nat, a: nat, b: nat) {
    (n == a || n == b) && n <= a && n <= b
  }

  predicate MeetsBytes(a: ByteLimit, b: ByteLimit, c: ByteLimit) {
    match (a, b)
    case (Bytes(m), Bytes(n)) => c.Bytes? && Smallest(c.bytes, m, n)
    case _ => c == NoBytes
  }

  /** The limits of `c` are those of both: the later start, the earlier end, the smaller numbers, and
      read-only when either is. */
  predicate MeetsLimits(a: Constraints, b: Constraints, c: Constraints) {
    && c.environment == a.environment == b.environment && c.readOnly == (a.readOnly || b.readOnly)
    && c.time.notBefore in {a.time.notBefore, b.time.notBefore}
    && c.time.notBefore >= a.time.notBefore && c.time.notBefore >= b.time.notBefore
    && Smallest(c.time.expiresAt, a.time.expiresAt, b.time.expiresAt)
    && MeetsBytes(a.uses.request, b.uses.request, c.uses.request)
    && MeetsBytes(a.uses.response, b.uses.response, c.uses.response)
    && match (a.uses.capacity, b.uses.capacity)
       case (Uses(m, k), Uses(n, l)) =>
         c.uses.capacity.Uses? && Smallest(c.uses.capacity.maxUses, m, n)
         && Smallest(c.uses.capacity.maxConcurrent, k, l)
       case _ => c.uses.capacity == NoCapacity
  }

  /** Spending is limited by the smaller amount in one currency, and forbidden across two. */
  predicate MeetsSpend(a: Spend, b: Spend, c: Spend) {
    match (a.currency, b.currency)
    case (Currency(x), Currency(y)) =>
      if x == y then c.currency == a.currency && Smallest(c.maxMinorUnits, a.maxMinorUnits, b.maxMinorUnits)
      else c == Spend(NoCurrency, 0)
    case _ => c == Spend(NoCurrency, 0)
  }
}
