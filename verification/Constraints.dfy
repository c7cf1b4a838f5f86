/** Authority constraints: validation and the least-authority intersection. */
module Constraints {
  import opened Order
  import opened Scopes
  import opened Text

  datatype Scheme = Http | Https

  datatype Method = Get | Head | Options | Post | Put | Patch | Delete

  datatype TimeWindow = TimeWindow(notBefore: nat, expiresAt: nat)

  datatype Capacity = NoCapacity | Uses(maxUses: nat, maxConcurrent: nat)

  datatype ByteLimit = NoBytes | Bytes(bytes: nat)

  datatype UseLimits = UseLimits(capacity: Capacity, request: ByteLimit, response: ByteLimit)

  datatype Network = Network(
    schemes: ExactScope<Scheme>, hosts: ExactScope<string>, ports: ExactScope<nat>,
    methods: ExactScope<Method>, paths: ExactScope<string>, redirects: bool)

  datatype Currency = NoCurrency | Currency(code: string)

  datatype Spend = Spend(currency: Currency, maxMinorUnits: nat)

  datatype Constraints = Constraints(
    environment: string, readOnly: bool, time: TimeWindow, uses: UseLimits, network: Network, spend: Spend)

  datatype ConstraintError =
    | InvalidTimeWindow | EnvironmentMismatch | InvalidEnvironment | InvalidHost | InvalidPathPrefix
    | RedirectsDenied | InvalidByteLimit | EmptyExactScope | DuplicateExactScope | UnsortedExactScope
    | InvalidUseCapacity | InvalidSpendCap

  datatype Verdict = Pass | Fail(error: ConstraintError)

  datatype Narrowed = Narrow(value: Constraints) | Refused(error: ConstraintError)

  // ----- orders -----

  function SchemeRank(s: Scheme): nat { if s.Http? then 0 else 1 }

  predicate SchemeLess(a: Scheme, b: Scheme) { SchemeRank(a) < SchemeRank(b) }

  function MethodRank(m: Method): nat {
    match m case Get => 0 case Head => 1 case Options => 2 case Post => 3 case Put => 4 case Patch => 5 case Delete => 6
  }

  predicate MethodLess(a: Method, b: Method) { MethodRank(a) < MethodRank(b) }

  lemma OrdersTotal()
    ensures StrictTotal(SchemeLess) && StrictTotal(MethodLess) && StrictTotal(NatLess) && StrictTotal(TextLess)
  {
    TextStrictTotal();
  }

  // ----- validation -----

  function Then(first: Verdict, second: Verdict): Verdict {
    if first.Fail? then first else second
  }

  function Require(ok: bool, error: ConstraintError): Verdict {
    if ok then Pass else Fail(error)
  }

  predicate ActiveAt(time: TimeWindow, now: nat) {
    time.notBefore <= now < time.expiresAt
  }

  function ValidateTime(time: TimeWindow): Verdict {
    Require(time.notBefore < time.expiresAt, InvalidTimeWindow)
  }

  function ValidateCapacity(c: Capacity): Verdict {
    Require(c.Uses? ==> c.maxUses > 0 && c.maxConcurrent > 0, InvalidUseCapacity)
  }

  function ValidateBytes(b: ByteLimit): Verdict {
    Require(b.Bytes? ==> b.bytes > 0, InvalidByteLimit)
  }

  function ScopeCheck<T(==)>(scope: ExactScope<T>, less: (T, T) -> bool): Verdict {
    match ValidateScope(scope, less)
    case ScopeOk => Pass
    case EmptyScope => Fail(EmptyExactScope)
    case DuplicateScope => Fail(DuplicateExactScope)
    case UnsortedScope => Fail(UnsortedExactScope)
  }

  predicate LabelOk(part: string) {
    && 0 < |part| <= 63
    && (forall i | 0 <= i < |part| :: IsAlnum(part[i]) || part[i] == '-')
    && IsAlnum(part[0]) && IsAlnum(part[|part| - 1])
  }

  predicate HostOk(host: string) {
    && 0 < |host| <= 253
    && (forall i | 0 <= i < |host| :: !IsUpper(host[i]) && host[i] !in "/:@\\")
    && forall part | part in Split(host, '.') :: LabelOk(part)
  }

  predicate PathOk(path: string) {
    && path != "" && path[0] == '/' && |path| <= 2048
    && (forall i | 0 <= i < |path| :: '!' <= path[i] <= '~' && path[i] !in "?#\\%")
    && !Contains(path, "//")
    && forall segment | segment in Split(path, '/') :: segment != "." && segment != ".."
  }

  function ValidateNetwork(n: Network): Verdict {
    Then(Require(!n.redirects, RedirectsDenied),
    Then(ScopeCheck(n.schemes, SchemeLess),
    Then(ScopeCheck(n.hosts, TextLess),
    Then(ScopeCheck(n.ports, NatLess),
    Then(ScopeCheck(n.methods, MethodLess),
    Then(ScopeCheck(n.paths, TextLess),
    Then(Require(forall h | h in Members(n.hosts) :: HostOk(h), InvalidHost),
         Require(forall p | p in Members(n.paths) :: PathOk(p), InvalidPathPrefix))))))))
  }

  function ValidateSpend(s: Spend): Verdict {
    Require(match s.currency
            case NoCurrency => s.maxMinorUnits == 0
            case Currency(code) =>
              s.maxMinorUnits > 0 && |code| == 3 && forall i | 0 <= i < |code| :: IsUpper(code[i]),
            InvalidSpendCap)
  }

  function Validate(c: Constraints): Verdict {
    Then(Require(IsLabel(c.environment, 64, "-_"), InvalidEnvironment),
    Then(ValidateTime(c.time),
    Then(ValidateCapacity(c.uses.capacity),
    Then(ValidateBytes(c.uses.request),
    Then(ValidateBytes(c.uses.response),
    Then(ValidateNetwork(c.network),
         ValidateSpend(c.spend)))))))
  }

  // ----- intersection -----

  function Min(a: nat, b: nat): nat { if a <= b then a else b }

  function Max(a: nat, b: nat): nat { if a <= b then b else a }

  function MeetTime(a: TimeWindow, b: TimeWindow): TimeWindow {
    TimeWindow(Max(a.notBefore, b.notBefore), Min(a.expiresAt, b.expiresAt))
  }

  function MeetCapacity(a: Capacity, b: Capacity): Capacity {
    if a.Uses? && b.Uses? then Uses(Min(a.maxUses, b.maxUses), Min(a.maxConcurrent, b.maxConcurrent))
    else NoCapacity
  }

  function MeetBytes(a: ByteLimit, b: ByteLimit): ByteLimit {
    if a.Bytes? && b.Bytes? then Bytes(Min(a.bytes, b.bytes)) else NoBytes
  }

  function MeetSpend(a: Spend, b: Spend): Spend {
    if a.currency.Currency? && a.currency == b.currency
    then Spend(a.currency, Min(a.maxMinorUnits, b.maxMinorUnits))
    else Spend(NoCurrency, 0)
  }

  function MeetNetwork(a: Network, b: Network): Network {
    OrdersTotal();
    Network(
      ExactIntersection(a.schemes, b.schemes, SchemeLess),
      ExactIntersection(a.hosts, b.hosts, TextLess),
      ExactIntersection(a.ports, b.ports, NatLess),
      ExactIntersection(a.methods, b.methods, MethodLess),
      PathIntersection(a.paths, b.paths),
      a.redirects && b.redirects)
  }

  function Meet(a: Constraints, b: Constraints): Constraints {
    Constraints(
      a.environment, a.readOnly || b.readOnly, MeetTime(a.time, b.time),
      UseLimits(MeetCapacity(a.uses.capacity, b.uses.capacity),
                MeetBytes(a.uses.request, b.uses.request),
                MeetBytes(a.uses.response, b.uses.response)),
      MeetNetwork(a.network, b.network), MeetSpend(a.spend, b.spend))
  }

  function Intersect(a: Constraints, b: Constraints): Narrowed {
    if Validate(a).Fail? then Refused(Validate(a).error)
    else if Validate(b).Fail? then Refused(Validate(b).error)
    else if a.environment != b.environment then Refused(EnvironmentMismatch)
    else if ValidateTime(MeetTime(a.time, b.time)).Fail? then Refused(InvalidTimeWindow)
    else Narrow(Meet(a, b))
  }

  /** The intersection with its path loop run as written. */
  method IntersectConstraints(a: Constraints, b: Constraints) returns (r: Narrowed)
    ensures r == Intersect(a, b)
  {
    if Validate(a).Fail? {
      return Refused(Validate(a).error);
    }
    if Validate(b).Fail? {
      return Refused(Validate(b).error);
    }
    if a.environment != b.environment {
      return Refused(EnvironmentMismatch);
    }
    var time := MeetTime(a.time, b.time);
    if ValidateTime(time).Fail? {
      return Refused(ValidateTime(time).error);
    }
    var paths := PathScopeIntersection(a.network.paths, b.network.paths);
    r := Narrow(Meet(a, b).(network := MeetNetwork(a.network, b.network).(paths := paths)));
  }

  // ----- meaning -----

  /** One upstream call: where it goes. */
  datatype Call = Call(scheme: Scheme, host: string, port: nat, method_: Method, path: string)

  datatype Calls = NoCall | OneCall(call: Call)

  datatype Payment = NoPayment | Payment(currency: string, minorUnits: nat)

  /** Everything one use asks for: when, whether it writes, as which use of how many at once,
      what it sends, receives, calls and spends. */
  datatype Request = Request(
    environment: string, writes: bool, now: nat, useNumber: nat, concurrent: nat,
    requestBytes: nat, responseBytes: nat, calls: Calls, redirected: bool, payment: Payment)

  predicate BytesAllowed(n: nat, limit: ByteLimit) {
    n == 0 || (limit.Bytes? && n <= limit.bytes)
  }

  ghost predicate CallAllowed(call: Call, n: Network) {
    && call.scheme in Members(n.schemes)
    && call.host in Members(n.hosts)
    && call.port in Members(n.ports)
    && call.method_ in Members(n.methods)
    && PathAllowed(call.path, Members(n.paths))
  }

  predicate PaymentAllowed(p: Payment, s: Spend) {
    p.NoPayment? || (s.currency == Currency(p.currency) && p.minorUnits <= s.maxMinorUnits)
  }

  ghost predicate Permits(c: Constraints, r: Request) {
    && r.environment == c.environment
    && (r.writes ==> !c.readOnly)
    && ActiveAt(c.time, r.now)
    && c.uses.capacity.Uses?
    && 0 < r.useNumber <= c.uses.capacity.maxUses
    && 0 < r.concurrent <= c.uses.capacity.maxConcurrent
    && BytesAllowed(r.requestBytes, c.uses.request)
    && BytesAllowed(r.responseBytes, c.uses.response)
    && (r.calls.OneCall? ==> CallAllowed(r.calls.call, c.network))
    && (r.redirected ==> c.network.redirects)
    && PaymentAllowed(r.payment, c.spend)
  }

  predicate Ok(c: Constraints) {
    Validate(c).Pass?
  }

  // ----- exactness -----

  lemma ExactMembers<T(!new)>(a: ExactScope<T>, b: ExactScope<T>, less: (T, T) -> bool)
    requires StrictTotal(less)
    ensures Members(ExactIntersection(a, b, less)) == Members(a) * Members(b)
    ensures ScopeCheck(ExactIntersection(a, b, less), less).Pass?
  {
    ListingIsValid(Members(a) * Members(b), less);
  }

  lemma PathMembers(a: ExactScope<string>, b: ExactScope<string>)
    ensures Members(PathIntersection(a, b)) == PathMeet(Members(a), Members(b))
    ensures ScopeCheck(PathIntersection(a, b), TextLess).Pass?
  {
    TextStrictTotal();
    ListingIsValid(PathMeet(Members(a), Members(b)), TextLess);
  }

  lemma MeetNetworkMembers(a: Network, b: Network)
    ensures var n := MeetNetwork(a, b);
      && Members(n.schemes) == Members(a.schemes) * Members(b.schemes)
      && Members(n.hosts) == Members(a.hosts) * Members(b.hosts)
      && Members(n.ports) == Members(a.ports) * Members(b.ports)
      && Members(n.methods) == Members(a.methods) * Members(b.methods)
      && Members(n.paths) == PathMeet(Members(a.paths), Members(b.paths))
      && ScopeCheck(n.schemes, SchemeLess).Pass? && ScopeCheck(n.hosts, TextLess).Pass?
      && ScopeCheck(n.ports, NatLess).Pass? && ScopeCheck(n.methods, MethodLess).Pass?
      && ScopeCheck(n.paths, TextLess).Pass?
  {
    OrdersTotal();
    ExactMembers(a.schemes, b.schemes, SchemeLess);
    ExactMembers(a.hosts, b.hosts, TextLess);
    ExactMembers(a.ports, b.ports, NatLess);
    ExactMembers(a.methods, b.methods, MethodLess);
    PathMembers(a.paths, b.paths);
  }

  lemma CallExact(call: Call, a: Network, b: Network)
    ensures CallAllowed(call, MeetNetwork(a, b)) <==> CallAllowed(call, a) && CallAllowed(call, b)
  {
    MeetNetworkMembers(a, b);
    PathMeetExact(call.path, Members(a.paths), Members(b.paths));
  }

  lemma IntersectWhen(a: Constraints, b: Constraints)
    ensures Intersect(a, b).Narrow? <==>
            Ok(a) && Ok(b) && a.environment == b.environment && ValidateTime(MeetTime(a.time, b.time)).Pass?
    ensures Intersect(a, b).Narrow? ==> Intersect(a, b).value == Meet(a, b)
  {
  }

  lemma MeetExact(a: Constraints, b: Constraints, r: Request)
    requires a.environment == b.environment
    ensures Permits(Meet(a, b), r) <==> Permits(a, r) && Permits(b, r)
  {
    var n := MeetNetwork(a.network, b.network);
    assert r.calls.OneCall? ==>
      (CallAllowed(r.calls.call, n) <==> CallAllowed(r.calls.call, a.network) && CallAllowed(r.calls.call, b.network)) by {
      if r.calls.OneCall? {
        CallExact(r.calls.call, a.network, b.network);
      }
    }
    RestExact(a, b, r);
  }

  /** Every dimension but the call. */
  ghost predicate PermitsRest(c: Constraints, r: Request) {
    Permits(c, r.(calls := NoCall))
  }

  lemma RestExact(a: Constraints, b: Constraints, r: Request)
    requires a.environment == b.environment
    ensures PermitsRest(Meet(a, b), r) <==> PermitsRest(a, r) && PermitsRest(b, r)
  {
  }

  /** The intersection permits exactly what both arguments permit. */
  lemma IntersectExact(a: Constraints, b: Constraints, r: Request)
    requires Intersect(a, b).Narrow?
    ensures Permits(Intersect(a, b).value, r) <==> Permits(a, r) && Permits(b, r)
  {
    IntersectWhen(a, b);
    MeetExact(a, b, r);
  }

  /** Each refusal of valid arguments has its exact cause, an empty window being that no time
      satisfies both; and whenever they are refused no request at all satisfies both. */
  lemma RefusalExact(a: Constraints, b: Constraints)
    requires Ok(a) && Ok(b)
    ensures Intersect(a, b) == Refused(EnvironmentMismatch) <==> a.environment != b.environment
    ensures Intersect(a, b) == Refused(InvalidTimeWindow) <==>
            a.environment == b.environment && !(exists now: nat :: ActiveAt(a.time, now) && ActiveAt(b.time, now))
    ensures Intersect(a, b).Refused? ==> forall r :: !(Permits(a, r) && Permits(b, r))
  {
    var t := MeetTime(a.time, b.time);
    if t.notBefore < t.expiresAt {
      assert ActiveAt(a.time, t.notBefore) && ActiveAt(b.time, t.notBefore);
    } else {
      forall now: nat
        ensures !(ActiveAt(a.time, now) && ActiveAt(b.time, now))
      {
      }
    }
  }

  // ----- closure and the semilattice laws -----

  lemma OkParts(c: Constraints)
    ensures Ok(c) <==>
      && IsLabel(c.environment, 64, "-_") && ValidateTime(c.time).Pass? && ValidateCapacity(c.uses.capacity).Pass?
      && ValidateBytes(c.uses.request).Pass? && ValidateBytes(c.uses.response).Pass?
      && ValidateNetwork(c.network).Pass? && ValidateSpend(c.spend).Pass?
  {
  }

  lemma MeetNetworkValid(a: Network, b: Network)
    requires ValidateNetwork(a).Pass? && ValidateNetwork(b).Pass?
    ensures ValidateNetwork(MeetNetwork(a, b)).Pass?
  {
    MeetNetworkMembers(a, b);
    NetworkParts(a);
    NetworkParts(b);
    var n := MeetNetwork(a, b);
    NetworkParts(n);
    MeetPathsOk(Members(a.paths), Members(b.paths));
  }

  predicate HostsOk(hosts: set<string>) { forall h | h in hosts :: HostOk(h) }

  predicate PathsOk(paths: set<string>) { forall p | p in paths :: PathOk(p) }

  lemma NetworkParts(n: Network)
    ensures ValidateNetwork(n).Pass? <==>
      && !n.redirects && ScopeCheck(n.schemes, SchemeLess).Pass? && ScopeCheck(n.hosts, TextLess).Pass?
      && ScopeCheck(n.ports, NatLess).Pass? && ScopeCheck(n.methods, MethodLess).Pass?
      && ScopeCheck(n.paths, TextLess).Pass? && HostsOk(Members(n.hosts)) && PathsOk(Members(n.paths))
  {
  }

  lemma MeetPathsOk(a: set<string>, b: set<string>)
    requires PathsOk(a) && PathsOk(b)
    ensures PathsOk(PathMeet(a, b))
  {
    forall p | p in PathMeet(a, b)
      ensures PathOk(p)
    {
      var x, y :| x in a && y in b && Comparable(x, y) && p == Deeper(x, y);
    }
  }

  lemma IntersectClosed(a: Constraints, b: Constraints)
    requires Intersect(a, b).Narrow?
    ensures Ok(Intersect(a, b).value)
  {
    OkParts(a);
    OkParts(b);
    OkParts(Meet(a, b));
    MeetNetworkValid(a.network, b.network);
  }

  lemma ExactCommutes<T(!new)>(a: ExactScope<T>, b: ExactScope<T>, less: (T, T) -> bool)
    requires StrictTotal(less)
    ensures ExactIntersection(a, b, less) == ExactIntersection(b, a, less)
  {
    assert Members(a) * Members(b) == Members(b) * Members(a);
  }

  lemma MeetNetworkCommutes(a: Network, b: Network)
    ensures MeetNetwork(a, b) == MeetNetwork(b, a)
  {
    OrdersTotal();
    ExactCommutes(a.schemes, b.schemes, SchemeLess);
    ExactCommutes(a.hosts, b.hosts, TextLess);
    ExactCommutes(a.ports, b.ports, NatLess);
    ExactCommutes(a.methods, b.methods, MethodLess);
    PathMeetCommutes(Members(a.paths), Members(b.paths));
  }

  /** Equal values, or a refusal on both sides. */
  predicate SameUpToError(x: Narrowed, y: Narrowed) {
    x == y || (x.Refused? && y.Refused?)
  }

  lemma IntersectCommutes(a: Constraints, b: Constraints)
    ensures SameUpToError(Intersect(a, b), Intersect(b, a))
  {
    hide Intersect, Validate, MeetNetwork;
    IntersectWhen(a, b);
    IntersectWhen(b, a);
    MeetNetworkCommutes(a.network, b.network);
  }

  lemma ExactIdempotent<T(!new)>(a: ExactScope<T>, less: (T, T) -> bool)
    requires StrictTotal(less) && ScopeCheck(a, less).Pass?
    ensures ExactIntersection(a, a, less) == a
  {
    ValidIsListing(a, less);
    assert Members(a) * Members(a) == Members(a);
  }

  lemma MeetNetworkIdempotent(n: Network)
    requires ValidateNetwork(n).Pass?
    ensures MeetNetwork(n, n) == n
  {
    OrdersTotal();
    ExactIdempotent(n.schemes, SchemeLess);
    ExactIdempotent(n.hosts, TextLess);
    ExactIdempotent(n.ports, NatLess);
    ExactIdempotent(n.methods, MethodLess);
    ValidIsListing(n.paths, TextLess);
    PathMeetIdempotent(Members(n.paths));
  }

  lemma IntersectIdempotent(a: Constraints)
    requires Ok(a)
    ensures Intersect(a, a) == Narrow(a)
  {
    hide MeetNetwork, ValidateNetwork;
    OkParts(a);
    MeetNetworkIdempotent(a.network);
  }

  lemma ExactAssociates<T(!new)>(a: ExactScope<T>, b: ExactScope<T>, c: ExactScope<T>, less: (T, T) -> bool)
    requires StrictTotal(less)
    ensures ExactIntersection(ExactIntersection(a, b, less), c, less) ==
            ExactIntersection(a, ExactIntersection(b, c, less), less)
  {
    ExactIsListing(a, b, less);
    ExactIsListing(b, c, less);
    ExactIsListing(ExactIntersection(a, b, less), c, less);
    ExactIsListing(a, ExactIntersection(b, c, less), less);
    ExactMembers(a, b, less);
    ExactMembers(b, c, less);
    assert Members(a) * Members(b) * Members(c) == Members(a) * (Members(b) * Members(c));
  }

  lemma ExactIsListing<T(!new)>(a: ExactScope<T>, b: ExactScope<T>, less: (T, T) -> bool)
    requires StrictTotal(less)
    ensures ExactIntersection(a, b, less) == Listing(Members(a) * Members(b), less)
  {
  }

  lemma PathIsListing(a: ExactScope<string>, b: ExactScope<string>)
    ensures StrictTotal(TextLess)
    ensures PathIntersection(a, b) == Listing(PathMeet(Members(a), Members(b)), TextLess)
  {
    TextStrictTotal();
  }

  lemma PathAssociates(a: ExactScope<string>, b: ExactScope<string>, c: ExactScope<string>)
    ensures PathIntersection(PathIntersection(a, b), c) == PathIntersection(a, PathIntersection(b, c))
  {
    PathIsListing(PathIntersection(a, b), c);
    PathIsListing(a, PathIntersection(b, c));
    PathMembers(a, b);
    PathMembers(b, c);
    PathMeetAssociates(Members(a), Members(b), Members(c));
  }

  lemma MeetNetworkAssociates(a: Network, b: Network, c: Network)
    ensures MeetNetwork(MeetNetwork(a, b), c) == MeetNetwork(a, MeetNetwork(b, c))
  {
    OrdersTotal();
    ExactAssociates(a.schemes, b.schemes, c.schemes, SchemeLess);
    ExactAssociates(a.hosts, b.hosts, c.hosts, TextLess);
    ExactAssociates(a.ports, b.ports, c.ports, NatLess);
    ExactAssociates(a.methods, b.methods, c.methods, MethodLess);
    PathAssociates(a.paths, b.paths, c.paths);
  }

  function Bind(x: Narrowed, c: Constraints): Narrowed {
    if x.Refused? then x else Intersect(x.value, c)
  }

  /** Narrowing three ways gives one result whichever pair is narrowed first. */
  lemma IntersectAssociates(a: Constraints, b: Constraints, c: Constraints)
    ensures SameUpToError(Bind(Intersect(a, b), c),
                          if Intersect(b, c).Refused? then Intersect(b, c) else Intersect(a, Intersect(b, c).value))
  {
    IntersectWhen(a, b);
    IntersectWhen(b, c);
    IntersectWhen(Meet(a, b), c);
    IntersectWhen(a, Meet(b, c));
    if Intersect(a, b).Narrow? {
      IntersectClosed(a, b);
    }
    if Intersect(b, c).Narrow? {
      IntersectClosed(b, c);
    }
    TimeParts(a.time, b.time);
    TimeParts(b.time, c.time);
    MeetAssociates(a, b, c);
  }

  lemma TimeParts(a: TimeWindow, b: TimeWindow)
    ensures ValidateTime(MeetTime(a, b)).Pass? ==> ValidateTime(a).Pass? && ValidateTime(b).Pass?
  {
  }

  lemma MeetAssociates(a: Constraints, b: Constraints, c: Constraints)
    ensures Meet(Meet(a, b), c) == Meet(a, Meet(b, c))
    ensures MeetTime(MeetTime(a.time, b.time), c.time) == MeetTime(a.time, MeetTime(b.time, c.time))
  {
    MeetNetworkAssociates(a.network, b.network, c.network);
  }

  /** `c` adds nothing to `a`. */
  predicate Below(c: Constraints, a: Constraints) {
    Intersect(c, a) == Narrow(c)
  }

  /** The intersection is the greatest lower bound of its arguments. */
  lemma IntersectIsGlb(a: Constraints, b: Constraints, c: Constraints)
    requires Ok(a) && Ok(b) && Ok(c)
    ensures Intersect(a, b).Narrow? ==> Below(Intersect(a, b).value, a) && Below(Intersect(a, b).value, b)
    ensures Below(c, a) && Below(c, b) ==> Intersect(a, b).Narrow? && Below(c, Intersect(a, b).value)
  {
    if Intersect(a, b).Narrow? {
      IntersectIdempotent(a);
      IntersectIdempotent(b);
      IntersectAssociates(a, b, b);
      IntersectAssociates(b, a, a);
      IntersectCommutes(a, b);
    }
    IntersectAssociates(c, a, b);
  }

  /** The order of the semilattice is never wider in meaning. */
  lemma BelowIsNarrower(c: Constraints, a: Constraints, r: Request)
    requires Below(c, a) && Permits(c, r)
    ensures Permits(a, r)
  {
    IntersectExact(c, a, r);
  }
}
