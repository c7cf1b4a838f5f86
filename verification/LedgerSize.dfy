/** The serialized snapshot, its size limit, and the headroom kept for mandatory recovery. */
module LedgerSize {
  import opened Order
  import opened Decimal
  import opened Text
  import opened Json
  import opened JsonSize
  import Scopes
  import Constraints
  import Grants
  import opened Ledger

  const MAX_STATE_BYTES: nat := 8388608
  const FORMAT_VERSION: nat := 2

  /** Values without floats, and the members of an object of them. */
  type Value = v: Json | FloatFree(v) witness Null

  type Fields = m: map<string, Json> | forall k | k in m :: FloatFree(m[k]) witness map[]

  function Object(fields: Fields): Value {
    Obj(fields)
  }

  function With(fields: Fields, key: string, v: Value): Fields {
    fields[key := v]
  }

  function One(key: string, v: Value): Fields {
    With(map[], key, v)
  }

  function Two(key: string, v: Value, key': string, v': Value): Fields {
    With(One(key, v), key', v')
  }

  // ----- constraints -----

  function TextJson(s: string): Value {
    Str(s)
  }

  function NumberJson(n: nat): Value {
    Num(n)
  }

  function ListJson<T>(values: seq<T>, item: T -> Value): Value {
    Arr(seq(|values|, i requires 0 <= i < |values| => item(values[i])))
  }

  function ScopeJson<T>(scope: Scopes.ExactScope<T>, item: T -> Value): Value {
    match scope
    case Denied => Object(One("mode", Str("denied")))
    case Exact(values) => Object(Two("mode", Str("exact"), "values", ListJson(values, item)))
  }

  function BytesJson(limit: Constraints.ByteLimit): Value {
    match limit
    case NoBytes => Object(One("mode", Str("denied")))
    case Bytes(n) => Object(Two("mode", Str("bounded"), "bytes", Num(n)))
  }

  function CapacityJson(c: Constraints.Capacity): Value {
    match c
    case NoCapacity => Object(One("mode", Str("denied")))
    case Uses(n, m) =>
      Object(With(Two("mode", Str("bounded"), "max_uses", Num(n)), "max_concurrent_uses", Num(m)))
  }

  function SchemeJson(s: Constraints.Scheme): Value {
    Str(if s.Http? then "http" else "https")
  }

  function MethodJson(m: Constraints.Method): Value {
    Str(match m case Get => "GET" case Head => "HEAD" case Options => "OPTIONS" case Post => "POST"
        case Put => "PUT" case Patch => "PATCH" case Delete => "DELETE")
  }

  function NetworkJson(n: Constraints.Network): Value {
    var f := Two("schemes", ScopeJson(n.schemes, SchemeJson), "hosts", ScopeJson(n.hosts, TextJson));
    var f := With(f, "ports", ScopeJson(n.ports, NumberJson));
    var f := With(f, "methods", ScopeJson(n.methods, MethodJson));
    var f := With(f, "path_prefixes", ScopeJson(n.paths, TextJson));
    Object(With(f, "allow_redirects", Bool(n.redirects)))
  }

  function SpendJson(s: Constraints.Spend): Value {
    match s.currency
    case NoCurrency => Object(One("max_minor_units", Num(s.maxMinorUnits)))
    case Currency(code) => Object(Two("currency", Str(code), "max_minor_units", Num(s.maxMinorUnits)))
  }

  function TimeJson(time: Constraints.TimeWindow): Value {
    Object(Two("not_before", Num(time.notBefore), "expires_at", Num(time.expiresAt)))
  }

  function LimitsJson(uses: Constraints.UseLimits): Value {
    var f := Two("capacity", CapacityJson(uses.capacity), "max_request_bytes", BytesJson(uses.request));
    Object(With(f, "max_response_bytes", BytesJson(uses.response)))
  }

  function ConstraintsJson(c: Constraints.Constraints): Value {
    var f := Two("environment", Str(c.environment), "read_only", Bool(c.readOnly));
    var f := With(With(f, "time", TimeJson(c.time)), "uses", LimitsJson(c.uses));
    Object(With(With(f, "network", NetworkJson(c.network)), "spend", SpendJson(c.spend)))
  }

  function OperationName(op: Grants.Operation): string {
    match op
    case AssumePlace => "assume_place" case Capability => "capability" case FixAuth => "fix_auth"
    case InspectWorkspace => "inspect_workspace" case Leave => "leave" case NeedSecret => "need_secret"
    case RunEngineeringCheck => "run_engineering_check" case SetupWorkspace => "setup_workspace"
    case Share => "share"
  }

  // ----- the snapshot -----

  function DispositionName(d: Disposition): string {
    if d.Finish? then "finished" else "abandoned"
  }

  function StateName(u: UseState): string {
    match u
    case Active => "active" case Completing(_, _) => "completing"
    case Finished(_) => "finished" case Abandoned(_) => "abandoned"
  }

  function UseFields(u: UseState): Fields {
    var name := One("state", Str(StateName(u)));
    match u
    case Active => name
    case Completing(record, d) =>
      With(With(name, "terminal_record_sha256", Str(record)), "disposition", Str(DispositionName(d)))
    case Finished(record) => With(name, "terminal_record_sha256", Str(record))
    case Abandoned(record) => With(name, "terminal_record_sha256", Str(record))
  }

  function UseJson(u: UseState): Value {
    Object(UseFields(u))
  }

  function UsesFields(uses: map<Digest, UseState>): Fields {
    map u | u in uses :: UseJson(uses[u])
  }

  function UsesJson(uses: map<Digest, UseState>): Value {
    Object(UsesFields(uses))
  }

  function TermsIds(t: Terms): Fields {
    var f := Two("grant_id", Str(t.grantId), "action_id", Str(t.actionId));
    With(With(f, "operation", Str(OperationName(t.operation))), "workspace_id", Str(t.workspaceId))
  }

  function TermsFields(t: Terms): Fields {
    var f := With(TermsIds(t), "canonical_args_sha256", Str(t.argsSha256));
    var f := With(f, "workspace_manifest_sha256", Str(t.manifestSha256));
    With(With(f, "policy_sha256", Str(t.policySha256)), "constraints", ConstraintsJson(t.constraints))
  }

  function GrantFields(terms: Terms, generation: nat): Fields {
    With(TermsFields(terms), "broker_generation", Num(generation))
  }

  function LeaseFields(l: Lease): Fields {
    With(GrantFields(l.terms, l.generation), "remaining_uses", Num(l.remaining))
  }

  function LeaseJson(l: Lease): Value {
    Object(With(With(LeaseFields(l), "uses", UsesJson(l.uses)), "revoked", Bool(l.revoked)))
  }

  function LeasesFields(leases: map<string, Lease>): Fields {
    map id | id in leases :: LeaseJson(leases[id])
  }

  function LeasesJson(leases: map<string, Lease>): Value {
    Object(LeasesFields(leases))
  }

  function RetryJson(r: Retry): Value {
    Object(Two("request_fingerprint_sha256", Str(r.fingerprint), "lease_id", Str(r.leaseId)))
  }

  function RetriesJson(retries: map<Digest, Retry>): Value {
    Object(map r | r in retries :: RetryJson(retries[r]))
  }

  function NoncesJson(nonces: set<Digest>): Value {
    TextStrictTotal();
    ListJson(SortSet<string>(nonces, TextLess), TextJson)
  }

  function FixedFields(s: State): Fields {
    var f := Two("store_id", Str(s.storeId), "seen_nonce_digests", NoncesJson(s.nonces));
    With(f, "idempotency", RetriesJson(s.retries))
  }

  function StateJson(s: State): Value {
    var f := With(With(FixedFields(s), "broker_generation", Num(s.generation)), "sequence", Num(s.sequence));
    Object(With(f, "leases", LeasesJson(s.leases)))
  }

  function SignedJson(s: State, mac: Digest): Value {
    Object(With(Two("format_version", Num(FORMAT_VERSION), "hmac_sha256", Str(mac)), "payload", StateJson(s)))
  }

  function Repeated(c: char): Digest
    requires IsLowerHex(c)
  {
    seq(64, _ => c)
  }

  /** The length in bytes of the signed snapshot. Field order does not change it, and every MAC
      prints in 64 digits. */
  function Size(s: State): nat {
    Len(SignedJson(s, Repeated('0')))
  }

  function RecoveryLease(lease: Lease): Lease {
    lease.(uses := AbandonActive(lease.uses, _ => Repeated('f')))
  }

  /** The largest state a mandatory restart or revocation can produce. */
  function RecoverySized(s: State): State {
    s.(generation := U64_MAX, sequence := U64_MAX, leases := map id | id in s.leases :: RecoveryLease(s.leases[id]))
  }

  /** The check made before a snapshot is written and after one is read. */
  predicate Fits(s: State) {
    Size(s) <= MAX_STATE_BYTES && Size(RecoverySized(s)) <= MAX_STATE_BYTES
  }

  // ----- monotonicity -----

  lemma DigestLength(d: Digest)
    ensures Len(Str(d)) == 66
  {
    PlainLength(d);
  }

  lemma NameLength(s: string)
    requires Plain(s)
    ensures Len(Str(s)) == |s| + 2
  {
    PlainLength(s);
  }

  ghost predicate Shorter(f: Fields, g: Fields) {
    f.Keys <= g.Keys && forall k | k in f :: Len(f[k]) <= Len(g[k])
  }

  lemma ShorterObject(f: Fields, g: Fields)
    requires Shorter(f, g)
    ensures Len(Object(f)) <= Len(Object(g))
  {
    ObjectGrows(Object(f), Object(g));
  }

  lemma ShorterWith(f: Fields, g: Fields, key: string, x: Value, y: Value)
    requires Shorter(f, g) && Len(x) <= Len(y)
    ensures Shorter(With(f, key, x), With(g, key, y))
  {
  }

  lemma ShorterExtra(f: Fields, g: Fields, key: string, y: Value)
    requires Shorter(f, g) && key !in f
    ensures Shorter(f, With(g, key, y))
  {
  }

  /** The encoding of `u` is no longer than that of `v`. */
  predicate UseLeq(u: UseState, v: UseState) {
    || u == v
    || (u.Active? && v.Abandoned?)
    || (u.Abandoned? && v.Abandoned?)
    || ((u.Finished? || u.Abandoned?) && v.Completing?)
  }

  lemma StateNames(u: UseState, v: UseState)
    requires UseLeq(u, v)
    ensures Shorter(One("state", Str(StateName(u))), One("state", Str(StateName(v))))
  {
    StateNameLength(u);
    StateNameLength(v);
  }

  lemma StateNameLength(u: UseState)
    ensures Len(Str(StateName(u))) == if u.Active? then 8 else if u.Finished? then 10 else if u.Abandoned? then 11 else 12
  {
    NameLength(StateName(u));
  }

  lemma UseLength(u: UseState, v: UseState)
    requires UseLeq(u, v)
    ensures Len(UseJson(u)) <= Len(UseJson(v))
  {
    hide Len;
    if u != v {
      var f, g := One("state", Str(StateName(u))), One("state", Str(StateName(v)));
      StateNames(u, v);
      DigestLength(v.record);
      var key := "terminal_record_sha256";
      if u.Active? {
        ShorterExtra(f, g, key, Str(v.record));
      } else {
        DigestLength(u.record);
        ShorterWith(f, g, key, Str(u.record), Str(v.record));
        if v.Completing? {
          ShorterExtra(With(f, key, Str(u.record)), With(g, key, Str(v.record)), "disposition",
                       Str(DispositionName(v.disposition)));
        }
      }
      ShorterObject(UseFields(u), UseFields(v));
    }
  }

  lemma ObjectWith(f: Fields, g: Fields, key: string, x: Value, y: Value)
    requires Shorter(f, g) && Len(x) <= Len(y)
    ensures Len(Object(With(f, key, x))) <= Len(Object(With(g, key, y)))
  {
    ShorterWith(f, g, key, x, y);
    ShorterObject(With(f, key, x), With(g, key, y));
  }

  ghost predicate LeaseLeq(l: Lease, m: Lease) {
    && l.terms == m.terms && l.generation == m.generation && l.remaining == m.remaining
    && (m.revoked ==> l.revoked)
    && l.uses.Keys == m.uses.Keys && forall u | u in l.uses :: UseLeq(l.uses[u], m.uses[u])
  }

  lemma UsesLength(l: map<Digest, UseState>, m: map<Digest, UseState>)
    requires l.Keys == m.Keys && forall u | u in l :: UseLeq(l[u], m[u])
    ensures Len(UsesJson(l)) <= Len(UsesJson(m))
  {
    var f, g := UsesFields(l), UsesFields(m);
    forall u | u in l
      ensures Len(UseJson(l[u])) <= Len(UseJson(m[u]))
    {
      UseLength(l[u], m[u]);
    }
    ShorterObject(f, g);
  }

  lemma ShorterRefl(f: Fields)
    ensures Shorter(f, f)
  {
  }

  lemma LeaseLength(l: Lease, m: Lease)
    requires LeaseLeq(l, m)
    ensures Len(LeaseJson(l)) <= Len(LeaseJson(m))
  {
    hide Len, TermsFields;
    var f := LeaseFields(l);
    assert f == LeaseFields(m);
    UsesLength(l.uses, m.uses);
    LeaseTail(f, UsesJson(l.uses), UsesJson(m.uses), l.revoked, m.revoked);
  }

  lemma LeaseTail(f: Fields, x: Value, y: Value, revoked: bool, revoked': bool)
    requires Len(x) <= Len(y) && (revoked' ==> revoked)
    ensures Len(Object(With(With(f, "uses", x), "revoked", Bool(revoked)))) <=
            Len(Object(With(With(f, "uses", y), "revoked", Bool(revoked'))))
  {
    ShorterRefl(f);
    ShorterWith(f, f, "uses", x, y);
    ObjectWith(With(f, "uses", x), With(f, "uses", y), "revoked", Bool(revoked), Bool(revoked'));
  }

  lemma LeasesLength(l: map<string, Lease>, m: map<string, Lease>)
    requires l.Keys == m.Keys && forall id | id in l :: LeaseLeq(l[id], m[id])
    ensures Len(LeasesJson(l)) <= Len(LeasesJson(m))
  {
    hide LeaseJson, Len, LeaseLeq;
    var f, g := LeasesFields(l), LeasesFields(m);
    forall id | id in l
      ensures Len(LeaseJson(l[id])) <= Len(LeaseJson(m[id]))
    {
      LeaseLength(l[id], m[id]);
    }
    ShorterObject(f, g);
  }

  ghost predicate StateLeq(t: State, r: State) {
    && t.storeId == r.storeId && t.nonces == r.nonces && t.retries == r.retries
    && t.generation <= r.generation && t.sequence <= r.sequence
    && t.leases.Keys == r.leases.Keys && forall id | id in t.leases :: LeaseLeq(t.leases[id], r.leases[id])
  }

  lemma NumberLength(a: nat, b: nat)
    requires a <= b
    ensures Len(Num(a)) <= Len(Num(b))
  {
    ShowMonotone(a, b);
  }

  lemma StateLength(t: State, r: State)
    requires StateLeq(t, r)
    ensures Len(StateJson(t)) <= Len(StateJson(r))
  {
    hide Len, LeasesJson;
    var f := FixedFields(t);
    assert f == FixedFields(r);
    ShorterRefl(f);
    NumberLength(t.generation, r.generation);
    NumberLength(t.sequence, r.sequence);
    LeasesLength(t.leases, r.leases);
    ShorterWith(f, f, "broker_generation", Num(t.generation), Num(r.generation));
    var f1, g1 := With(f, "broker_generation", Num(t.generation)), With(f, "broker_generation", Num(r.generation));
    ShorterWith(f1, g1, "sequence", Num(t.sequence), Num(r.sequence));
    var f2, g2 := With(f1, "sequence", Num(t.sequence)), With(g1, "sequence", Num(r.sequence));
    ShorterWith(f2, g2, "leases", LeasesJson(t.leases), LeasesJson(r.leases));
    ShorterObject(With(f2, "leases", LeasesJson(t.leases)), With(g2, "leases", LeasesJson(r.leases)));
  }

  lemma SizeMonotone(t: State, r: State)
    requires StateLeq(t, r)
    ensures Size(t) <= Size(r)
  {
    StateLength(t, r);
    SignedLength(StateJson(t), StateJson(r));
  }

  lemma SignedLength(x: Value, y: Value)
    requires Len(x) <= Len(y)
    ensures var f := Two("format_version", Num(FORMAT_VERSION), "hmac_sha256", Str(Repeated('0')));
      Len(Object(With(f, "payload", x))) <= Len(Object(With(f, "payload", y)))
  {
    var f := Two("format_version", Num(FORMAT_VERSION), "hmac_sha256", Str(Repeated('0')));
    ShorterRefl(f);
    ObjectWith(f, f, "payload", x, y);
  }

  // ----- headroom -----

  /** What recovery may do to a use: nothing, abandon it, or finish its pending completion. */
  predicate UseRecovers(u: UseState, v: UseState) {
    || v == u
    || (u.Active? && v.Abandoned?)
    || (u.Completing? && v == Terminal(u.record, u.disposition))
  }

  ghost predicate LeaseRecovers(l: Lease, m: Lease) {
    && m.terms == l.terms && m.generation == l.generation && m.remaining == l.remaining
    && (l.revoked ==> m.revoked)
    && m.uses.Keys == l.uses.Keys && forall u | u in l.uses :: UseRecovers(l.uses[u], m.uses[u])
  }

  /** `t` comes from `s` by a mandatory transition: no new lease, use or nonce. */
  ghost predicate Recovers(s: State, t: State) {
    && t.storeId == s.storeId && t.nonces == s.nonces && t.retries == s.retries
    && t.generation <= U64_MAX && t.sequence <= U64_MAX
    && t.leases.Keys == s.leases.Keys && forall id | id in s.leases :: LeaseRecovers(s.leases[id], t.leases[id])
  }

  lemma RecoveryLeases(l: Lease, m: Lease)
    requires LeaseRecovers(l, m)
    ensures LeaseLeq(m, RecoveryLease(l)) && LeaseLeq(RecoveryLease(m), RecoveryLease(l))
  {
    assert RecoveryLease(l).uses.Keys == l.uses.Keys && RecoveryLease(m).uses.Keys == m.uses.Keys;
  }

  lemma RecoveryLeq(s: State, t: State)
    requires Recovers(s, t)
    ensures StateLeq(t, RecoverySized(s)) && StateLeq(RecoverySized(t), RecoverySized(s))
  {
    var r := RecoverySized(s);
    assert r.leases.Keys == s.leases.Keys && RecoverySized(t).leases.Keys == t.leases.Keys;
    forall id | id in s.leases
      ensures LeaseLeq(t.leases[id], r.leases[id]) && LeaseLeq(RecoverySized(t).leases[id], r.leases[id])
    {
      RecoveryLeases(s.leases[id], t.leases[id]);
    }
  }

  /** A state whose recovery form fits leaves room for every mandatory transition from it. */
  lemma RecoveryFits(s: State, t: State)
    requires Fits(s) && Recovers(s, t)
    ensures Fits(t)
  {
    RecoveryLeq(s, t);
    SizeMonotone(t, RecoverySized(s));
    SizeMonotone(RecoverySized(t), RecoverySized(s));
  }

  lemma AbandonRecovers(uses: map<Digest, UseState>, record: Digest -> Digest)
    ensures AbandonActive(uses, record).Keys == uses.Keys
    ensures forall u | u in uses :: UseRecovers(uses[u], AbandonActive(uses, record)[u])
  {
  }

  lemma RestartRecovers(crypto: Crypto, s: State)
    requires s.generation <= U64_MAX && s.sequence <= U64_MAX && Restart(crypto, s).Done?
    ensures Recovers(s, Restart(crypto, s).next)
  {
    var t := Restart(crypto, s).next;
    assert t.leases.Keys == s.leases.Keys;
    forall id | id in s.leases
      ensures LeaseRecovers(s.leases[id], t.leases[id])
    {
      AbandonRecovers(s.leases[id].uses, u => RecoveryDigest(crypto, s.storeId, id + ":" + u, "broker_restart"));
    }
  }

  lemma LeaseRecoversRefl(l: Lease)
    ensures LeaseRecovers(l, l)
  {
  }

  lemma RecoversRefl(s: State)
    requires s.generation <= U64_MAX && s.sequence <= U64_MAX
    ensures Recovers(s, s)
  {
    forall id | id in s.leases ensures LeaseRecovers(s.leases[id], s.leases[id]) { LeaseRecoversRefl(s.leases[id]); }
  }

  lemma OneRecovers(s: State, leaseId: string, after: Lease, sequence: nat)
    requires s.generation <= U64_MAX && sequence <= U64_MAX
    requires leaseId in s.leases && LeaseRecovers(s.leases[leaseId], after)
    ensures Recovers(s, s.(leases := s.leases[leaseId := after], sequence := sequence))
  {
    var leases := s.leases[leaseId := after];
    assert leases.Keys == s.leases.Keys;
    forall id | id in s.leases
      ensures LeaseRecovers(s.leases[id], leases[id])
    {
      LeaseRecoversRefl(s.leases[id]);
    }
  }

  lemma RevokeRecovers(crypto: Crypto, s: State, leaseId: string)
    requires s.generation <= U64_MAX && s.sequence <= U64_MAX
    requires Revoke(crypto, s, leaseId).Done?
    ensures Recovers(s, Revoke(crypto, s, leaseId).next)
  {
    var t := Revoke(crypto, s, leaseId).next;
    if !Revoke(crypto, s, leaseId).changed {
      RecoversRefl(s);
      return;
    }
    AbandonRecovers(s.leases[leaseId].uses,
      _ => RecoveryDigest(crypto, s.storeId, leaseId, "revoked_before_completion"));
    OneRecovers(s, leaseId, t.leases[leaseId], s.sequence + 1);
  }

  lemma CommitRecovers(s: State, w: Witness)
    requires s.generation <= U64_MAX && s.sequence <= U64_MAX
    requires CommitCompletion(s, w).Done?
    ensures Recovers(s, CommitCompletion(s, w).next)
  {
    var t := CommitCompletion(s, w).next;
    if !CommitCompletion(s, w).changed {
      RecoversRefl(s);
      return;
    }
    assert t.leases[w.leaseId].uses.Keys == s.leases[w.leaseId].uses.Keys;
    OneRecovers(s, w.leaseId, t.leases[w.leaseId], s.sequence + 1);
  }

  lemma RestartFits(crypto: Crypto, s: State)
    requires Fits(s) && s.generation <= U64_MAX && s.sequence <= U64_MAX
    ensures Restart(crypto, s).Done? ==> Fits(Restart(crypto, s).next)
  {
    if Restart(crypto, s).Done? {
      RestartRecovers(crypto, s);
      RecoveryFits(s, Restart(crypto, s).next);
    }
  }

  lemma RevokeFits(crypto: Crypto, s: State, leaseId: string)
    requires Fits(s) && s.generation <= U64_MAX && s.sequence <= U64_MAX
    ensures Revoke(crypto, s, leaseId).Done? ==> Fits(Revoke(crypto, s, leaseId).next)
  {
    var o := Revoke(crypto, s, leaseId);
    if o.Done? {
      RevokeRecovers(crypto, s, leaseId);
      RecoveryFits(s, o.next);
    }
  }

  lemma CommitFits(s: State, w: Witness)
    requires Fits(s) && s.generation <= U64_MAX && s.sequence <= U64_MAX
    ensures CommitCompletion(s, w).Done? ==> Fits(CommitCompletion(s, w).next)
  {
    var o := CommitCompletion(s, w);
    if o.Done? {
      CommitRecovers(s, w);
      RecoveryFits(s, o.next);
    }
  }

  /** Starting an epoch, revoking and committing a completion are never refused as too large. */
  lemma Headroom(crypto: Crypto, s: State, q: Command)
    requires Fits(s) && s.generation <= U64_MAX && s.sequence <= U64_MAX
    requires q.DoRestart? || q.DoRevoke? || q.DoCommit?
    ensures Apply(crypto, s, q).Done? ==> Fits(Apply(crypto, s, q).next)
  {
    hide Fits, Restart, Revoke, CommitCompletion;
    match q
    case DoRestart => RestartFits(crypto, s);
    case DoRevoke(leaseId) => RevokeFits(crypto, s, leaseId);
    case DoCommit(w) => CommitFits(s, w);
  }
}
