/** What the size check measures: the members of the written snapshot, its limit in bytes, and that
    a new store always passes. */
module LedgerText {
  import opened CanonicalText
  import opened Constraints
  import opened Decimal
  import opened Json
  import opened JsonSize
  import opened Ledger
  import opened LedgerSize
  import opened Order
  import opened ReplayStore
  import opened Storage

  // ----- the limit -----

  /** Every Active use is abandoned with the longest record, and nothing else about the lease changes. */
  predicate RecoveryForm(before: Lease, after: Lease) {
    && after.terms == before.terms && after.generation == before.generation && after.remaining == before.remaining
    && after.revoked == before.revoked && after.uses.Keys == before.uses.Keys
    && forall u | u in before.uses ::
         if before.uses[u] == Active then after.uses[u] == Abandoned(seq(64, _ => 'f'))
         else after.uses[u] == before.uses[u]
  }

  predicate RecoveryFormOf(s: State, r: State) {
    && r.storeId == s.storeId && r.nonces == s.nonces && r.retries == s.retries
    && r.generation == r.sequence == 0xFFFF_FFFF_FFFF_FFFF && r.leases.Keys == s.leases.Keys
    && forall id | id in s.leases :: RecoveryForm(s.leases[id], r.leases[id])
  }

  /** A state is written and read back exactly when neither its snapshot nor that of its recovery form
      takes more than eight mebibytes. */
  lemma FitsWhen(s: State, r: State, mac: Digest)
    requires RecoveryFormOf(s, r)
    ensures Fits(s) <==>
      |Encode(SignedJson(s, mac))| <= 8 * 1024 * 1024 && |Encode(SignedJson(r, mac))| <= 8 * 1024 * 1024
  {
    hide SignedJson, RecoveryForm, Encode;
    OneRecoveryForm(s, r);
    AnyMac(s, mac);
    AnyMac(r, mac);
  }

  lemma OneRecoveryForm(s: State, r: State)
    requires RecoveryFormOf(s, r)
    ensures r == RecoverySized(s)
  {
    var sized := RecoverySized(s);
    forall id | id in s.leases
      ensures r.leases[id] == sized.leases[id]
    {
      assert RecoveryForm(s.leases[id], r.leases[id]);
      assert r.leases[id].uses == sized.leases[id].uses;
    }
    assert r.leases == sized.leases;
  }

  lemma AnyMac(s: State, mac: Digest)
    ensures Size(s) == |Encode(SignedJson(s, mac))|
  {
    hide Encode;
    var zero := Repeated('0');
    var f := Two("format_version", Num(2), "hmac_sha256", Str(mac));
    var g := Two("format_version", Num(2), "hmac_sha256", Str(zero));
    DigestLength(mac);
    DigestLength(zero);
    assert Shorter(f, g) && Shorter(g, f);
    ObjectWith(f, g, "payload", StateJson(s), StateJson(s));
    ObjectWith(g, f, "payload", StateJson(s), StateJson(s));
  }

  // ----- the members -----

  /** An object with exactly these members. */
  predicate Has(v: Json, names: set<string>) {
    v.Obj? && v.fields.Keys == names
  }

  predicate Member(v: Json, name: string, member: Json) {
    v.Obj? && name in v.fields && v.fields[name] == member
  }

  lemma SignedMembers(s: State, mac: Digest)
    ensures var v := SignedJson(s, mac);
      && Has(v, {"format_version", "hmac_sha256", "payload"})
      && Member(v, "format_version", Num(2)) && Member(v, "hmac_sha256", Str(mac)) && Member(v, "payload", StateJson(s))
  {
    hide StateJson;
  }

  lemma StateMembers(s: State)
    ensures var v := StateJson(s);
      && Has(v, {"store_id", "broker_generation", "sequence", "seen_nonce_digests", "idempotency", "leases"})
      && Member(v, "store_id", Str(s.storeId)) && Member(v, "broker_generation", Num(s.generation))
      && Member(v, "sequence", Num(s.sequence)) && Member(v, "seen_nonce_digests", NoncesJson(s.nonces))
      && Member(v, "idempotency", RetriesJson(s.retries)) && Member(v, "leases", LeasesJson(s.leases))
  {
    hide NoncesJson, RetriesJson, LeasesJson;
  }

  predicate TermsMembers(v: Json, t: Terms) {
    && Member(v, "grant_id", Str(t.grantId)) && Member(v, "action_id", Str(t.actionId))
    && Member(v, "operation", Str(OperationName(t.operation))) && Member(v, "canonical_args_sha256", Str(t.argsSha256))
    && Member(v, "workspace_id", Str(t.workspaceId)) && Member(v, "workspace_manifest_sha256", Str(t.manifestSha256))
    && Member(v, "policy_sha256", Str(t.policySha256)) && Member(v, "constraints", ConstraintsJson(t.constraints))
  }

  lemma TermsAre(t: Terms)
    ensures var v := Obj(TermsFields(t));
      && Has(v, {"grant_id", "action_id", "operation", "canonical_args_sha256", "workspace_id",
                 "workspace_manifest_sha256", "policy_sha256", "constraints"})
      && TermsMembers(v, t)
  {
    hide ConstraintsJson, OperationName, FloatFree, TermsIds;
    IdsAre(t);
  }

  lemma IdsAre(t: Terms)
    ensures var v := Obj(TermsIds(t));
      && Has(v, {"grant_id", "action_id", "operation", "workspace_id"})
      && Member(v, "grant_id", Str(t.grantId)) && Member(v, "action_id", Str(t.actionId))
      && Member(v, "operation", Str(OperationName(t.operation))) && Member(v, "workspace_id", Str(t.workspaceId))
  {
    hide OperationName, FloatFree;
  }

  /** The keys of `more` are all new, so what was there stays. */
  lemma TermsStay(fields: Fields, more: Fields, t: Terms)
    requires TermsMembers(Obj(fields), t) && forall k | k in fields :: k in more && more[k] == fields[k]
    ensures TermsMembers(Obj(more), t)
  {
    hide ConstraintsJson, OperationName, FloatFree;
  }

  lemma LeaseTerms(l: Lease)
    ensures TermsMembers(LeaseJson(l), l.terms)
  {
    hide TermsFields, TermsMembers, UsesJson, FloatFree;
    TermsAre(l.terms);
    var before, after := TermsFields(l.terms), LeaseJson(l).fields;
    forall k | k in before
      ensures k in after && after[k] == before[k]
    {
    }
    TermsStay(before, after, l.terms);
  }

  lemma LeaseMembers(l: Lease)
    ensures var v := LeaseJson(l);
      && Has(v, {"grant_id", "action_id", "operation", "canonical_args_sha256", "workspace_id",
                 "workspace_manifest_sha256", "policy_sha256", "constraints", "broker_generation", "remaining_uses",
                 "uses", "revoked"})
      && TermsMembers(v, l.terms) && Member(v, "broker_generation", Num(l.generation))
      && Member(v, "remaining_uses", Num(l.remaining)) && Member(v, "uses", UsesJson(l.uses))
      && Member(v, "revoked", Bool(l.revoked))
  {
    hide TermsFields, TermsMembers, UsesJson, FloatFree;
    TermsAre(l.terms);
    LeaseTerms(l);
  }

  /** The names under which the state of a use and the end it asks for are written. */
  lemma UseMembers(record: Digest, d: Disposition)
    ensures var v := UseJson(Active); Has(v, {"state"}) && Member(v, "state", Str("active"))
    ensures var v := UseJson(Completing(record, d));
      && Has(v, {"state", "terminal_record_sha256", "disposition"}) && Member(v, "state", Str("completing"))
      && Member(v, "terminal_record_sha256", Str(record))
      && Member(v, "disposition", Str(match d case Finish => "finished" case Abandon => "abandoned"))
    ensures EndMembers(UseJson(Finished(record)), "finished", record)
    ensures EndMembers(UseJson(Abandoned(record)), "abandoned", record)
  {
    hide FloatFree;
  }

  predicate EndMembers(v: Json, state: string, record: Digest) {
    && Has(v, {"state", "terminal_record_sha256"})
    && Member(v, "state", Str(state)) && Member(v, "terminal_record_sha256", Str(record))
  }

  /** The tables of a state: each digest or id with what is recorded under it. */
  lemma TableMembers(s: State, l: Lease)
    ensures Has(RetriesJson(s.retries), s.retries.Keys)
    ensures forall r | r in s.retries :: RetriesJson(s.retries).fields[r] == RetryJson(s.retries[r])
    ensures Has(LeasesJson(s.leases), s.leases.Keys)
    ensures forall id | id in s.leases :: LeasesJson(s.leases).fields[id] == LeaseJson(s.leases[id])
    ensures Has(UsesJson(l.uses), l.uses.Keys)
    ensures forall u | u in l.uses :: UsesJson(l.uses).fields[u] == UseJson(l.uses[u])
  {
    hide FloatFree, LeaseJson, UseJson, RetryJson;
  }

  lemma RetryMembers(r: Retry)
    ensures var v := RetryJson(r);
      && Has(v, {"request_fingerprint_sha256", "lease_id"})
      && Member(v, "request_fingerprint_sha256", Str(r.fingerprint)) && Member(v, "lease_id", Str(r.leaseId))
  {
    hide FloatFree;
  }

  lemma LimitMembers(uses: UseLimits)
    ensures var v := LimitsJson(uses);
      && Has(v, {"capacity", "max_request_bytes", "max_response_bytes"})
      && Member(v, "capacity", CapacityJson(uses.capacity)) && Member(v, "max_request_bytes", BytesJson(uses.request))
      && Member(v, "max_response_bytes", BytesJson(uses.response))
  {
    hide FloatFree, CapacityJson, BytesJson;
  }

  lemma BoundMembers(n: nat, m: nat)
    ensures var v := CapacityJson(NoCapacity); Has(v, {"mode"}) && Member(v, "mode", Str("denied"))
    ensures var v := CapacityJson(Uses(n, m));
      && Has(v, {"mode", "max_uses", "max_concurrent_uses"}) && Member(v, "mode", Str("bounded"))
      && Member(v, "max_uses", Num(n)) && Member(v, "max_concurrent_uses", Num(m))
    ensures var v := BytesJson(NoBytes); Has(v, {"mode"}) && Member(v, "mode", Str("denied"))
    ensures var v := BytesJson(Bytes(n)); Has(v, {"mode", "bytes"}) && Member(v, "mode", Str("bounded"))
                                          && Member(v, "bytes", Num(n))
  {
    hide FloatFree;
  }

  lemma ConstraintMembers(c: Constraints)
    ensures var v := ConstraintsJson(c);
      && Has(v, {"environment", "read_only", "time", "uses", "network", "spend"})
      && Member(v, "environment", Str(c.environment)) && Member(v, "read_only", Bool(c.readOnly))
      && Member(v, "time", TimeJson(c.time)) && Member(v, "uses", LimitsJson(c.uses))
      && Member(v, "network", NetworkJson(c.network)) && Member(v, "spend", SpendJson(c.spend))
  {
    hide FloatFree, NetworkJson, LimitsJson, TimeJson, SpendJson;
  }

  lemma TimeAndSpendMembers(c: Constraints)
    ensures var v := TimeJson(c.time);
      && Has(v, {"not_before", "expires_at"})
      && Member(v, "not_before", Num(c.time.notBefore)) && Member(v, "expires_at", Num(c.time.expiresAt))
    ensures var v := SpendJson(c.spend); Member(v, "max_minor_units", Num(c.spend.maxMinorUnits))
    ensures match c.spend.currency
      case NoCurrency => Has(SpendJson(c.spend), {"max_minor_units"})
      case Currency(code) =>
        Has(SpendJson(c.spend), {"currency", "max_minor_units"}) && Member(SpendJson(c.spend), "currency", Str(code))
  {
    hide FloatFree;
  }

  lemma NetworkMembers(n: Network)
    ensures var v := NetworkJson(n);
      && Has(v, {"schemes", "hosts", "ports", "methods", "path_prefixes", "allow_redirects"})
      && Member(v, "schemes", ScopeJson(n.schemes, SchemeJson)) && Member(v, "hosts", ScopeJson(n.hosts, TextJson))
      && Member(v, "ports", ScopeJson(n.ports, NumberJson)) && Member(v, "methods", ScopeJson(n.methods, MethodJson))
      && Member(v, "path_prefixes", ScopeJson(n.paths, TextJson)) && Member(v, "allow_redirects", Bool(n.redirects))
  {
    hide FloatFree, ScopeJson;
  }

  // ----- the first state -----

  lemma {:induction false} CostBound(keys: seq<string>, fields: map<string, Json>, most: nat)
    requires Elements(keys) <= fields.Keys && forall k | k in fields :: FloatFree(fields[k])
    requires forall k | k in fields :: Cost(k, fields[k]) <= most
    ensures SumCost(keys, fields) <= |keys| * most
  {
    hide Cost;
    if keys != [] {
      assert keys[0] in Elements(keys) && Elements(keys[1..]) <= Elements(keys);
      CostBound(keys[1..], fields, most);
      assert |keys| * most == (|keys| - 1) * most + most;
    }
  }

  lemma ObjectBound(v: Json, most: nat)
    requires v.Obj? && FloatFree(v) && forall k | k in v.fields :: Cost(k, v.fields[k]) <= most
    ensures Len(v) <= 2 + |v.fields| * most + |v.fields|
  {
    hide Cost, Len;
    CostBound(SortedKeys(v.fields), v.fields, most);
    ObjectLength(v);
    assert |v.fields| == |v.fields.Keys|;
  }

  lemma CostOf(key: string, v: Json)
    requires Plain(key) && FloatFree(v)
    ensures Cost(key, v) == |key| + 3 + Len(v)
  {
    hide Encode;
    PlainLength(key);
  }

  lemma {:induction false} NumeralLength(n: nat, k: nat)
    requires k > 0 && n < Power(k)
    ensures |Show(n)| <= k
    decreases k
  {
    if n >= 10 {
      assert Power(1) == 10;
      NumeralLength(n / 10, k - 1);
    }
  }

  function Power(k: nat): nat {
    if k == 0 then 1 else 10 * Power(k - 1)
  }

  lemma U64Length(n: nat)
    requires n <= 0xFFFF_FFFF_FFFF_FFFF
    ensures Len(Num(n)) <= 20
  {
    assert Power(5) == 100000;
    assert Power(10) == 10000000000;
    assert Power(15) == 1000000000000000;
    assert Power(20) == 100000000000000000000;
    NumeralLength(n, 20);
    NumberText(n);
  }

  /** A store without grants, retries and leases. */
  predicate Bare(s: State) {
    s.nonces == {} && s.retries == map[] && s.leases == map[]
    && s.generation <= 0xFFFF_FFFF_FFFF_FFFF && s.sequence <= 0xFFFF_FFFF_FFFF_FFFF
  }

  lemma NothingListed()
    ensures Len(NoncesJson({})) == 2 && Len(RetriesJson(map[])) == 2 && Len(LeasesJson(map[])) == 2
  {
    TextStrictTotal();
    SortSetOfNone();
    var none: map<string, Json> := map[];
    assert RetriesJson(map[]) == Obj(none) && LeasesJson(map[]) == Obj(none);
    assert SortedKeys(none) == [];
  }

  lemma SortSetOfNone()
    ensures NoncesJson({}) == Arr([])
  {
    TextStrictTotal();
    assert SortSet<string>({}, TextLess) == [];
  }

  lemma BarePayload(s: State)
    requires Bare(s)
    ensures Len(StateJson(s)) <= 1000
  {
    hide Len, Cost, StateJson, FloatFree, Plain;
    StateMembers(s);
    PlainNames();
    U64Length(s.generation);
    U64Length(s.sequence);
    DigestLength(s.storeId);
    NothingListed();
    var v := StateJson(s);
    assert FloatFree(v);
    forall k | k in v.fields
      ensures FloatFree(v.fields[k]) && Cost(k, v.fields[k]) <= 100
    {
      assert k in {"store_id", "broker_generation", "sequence", "seen_nonce_digests", "idempotency", "leases"};
      assert FloatFree(v.fields[k]) by { PartFloatFree(v, k); }
      CostOf(k, v.fields[k]);
    }
    assert |v.fields| == |v.fields.Keys| == 6;
    ObjectBound(v, 100);
  }

  lemma PartFloatFree(v: Json, k: string)
    requires v.Obj? && FloatFree(v) && k in v.fields
    ensures FloatFree(v.fields[k])
  {
  }

  lemma PlainNames()
    ensures Plain("broker_generation") && Plain("idempotency") && Plain("leases") && Plain("seen_nonce_digests")
    ensures Plain("sequence") && Plain("store_id") && Plain("format_version") && Plain("hmac_sha256") && Plain("payload")
  {
  }

  lemma BareSize(s: State)
    requires Bare(s)
    ensures Size(s) <= 4000
  {
    hide Len, Cost, SignedJson, StateJson, FloatFree, Plain;
    var mac := Repeated('0');
    SignedMembers(s, mac);
    PlainNames();
    BarePayload(s);
    DigestLength(mac);
    U64Length(2);
    var v := SignedJson(s, mac);
    assert FloatFree(v);
    forall k | k in v.fields
      ensures FloatFree(v.fields[k]) && Cost(k, v.fields[k]) <= 1100
    {
      assert k in {"format_version", "hmac_sha256", "payload"};
      assert FloatFree(v.fields[k]) by { PartFloatFree(v, k); }
      CostOf(k, v.fields[k]);
    }
    assert |v.fields| == |v.fields.Keys| == 3;
    ObjectBound(v, 1100);
  }

  /** A new store fits, so where there is no file it is created unless some operation on it fails. */
  lemma FirstStateFits(v: View, storeId: Digest, key: nat)
    requires key != 0 && v.visible == Absent
    ensures Fits(EmptyState(storeId))
    ensures Bootstrapped(v, false, EmptyState(storeId), key, NoFault) ==
            (View(Snapshot(EmptyState(storeId), 2, key), {Snapshot(EmptyState(storeId), 2, key)}, v.held), Ok(Committed))
  {
    hide Size;
    var s := EmptyState(storeId);
    BareSize(s);
    BareSize(RecoverySized(s));
  }
}
