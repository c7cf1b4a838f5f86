/** What every content a run can leave on disk has in common, and where its leases come from. */
module BrokerContents {
  import opened Constraints
  import opened GrantAnswers
  import opened Grants
  import opened Ledger
  import opened LedgerSize
  import opened Storage
  import opened ReplayStore
  import opened Facts
  import opened BrokerRuns

  // ----- properties that every write keeps -----

  ghost predicate All(v: View, ok: Content -> bool) {
    v.visible in v.survivors && forall c | c in v.survivors :: ok(c)
  }

  /** The commands of a run whose reservations are these bindings. */
  predicate Allowed(q: Command, bindings: set<Binding>) {
    q.DoReserve? ==> q.binding in bindings
  }

  ghost predicate StepKeeps(crypto: Crypto, ok: Content -> bool, s: State, key: nat, q: Command) {
    var o := Apply(crypto, s, q);
    ok(Signed(s, key)) && o.Done? && OutcomeFits(o) ==> ok(Signed(o.next, key))
  }

  ghost predicate FirstKeeps(ok: Content -> bool, storeId: Digest, key: nat) {
    Fits(EmptyState(storeId)) ==> ok(Signed(EmptyState(storeId), key))
  }

  /** `ok` holds of every first state that fits, and of what an allowed command writes after it. */
  ghost predicate Stable(crypto: Crypto, ok: Content -> bool, bindings: set<Binding>) {
    && (forall s: State, key: nat, q: Command | Allowed(q, bindings) :: StepKeeps(crypto, ok, s, key, q))
    && (forall storeId: Digest, key: nat :: FirstKeeps(ok, storeId, key))
  }

  lemma ConcludeAll(v: View, o: Outcome, fits: bool, key: nat, fault: Fault, ok: Content -> bool)
    requires All(v, ok) && (o.Done? && fits ==> ok(Signed(o.next, key)))
    ensures All(Conclude(Synced(v), o, fits, key, fault).0, ok)
  {
    ConcludeAtomic(v, o, fits, key, fault);
  }

  lemma StepAll(crypto: Crypto, s: State, key: nat, q: Command, ok: Content -> bool, bindings: set<Binding>)
    requires Stable(crypto, ok, bindings) && Allowed(q, bindings) && ok(Signed(s, key))
    ensures var o := Apply(crypto, s, q); o.Done? && OutcomeFits(o) ==> ok(Signed(o.next, key))
  {
    hide Apply, Fits;
    assert StepKeeps(crypto, ok, s, key, q);
  }

  lemma TransactAll(crypto: Crypto, v: View, storeId: Digest, key: nat, q: Command, fault: Fault,
                    ok: Content -> bool, bindings: set<Binding>)
    requires All(v, ok) && Stable(crypto, ok, bindings) && Allowed(q, bindings)
    ensures All(Transact(crypto, storeId, key, v, q, fault).0, ok)
  {
    hide Apply, Fits, Stable, Allowed;
    TransactUnfolds(crypto, storeId, key, v, q, fault);
    if !fault.LockFails? && !fault.ReadFails? && Load(v.visible, storeId, key).Loaded? {
      var s := Load(v.visible, storeId, key).payload;
      LoadedIs(v.visible, storeId, key);
      StepAll(crypto, s, key, q, ok, bindings);
      var o := Apply(crypto, s, q);
      ConcludeAll(v, o, OutcomeFits(o), key, fault, ok);
    }
  }

  lemma OperateAll(crypto: Crypto, w: World, id: nat, q: Command, fault: Fault, ok: Content -> bool,
                   bindings: set<Binding>)
    requires All(w.view, ok) && Stable(crypto, ok, bindings) && Allowed(q, bindings) && id in w.objects
    ensures All(Operate(crypto, w, id, q, fault).view, ok)
  {
    hide Transact, Stable, Allowed;
    if w.objects[id].activation.Activated? {
      TransactAll(crypto, w.view, w.objects[id].storeId, w.objects[id].key, q, fault, ok, bindings);
    }
  }

  lemma FirstWriteAll(crypto: Crypto, v: View, storeId: Digest, key: nat, fault: Fault, ok: Content -> bool,
                      bindings: set<Binding>)
    requires All(v, ok) && Stable(crypto, ok, bindings)
    ensures All(FirstWrite(v, EmptyState(storeId), key, fault).0, ok)
  {
    hide Fits, EmptyState;
    assert FirstKeeps(ok, storeId, key);
    var first := EmptyState(storeId);
    ConcludeAll(v, Done(Committed, first, true), Fits(first), key, fault, ok);
  }

  lemma BootstrapIs(v: View, legacy: bool, first: State, key: nat, fault: Fault)
    ensures var after := Bootstrapped(v, legacy, first, key, fault).0;
      after == v || after == Synced(v) || after == FirstWrite(v, first, key, fault).0
  {
    hide Fits;
  }

  lemma OneOfAll(v: View, written: View, after: View, ok: Content -> bool)
    requires All(v, ok) && All(written, ok) && (after == v || after == Synced(v) || after == written)
    ensures All(after, ok)
  {
  }

  lemma BootstrapAll(crypto: Crypto, v: View, legacy: bool, storeId: Digest, key: nat, fault: Fault,
                     ok: Content -> bool, bindings: set<Binding>)
    requires All(v, ok) && Stable(crypto, ok, bindings)
    ensures All(Bootstrapped(v, legacy, EmptyState(storeId), key, fault).0, ok)
  {
    hide Fits, EmptyState, Bootstrapped, FirstWrite, Stable;
    var first := EmptyState(storeId);
    FirstWriteAll(crypto, v, storeId, key, fault, ok, bindings);
    BootstrapIs(v, legacy, first, key, fault);
    OneOfAll(v, FirstWrite(v, first, key, fault).0, Bootstrapped(v, legacy, first, key, fault).0, ok);
  }

  lemma CommittingAll(crypto: Crypto, w: World, id: nat, fault: Fault, ok: Content -> bool, bindings: set<Binding>)
    requires All(w.view, ok) && Stable(crypto, ok, bindings) && id in w.objects
    ensures All(Committing(crypto, w, id, fault).view, ok)
  {
    hide Transact, Stable;
    TransactAll(crypto, w.view, w.objects[id].storeId, w.objects[id].key, DoRestart, fault, ok, bindings);
  }

  /** The bindings that the reservations of a run lead to. */
  function Bindings(events: seq<Event>): set<Binding> {
    set e | e in events && e.Reserves? && BindRequest(e.request).BoundTo? :: BindRequest(e.request).binding
  }

  predicate EventAllowed(e: Event, bindings: set<Binding>) {
    e.Reserves? && BindRequest(e.request).BoundTo? ==> BindRequest(e.request).binding in bindings
  }

  lemma ReserveAll(crypto: Crypto, w: World, e: Event, ok: Content -> bool, bindings: set<Binding>)
    requires All(w.view, ok) && Stable(crypto, ok, bindings)
    requires e.Reserves? && EventAllowed(e, bindings) && e.id in w.objects
    ensures All(Next(crypto, w, e).view, ok)
  {
    hide Operate, BindRequest, Stable;
    var bound := BindRequest(e.request);
    if bound.BoundTo? {
      OperateAll(crypto, w, e.id, DoReserve(e.request.nonce, crypto.hash(e.request.retryKey), bound.binding), e.fault,
                 ok, bindings);
    }
  }

  lemma NextAll(crypto: Crypto, w: World, e: Event, ok: Content -> bool, bindings: set<Binding>)
    requires All(w.view, ok) && Stable(crypto, ok, bindings) && EventAllowed(e, bindings)
    ensures All(Next(crypto, w, e).view, ok)
  {
    hide Operate, BindRequest, Stable, Bootstrapped, Transact, Committing;
    match e
    case Bootstraps(storeId, key, fault) => BootstrapAll(crypto, w.view, w.legacy, storeId, key, fault, ok, bindings);
    case Opens(key, fault) =>
    case Claims(id, fault) =>
    case Commits(id, fault) => if id in w.objects { CommittingAll(crypto, w, id, fault, ok, bindings); }
    case Reserves(id, r, fault) => if id in w.objects { ReserveAll(crypto, w, e, ok, bindings); }
    case Calls(id, q, fault) =>
      if id in w.objects && Admitted(w.objects[id], q) { OperateAll(crypto, w, id, q, fault, ok, bindings); }
    case Peeks(id, fault) =>
      if id in w.objects {
        TransactAll(crypto, w.view, w.objects[id].storeId, w.objects[id].key, DoRead, fault, ok, bindings);
      }
    case Drops(id) =>
    case Crashes(left) =>
  }

  lemma {:induction false} RunAll(crypto: Crypto, w: World, events: seq<Event>, ok: Content -> bool,
                                  bindings: set<Binding>)
    requires All(w.view, ok) && Stable(crypto, ok, bindings)
    requires forall e | e in events :: EventAllowed(e, bindings)
    ensures All(Run(crypto, w, events).view, ok)
    decreases |events|
  {
    hide Next, Stable, All;
    if events != [] {
      assert events[0] in events && forall e | e in events[1..] :: e in events;
      NextAll(crypto, w, events[0], ok, bindings);
      RunAll(crypto, Next(crypto, w, events[0]), events[1..], ok, bindings);
    }
  }

  function Reach(crypto: Crypto, legacy: bool, events: seq<Event>): World {
    Run(crypto, Start(legacy), events)
  }

  lemma ReachAll(crypto: Crypto, legacy: bool, events: seq<Event>, ok: Content -> bool)
    requires ok(Absent) && Stable(crypto, ok, Bindings(events))
    ensures All(Reach(crypto, legacy, events).view, ok)
  {
    hide Run, Stable, BindRequest;
    RunAll(crypto, Start(legacy), events, ok, Bindings(events));
  }

  // ----- every content passed the size check -----

  predicate Checked(c: Content) {
    c.Snapshot? ==> Fits(c.payload)
  }

  /** Every content a run can leave on disk passes the size check that reading repeats. */
  lemma ReachableFits(crypto: Crypto, legacy: bool, events: seq<Event>, c: Content)
    requires c in Reach(crypto, legacy, events).view.survivors && c.Snapshot?
    ensures Fits(c.payload)
  {
    hide Fits, Apply, Reach, EmptyState;
    var ok := c => Checked(c);
    assert Stable(crypto, ok, Bindings(events));
    ReachAll(crypto, legacy, events, ok);
    assert ok(c);
  }

  // ----- every lease was made by a reservation of the run -----

  predicate FromSome(lease: Lease, id: string, bindings: set<Binding>) {
    exists b | b in bindings :: ReservedBy(lease, id, b)
  }

  ghost predicate AllFrom(s: State, bindings: set<Binding>) {
    forall id | id in s.leases :: FromSome(s.leases[id], id, bindings)
  }

  ghost predicate ContentFrom(c: Content, bindings: set<Binding>) {
    c.Snapshot? ==> AllFrom(c.payload, bindings)
  }

  lemma OutcomeFrom(s: State, q: Command, o: Outcome, bindings: set<Binding>)
    requires Provenance(s, q, o) && AllFrom(s, bindings) && Allowed(q, bindings) && o.Done?
    ensures AllFrom(o.next, bindings)
  {
    forall id | id in o.next.leases
      ensures FromSome(o.next.leases[id], id, bindings)
    {
      if id in s.leases && SameOrigin(o.next.leases[id], s.leases[id]) {
        var b :| b in bindings && ReservedBy(s.leases[id], id, b);
        assert ReservedBy(o.next.leases[id], id, b);
      } else {
        assert ReservedBy(o.next.leases[id], id, q.binding);
      }
    }
  }

  lemma OriginStep(crypto: Crypto, s: State, key: nat, q: Command, bindings: set<Binding>)
    requires Allowed(q, bindings)
    ensures StepKeeps(crypto, c => ContentFrom(c, bindings), s, key, q)
  {
    hide Apply, Fits;
    var o := Apply(crypto, s, q);
    ApplyProvenance(crypto, s, q);
    if AllFrom(s, bindings) && o.Done? {
      OutcomeFrom(s, q, o, bindings);
    }
  }

  /** The `k`th event reserved this lease: its request led to a binding with the lease's id, terms
      and generation. */
  predicate MadeBy(events: seq<Event>, k: nat, id: string, terms: Terms, generation: nat) {
    && k < |events| && events[k].Reserves?
    && var request := events[k].request;
       && request.leaseId == id && request.generation == generation
       && BindRequest(request).BoundTo? && terms == NewTerms(BindRequest(request).binding)
  }

  lemma BoundNames(r: LeaseRequest)
    ensures BindRequest(r).BoundTo? ==>
      BindRequest(r).binding.leaseId == r.leaseId && BindRequest(r).binding.generation == r.generation
  {
    hide Intersect, Validate, ValidateAuthority, ValidateIntent;
  }

  /** Every lease in whatever a crash may leave after a run was reserved by an event of that run. */
  lemma LeaseOrigin(crypto: Crypto, legacy: bool, events: seq<Event>, c: Content, id: string)
    requires c in Reach(crypto, legacy, events).view.survivors && c.Snapshot? && id in c.payload.leases
    ensures exists k :: MadeBy(events, k, id, c.payload.leases[id].terms, c.payload.leases[id].generation)
  {
    hide Apply, Fits, Reach, BindRequest;
    var bindings := Bindings(events);
    var ok := c => ContentFrom(c, bindings);
    forall s: State, key: nat, q: Command | Allowed(q, bindings)
      ensures StepKeeps(crypto, ok, s, key, q)
    {
      OriginStep(crypto, s, key, q, bindings);
    }
    assert Stable(crypto, ok, bindings);
    ReachAll(crypto, legacy, events, ok);
    assert ok(c);
    var b :| b in bindings && ReservedBy(c.payload.leases[id], id, b);
    var e :| e in events && e.Reserves? && BindRequest(e.request).BoundTo? && BindRequest(e.request).binding == b;
    var k :| 0 <= k < |events| && events[k] == e;
    BoundNames(e.request);
    assert MadeBy(events, k, id, c.payload.leases[id].terms, c.payload.leases[id].generation);
  }

  /** What a request led to carries the request's own identities, and was in time when verified. */
  lemma RequestCarries(r: LeaseRequest)
    requires BindRequest(r).BoundTo?
    ensures var t := NewTerms(BindRequest(r).binding);
      && t.grantId == r.grantId && t.actionId == r.intent.actionId && t.operation == r.intent.operation
      && t.argsSha256 == r.intent.argsSha256 && t.workspaceId == r.intent.workspaceId == r.authority.workspaceId
      && t.manifestSha256 == r.intent.manifestSha256 == r.authority.manifestSha256
      && t.policySha256 == r.authority.policySha256
      && t.constraints.environment == r.intent.constraints.environment == r.authority.environment
    ensures InBothWindows(r.intent, r.granted, r.at)
  {
    hide ValidateIntent, ValidateAuthority, Validate, Intersect, FromVerified, BindLease;
    var v := FromVerified(r.grantId, r.intent, r.authority, r.granted, r.at);
    GrantedWhen(r.grantId, r.intent, r.authority, r.granted, r.at);
    GrantCarries(r.grantId, r.intent, r.authority, r.granted, r.at);
    BindingCarries(r.leaseId, v.grant, r.generation);
  }

  /** What a request led to permits exactly what its own intent and its own grant both permit, and
      stays within the intent's operation. */
  lemma RequestExact(r: LeaseRequest, q: Request)
    requires BindRequest(r).BoundTo?
    ensures var c := BindRequest(r).binding.constraints;
      && (Permits(c, q) <==> Permits(r.intent.constraints, q) && Permits(r.granted, q))
      && (Permits(c, q) ==> WithinOperation(r.intent.operation, q))
  {
    hide Permits, WithinOperation;
    var v := FromVerified(r.grantId, r.intent, r.authority, r.granted, r.at);
    GrantExact(r.grantId, r.intent, r.authority, r.granted, r.at, q);
    BoundKeepsConstraints(r.leaseId, v.grant, r.generation);
    if Permits(r.intent.constraints, q) {
      IntentWithinOperation(r.intent, q);
    }
  }
}
