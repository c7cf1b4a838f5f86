/** What holds in every run of the broker's stores. */
module BrokerSafety {
  import opened Constraints
  import opened Grants
  import opened Ledger
  import opened LedgerInvariant
  import opened Storage
  import opened ReplayStore
  import opened Facts
  import opened BrokerContents
  import opened BrokerRuns

  lemma Reachable(crypto: Crypto, legacy: bool, events: seq<Event>)
    ensures Inv(Reach(crypto, legacy, events))
  {
    StartOk(legacy);
    RunKeeps(crypto, Start(legacy), events);
  }

  // ----- acknowledgements -----

  /** One new permit per lease and operation, one new lease per grant nonce and per lease id,
      strictly rising epochs, no permit after a revocation or for an older generation after a newer
      epoch, and one end per use. */
  ghost predicate InOrder(f: Fact, g: Fact) {
    && (f.Minted? && g.Minted? ==> (f.permit.leaseId, f.permit.use) != (g.permit.leaseId, g.permit.use))
    && (f.Leased? && g.Leased? ==> f.nonce != g.nonce && f.leaseId != g.leaseId)
    && (f.Epoch? && g.Epoch? ==> f.generation < g.generation)
    && (f.Fenced? && g.Minted? ==> f.leaseId != g.permit.leaseId)
    && (f.Epoch? && g.Minted? ==> f.generation <= g.permit.generation)
    && (f.Pending? && g.Closed? && SameUse(f.token, g.token) ==> SameEnd(f.token, g.token))
    && (f.Closed? && g.Closed? && SameUse(f.token, g.token) ==> SameEnd(f.token, g.token))
  }

  lemma ConsistentInOrder(log: seq<Fact>, i: nat, j: nat)
    requires Consistent(log) && i < j < |log|
    ensures InOrder(log[i], log[j])
  {
    assert !Excludes(log[i], log[j]);
  }

  /** Over any run, acknowledgements come in order. */
  lemma AcknowledgedOnce(crypto: Crypto, legacy: bool, events: seq<Event>, i: nat, j: nat)
    requires i < j < |Reach(crypto, legacy, events).log|
    ensures InOrder(Reach(crypto, legacy, events).log[i], Reach(crypto, legacy, events).log[j])
  {
    Reachable(crypto, legacy, events);
    ConsistentInOrder(Reach(crypto, legacy, events).log, i, j);
  }

  lemma LogGrows(crypto: Crypto, w: World, e: Event)
    ensures w.log <= Next(crypto, w, e).log
  {
  }

  lemma {:induction false} RunLogGrows(crypto: Crypto, w: World, events: seq<Event>)
    ensures w.log <= Run(crypto, w, events).log
    decreases |events|
  {
    if events != [] {
      LogGrows(crypto, w, events[0]);
      RunLogGrows(crypto, Next(crypto, w, events[0]), events[1..]);
    }
  }

  /** What was acknowledged stays true of the file and of everything a crash may leave of it. */
  lemma AcknowledgedIsDurable(crypto: Crypto, legacy: bool, before: seq<Event>, later: seq<Event>, f: Fact, c: Content)
    requires f in Reach(crypto, legacy, before).log
    requires c in Run(crypto, Reach(crypto, legacy, before), later).view.survivors
    ensures c.Snapshot? && Holds(f, c.payload)
  {
    var w := Reach(crypto, legacy, before);
    Reachable(crypto, legacy, before);
    RunKeeps(crypto, w, later);
    RunLogGrows(crypto, w, later);
    assert ContentOk(c, Run(crypto, w, later).log);
  }

  /** The counting and generation rules of a whole state, and of one of its leases. */
  ghost predicate Counted(s: State, lease: Lease) {
    && lease.remaining + |lease.uses| == MaxUses(lease) && InFlight(lease.uses) <= MaxConcurrent(lease)
    && |s.nonces| == |s.retries| == |s.leases| && Matched(s.retries, s.leases)
    && 1 <= lease.generation <= s.generation && (lease.generation < s.generation ==> lease.revoked)
    && (lease.revoked ==> NoneActive(lease.uses))
  }

  lemma GoodCounts(s: State, id: string)
    requires Good(s) && id in s.leases
    ensures Counted(s, s.leases[id])
  {
    assert LeaseOk(s.leases[id], s.generation);
  }

  /** They hold of every content a crash may leave after any run. */
  lemma ReachableLedger(crypto: Crypto, legacy: bool, events: seq<Event>, c: Content, id: string)
    requires c in Reach(crypto, legacy, events).view.survivors && c.Snapshot? && id in c.payload.leases
    ensures Counted(c.payload, c.payload.leases[id])
    ensures exists k :: MadeBy(events, k, id, c.payload.leases[id].terms, c.payload.leases[id].generation)
  {
    hide Reach;
    Reachable(crypto, legacy, events);
    assert ContentOk(c, Reach(crypto, legacy, events).log);
    GoodCounts(c.payload, id);
    LeaseOrigin(crypto, legacy, events, c, id);
  }

  /** The permit was made from the `k`th event's request. It names that request's grant, action,
      arguments and policy, and the workspace and manifest that its intent and its subject share; it
      permits exactly what that intent and that grant both permit, and nothing beyond the operation. */
  ghost predicate NarrowedFrom(events: seq<Event>, k: nat, p: Permit) {
    && k < |events| && events[k].Reserves?
    && var request := events[k].request;
       && p.leaseId == request.leaseId && p.generation == request.generation
       && p.terms.grantId == request.grantId && p.terms.actionId == request.intent.actionId
       && p.terms.operation == request.intent.operation && p.terms.argsSha256 == request.intent.argsSha256
       && p.terms.workspaceId == request.intent.workspaceId == request.authority.workspaceId
       && p.terms.manifestSha256 == request.intent.manifestSha256 == request.authority.manifestSha256
       && p.terms.policySha256 == request.authority.policySha256
       && p.terms.constraints.environment == request.intent.constraints.environment == request.authority.environment
       && request.intent.constraints.time.notBefore <= request.at < request.intent.constraints.time.expiresAt
       && request.granted.time.notBefore <= request.at < request.granted.time.expiresAt
       && forall r: Request ::
            && (Permits(p.terms.constraints, r) <==>
                Permits(request.intent.constraints, r) && Permits(request.granted, r))
            && (Permits(p.terms.constraints, r) ==> WithinOperation(request.intent.operation, r))
  }

  /** Every permit of a run goes back to a reservation of that run and is as narrow as its intent
      and its grant together. */
  lemma PermitsAreNarrow(crypto: Crypto, legacy: bool, events: seq<Event>, p: Permit)
    requires Minted(p) in Reach(crypto, legacy, events).log
    ensures exists k :: NarrowedFrom(events, k, p)
  {
    hide Reach;
    var w := Reach(crypto, legacy, events);
    Reachable(crypto, legacy, events);
    assert w == Run(crypto, w, []) && w.view.visible in w.view.survivors;
    AcknowledgedIsDurable(crypto, legacy, events, [], Minted(p), w.view.visible);
    LeaseOrigin(crypto, legacy, events, w.view.visible, p.leaseId);
    var k :| MadeBy(events, k, p.leaseId, p.terms, p.generation);
    MadeIsNarrow(events, k, p);
  }

  lemma MadeIsNarrow(events: seq<Event>, k: nat, p: Permit)
    requires MadeBy(events, k, p.leaseId, p.terms, p.generation)
    ensures NarrowedFrom(events, k, p)
  {
    hide Permits, WithinOperation, BindRequest;
    var request := events[k].request;
    RequestCarries(request);
    forall r: Request
      ensures Permits(p.terms.constraints, r) <==>
              Permits(request.intent.constraints, r) && Permits(request.granted, r)
      ensures Permits(p.terms.constraints, r) ==> WithinOperation(request.intent.operation, r)
    {
      RequestExact(request, r);
    }
  }

  // ----- activation -----

  /** At most one object is active, and the file is at exactly the generation it started with. */
  lemma OneActive(crypto: Crypto, legacy: bool, events: seq<Event>, i: nat, j: nat)
    requires var w := Reach(crypto, legacy, events);
      i in w.objects && j in w.objects && w.objects[i].activation.Activated?
    ensures var w := Reach(crypto, legacy, events);
      && (w.objects[j].activation.Activated? ==> i == j)
      && w.view.held
      && forall c | c in w.view.survivors :: c.Snapshot? && c.payload.generation == w.objects[i].epoch
  {
    var w := Reach(crypto, legacy, events);
    Reachable(crypto, legacy, events);
    assert HandleOk(w.objects[i]) && HandleOk(w.objects[j]);
    assert ServesAll(w.objects[i], w.view.survivors);
  }

  /** Poisoned, and without the instance lock that a pending claim keeps. */
  predicate Dead(h: Handle) {
    h.activation.Poisoned? && !h.holds
  }

  predicate StaysDead(before: World, after: World, id: nat) {
    && before.next <= after.next
    && (id in before.objects && Dead(before.objects[id]) && id in after.objects ==> Dead(after.objects[id]))
    && (id < before.next && id !in before.objects ==> id !in after.objects)
  }

  lemma SameObjectsStayDead(w: World, after: World, id: nat)
    requires after.objects == w.objects && after.next == w.next
    ensures StaysDead(w, after, id)
  {
  }

  lemma AdoptStaysDead(w: World, v: View, storeId: Digest, key: nat, id: nat)
    requires w.next !in w.objects
    ensures StaysDead(w, Adopt(w, v, storeId, key), id)
  {
  }

  lemma ClaimStaysDead(w: World, i: nat, fault: Fault, id: nat)
    requires i in w.objects
    ensures StaysDead(w, Claiming(w, i, fault), id)
  {
  }

  lemma CommitStaysDead(crypto: Crypto, w: World, i: nat, fault: Fault, id: nat)
    requires i in w.objects && MayCommit(w.objects[i])
    ensures StaysDead(w, Committing(crypto, w, i, fault), id)
  {
  }

  lemma OpeningStaysDead(crypto: Crypto, w: World, e: Event, id: nat)
    requires Inv(w) && (e.Bootstraps? || e.Opens?)
    ensures StaysDead(w, Next(crypto, w, e), id)
  {
    if e.Bootstraps? {
      AdoptStaysDead(w, Bootstrapped(w.view, w.legacy, EmptyState(e.storeId), e.key, e.fault).0, e.storeId, e.key, id);
    } else {
      var (v, loaded) := Opened(w.view, w.legacy, e.key, e.fault);
      if loaded.Loaded? { AdoptStaysDead(w, v, loaded.payload.storeId, e.key, id); }
    }
  }

  lemma UsingStaysDead(crypto: Crypto, w: World, e: Event, id: nat)
    requires e.Reserves? || e.Calls? || e.Peeks?
    ensures StaysDead(w, Next(crypto, w, e), id)
  {
    SameObjectsStayDead(w, Next(crypto, w, e), id);
  }

  lemma ClaimEventStaysDead(crypto: Crypto, w: World, i: nat, fault: Fault, id: nat)
    ensures StaysDead(w, Next(crypto, w, Claims(i, fault)), id)
  {
    if i in w.objects { ClaimStaysDead(w, i, fault, id); }
  }

  lemma CommitEventStaysDead(crypto: Crypto, w: World, i: nat, fault: Fault, id: nat)
    ensures StaysDead(w, Next(crypto, w, Commits(i, fault)), id)
  {
    if i in w.objects && MayCommit(w.objects[i]) { CommitStaysDead(crypto, w, i, fault, id); }
  }

  lemma EndStaysDead(crypto: Crypto, w: World, e: Event, id: nat)
    requires e.Drops? || e.Crashes?
    ensures StaysDead(w, Next(crypto, w, e), id)
  {
  }

  lemma NextStaysDead(crypto: Crypto, w: World, e: Event, id: nat)
    requires Inv(w)
    ensures StaysDead(w, Next(crypto, w, e), id)
  {
    if e.Bootstraps? || e.Opens? {
      OpeningStaysDead(crypto, w, e, id);
    } else if e.Reserves? || e.Calls? || e.Peeks? {
      UsingStaysDead(crypto, w, e, id);
    } else if e.Claims? {
      ClaimEventStaysDead(crypto, w, e.id, e.fault, id);
    } else if e.Commits? {
      CommitEventStaysDead(crypto, w, e.id, e.fault, id);
    } else {
      EndStaysDead(crypto, w, e, id);
    }
  }

  /** A poisoned object never becomes active again, whatever follows. */
  lemma {:induction false} PoisonedForever(crypto: Crypto, w: World, events: seq<Event>, id: nat)
    requires Inv(w) && id < w.next && (id in w.objects ==> Dead(w.objects[id]))
    ensures var after := Run(crypto, w, events); id in after.objects ==> Dead(after.objects[id])
    decreases |events|
  {
    if events != [] {
      NextKeeps(crypto, w, events[0]);
      NextStaysDead(crypto, w, events[0], id);
      PoisonedForever(crypto, Next(crypto, w, events[0]), events[1..], id);
    }
  }

  /** A commit of an epoch that fails for any reason leaves its object poisoned and the lock free. */
  lemma FailedEpochIsDead(crypto: Crypto, w: World, id: nat, fault: Fault)
    requires Inv(w) && id in w.objects && MayCommit(w.objects[id])
    requires Transact(crypto, w.objects[id].storeId, w.objects[id].key, w.view, DoRestart, fault).1.Err?
    ensures var after := Next(crypto, w, Commits(id, fault));
      id in after.objects && Dead(after.objects[id]) && !after.view.held && after.log == w.log
  {
    hide Transact, Inv;
    assert w.log + [] == w.log;
  }
}
