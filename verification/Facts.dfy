/** What an acknowledged operation tells its caller, and why it stays true.

    A fact is what an `Ok` reply asserts about the ledger. Facts hold in the state that was
    written, keep holding in every later state, and exclude later facts that contradict them. */
module Facts {
  import opened Grants
  import opened Ledger
  import opened LedgerInvariant

  datatype Fact =
    | Leased(nonce: Digest, leaseId: string)
    | Minted(permit: Permit)
    | Pending(token: Witness)
    | Closed(token: Witness)
    | Fenced(leaseId: string)
    | Epoch(generation: nat)

  /** The fact a reply acknowledges; replies that only repeat what was known acknowledge none. */
  function FactsOf(q: Command, reply: Reply): seq<Fact> {
    match (q, reply)
    case (DoReserve(nonce, _, _), NewLease(leaseId)) => [Leased(nonce, leaseId)]
    case (DoBeginUse(_, _, _, _), NewUse(permit)) => [Minted(permit)]
    case (DoBeginCompletion(_, _, _), CompletionStarted(token)) => [Pending(token)]
    case (DoCommit(token), Committed) => [Closed(token)]
    case (DoRevoke(leaseId), LeaseRevoked) => [Fenced(leaseId)]
    case (DoRestart, Generation(generation)) => [Epoch(generation)]
    case _ => []
  }

  predicate UseIs(s: State, leaseId: string, use: Digest, u: UseState) {
    leaseId in s.leases && use in s.leases[leaseId].uses && UseEvolves(u, s.leases[leaseId].uses[use])
  }

  ghost predicate Holds(f: Fact, s: State) {
    match f
    case Leased(nonce, leaseId) => nonce in s.nonces && leaseId in s.leases
    case Minted(p) =>
      UseIs(s, p.leaseId, p.use, Active)
      && s.leases[p.leaseId].terms == p.terms && s.leases[p.leaseId].generation == p.generation
    case Pending(w) => UseIs(s, w.leaseId, w.use, Completing(w.record, w.disposition))
    case Closed(w) => UseIs(s, w.leaseId, w.use, Terminal(w.record, w.disposition))
    case Fenced(leaseId) => leaseId in s.leases && s.leases[leaseId].revoked
    case Epoch(generation) => generation <= s.generation
  }

  predicate SameUse(v: Witness, w: Witness) {
    v.leaseId == w.leaseId && v.use == w.use
  }

  predicate SameEnd(v: Witness, w: Witness) {
    v.record == w.record && v.disposition == w.disposition
  }

  /** `later` must never be acknowledged once `earlier` has been. */
  predicate Excludes(earlier: Fact, later: Fact) {
    match (earlier, later)
    case (Leased(n, id), Leased(n', id')) => n == n' || id == id'
    case (Minted(p), Minted(p')) => p.leaseId == p'.leaseId && p.use == p'.use
    case (Pending(w), Pending(w')) => SameUse(w, w')
    case (Pending(w), Closed(w')) => SameUse(w, w') && !SameEnd(w, w')
    case (Closed(w), Closed(w')) => SameUse(w, w') && !SameEnd(w, w')
    case (Closed(w), Pending(w')) => SameUse(w, w')
    case (Fenced(id), Minted(p)) => id == p.leaseId
    case (Fenced(id), Pending(w)) => id == w.leaseId
    case (Epoch(g), Minted(p)) => p.generation < g
    case (Epoch(g), Pending(w)) => w.generation < g
    case (Epoch(g), Epoch(g')) => g' <= g
    case (_, _) => false
  }

  lemma UseIsExtends(s: State, t: State, leaseId: string, use: Digest, u: UseState)
    requires Extends(s, t) && UseIs(s, leaseId, use, u)
    ensures UseIs(t, leaseId, use, u)
  {
    assert LeaseEvolves(s.leases[leaseId], t.leases[leaseId]);
  }

  /** A fact stays true in every state the ledger grows into. */
  lemma HoldsExtends(f: Fact, s: State, t: State)
    requires Extends(s, t) && Holds(f, s)
    ensures Holds(f, t)
  {
    match f
    case Leased(nonce, leaseId) =>
    case Minted(p) =>
      UseIsExtends(s, t, p.leaseId, p.use, Active);
      assert LeaseEvolves(s.leases[p.leaseId], t.leases[p.leaseId]);
    case Pending(w) => UseIsExtends(s, t, w.leaseId, w.use, Completing(w.record, w.disposition));
    case Closed(w) => UseIsExtends(s, t, w.leaseId, w.use, Terminal(w.record, w.disposition));
    case Fenced(leaseId) => assert LeaseEvolves(s.leases[leaseId], t.leases[leaseId]);
    case Epoch(generation) =>
  }

  ghost predicate Acknowledges(o: Outcome, q: Command) {
    o.Done? ==> forall f | f in FactsOf(q, o.reply) :: Holds(f, o.next)
  }

  /** What a reply acknowledges is true of the state written with it. */
  lemma AcknowledgedHolds(crypto: Crypto, s: State, q: Command)
    ensures Acknowledges(Apply(crypto, s, q), q)
  {
    match q
    case DoRestart => assert Acknowledges(Restart(crypto, s), q);
    case DoRead =>
    case DoReserve(nonce, retry, b) => assert Acknowledges(Reserve(crypto, s, nonce, retry, b), q);
    case DoBeginUse(leaseId, use, now, seal) => assert Acknowledges(BeginUse(s, leaseId, use, now, seal), q);
    case DoBeginCompletion(p, record, d) => assert Acknowledges(BeginCompletion(s, p, record, d), q);
    case DoResume(leaseId, use, record, d, seal) =>
    case DoCommit(w) => assert Acknowledges(CommitCompletion(s, w), q);
    case DoRevoke(leaseId) => assert Acknowledges(Revoke(crypto, s, leaseId), q);
  }

  ghost predicate NothingExcluded(f: Fact, o: Outcome, q: Command) {
    o.Done? ==> forall g | g in FactsOf(q, o.reply) :: !Excludes(f, g)
  }

  lemma RestartConsistent(crypto: Crypto, s: State, f: Fact)
    requires Holds(f, s)
    ensures NothingExcluded(f, Restart(crypto, s), DoRestart)
  {
  }

  lemma ReserveConsistent(crypto: Crypto, s: State, nonce: Digest, retry: Digest, b: Binding, f: Fact)
    requires Holds(f, s)
    ensures NothingExcluded(f, Reserve(crypto, s, nonce, retry, b), DoReserve(nonce, retry, b))
  {
  }

  lemma BeginUseConsistent(s: State, leaseId: string, use: Digest, now: nat, seal: Seal, f: Fact)
    requires Holds(f, s)
    ensures NothingExcluded(f, BeginUse(s, leaseId, use, now, seal), DoBeginUse(leaseId, use, now, seal))
  {
  }

  lemma CompletionConsistent(s: State, p: Permit, record: Digest, d: Disposition, f: Fact)
    requires Holds(f, s)
    ensures NothingExcluded(f, BeginCompletion(s, p, record, d), DoBeginCompletion(p, record, d))
  {
  }

  lemma CommitConsistent(s: State, w: Witness, f: Fact)
    requires Holds(f, s)
    ensures NothingExcluded(f, CommitCompletion(s, w), DoCommit(w))
  {
  }

  lemma RevokeConsistent(crypto: Crypto, s: State, leaseId: string, f: Fact)
    ensures NothingExcluded(f, Revoke(crypto, s, leaseId), DoRevoke(leaseId))
  {
  }

  /** A reply never acknowledges what an established fact excludes. */
  lemma AcknowledgedConsistent(crypto: Crypto, s: State, q: Command, f: Fact)
    requires Holds(f, s)
    ensures NothingExcluded(f, Apply(crypto, s, q), q)
  {
    match q
    case DoRestart => RestartConsistent(crypto, s, f);
    case DoRead =>
    case DoReserve(nonce, retry, b) => ReserveConsistent(crypto, s, nonce, retry, b, f);
    case DoBeginUse(leaseId, use, now, seal) => BeginUseConsistent(s, leaseId, use, now, seal, f);
    case DoBeginCompletion(p, record, d) => CompletionConsistent(s, p, record, d, f);
    case DoResume(leaseId, use, record, d, seal) =>
    case DoCommit(w) => CommitConsistent(s, w, f);
    case DoRevoke(leaseId) => RevokeConsistent(crypto, s, leaseId, f);
  }

  // ----- where the terms of a lease come from -----

  /** Which leases an outcome adds, and what it does to the identity and the generation. */
  ghost predicate Provenance(s: State, q: Command, o: Outcome) {
    o.Done? ==>
      && o.next.storeId == s.storeId
      && o.next.generation == s.generation + (if q.DoRestart? then 1 else 0)
      && (q.DoRestart? ==> o.reply == Generation(o.next.generation))
      && forall id | id in o.next.leases ::
           || (id in s.leases && SameOrigin(o.next.leases[id], s.leases[id]))
           || (q.DoReserve? && ReservedBy(o.next.leases[id], id, q.binding))
  }

  predicate SameOrigin(after: Lease, before: Lease) {
    after.terms == before.terms && after.generation == before.generation
  }

  /** The lease has the id, the terms and the generation of this binding. */
  predicate ReservedBy(lease: Lease, id: string, b: Binding) {
    id == b.leaseId && lease.terms == NewTerms(b) && lease.generation == b.generation
  }

  lemma LeaseProvenance(s: State, q: Command, o: Outcome)
    requires q.DoBeginUse? || q.DoBeginCompletion? || q.DoResume? || q.DoCommit?
    requires o == match q
      case DoBeginUse(leaseId, use, now, seal) => BeginUse(s, leaseId, use, now, seal)
      case DoBeginCompletion(p, record, d) => BeginCompletion(s, p, record, d)
      case DoResume(leaseId, use, record, d, seal) => ResumeCompletion(s, leaseId, use, record, d, seal)
      case DoCommit(w) => CommitCompletion(s, w)
    ensures Provenance(s, q, o)
  {
  }

  lemma StoreProvenance(crypto: Crypto, s: State, q: Command, o: Outcome)
    requires q.DoRestart? || q.DoReserve? || q.DoRevoke?
    requires o == match q
      case DoRestart => Restart(crypto, s)
      case DoReserve(nonce, retry, b) => Reserve(crypto, s, nonce, retry, b)
      case DoRevoke(leaseId) => Revoke(crypto, s, leaseId)
    ensures Provenance(s, q, o)
  {
    hide RecoveryDigest;
  }

  lemma ApplyProvenance(crypto: Crypto, s: State, q: Command)
    ensures Provenance(s, q, Apply(crypto, s, q))
  {
    hide Restart, Reserve, Revoke, BeginUse, BeginCompletion, ResumeCompletion, CommitCompletion;
    match q
    case DoRestart | DoReserve(_, _, _) | DoRevoke(_) => StoreProvenance(crypto, s, q, Apply(crypto, s, q));
    case DoRead =>
    case _ => LeaseProvenance(s, q, Apply(crypto, s, q));
  }
}
