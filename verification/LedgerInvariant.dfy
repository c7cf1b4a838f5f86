/** What every transaction keeps: counting, bijection, generations and the life of a use. */
module LedgerInvariant {
  import opened Constraints
  import opened Grants
  import opened Ledger

  // ----- the invariant -----

  ghost predicate LeaseOk(lease: Lease, storeGeneration: nat) {
    && 1 <= lease.generation <= storeGeneration
    && lease.terms.constraints.uses.capacity.Uses?
    && lease.remaining + |lease.uses| == MaxUses(lease)
    && InFlight(lease.uses) <= MaxConcurrent(lease)
    && (lease.generation < storeGeneration ==> lease.revoked)
    && (lease.revoked ==> NoneActive(lease.uses))
  }

  ghost predicate NoneActive(uses: map<Digest, UseState>) {
    forall u | u in uses :: !uses[u].Active?
  }

  /** Retry entries and leases correspond one to one. */
  ghost predicate Matched(retries: map<Digest, Retry>, leases: map<string, Lease>) {
    && (forall r | r in retries :: retries[r].leaseId in leases)
    && (forall r, q | r in retries && q in retries && r != q :: retries[r].leaseId != retries[q].leaseId)
    && (forall id | id in leases :: exists r :: r in retries && retries[r].leaseId == id)
  }

  ghost predicate Good(s: State) {
    && s.generation <= U64_MAX && s.sequence <= U64_MAX
    && |s.nonces| == |s.retries| == |s.leases|
    && Matched(s.retries, s.leases)
    && forall id | id in s.leases :: LeaseOk(s.leases[id], s.generation)
  }

  // ----- one transaction -----

  /** Active -> Completing -> its own terminal state, or Active -> Abandoned; nothing else. */
  predicate UseStep(before: UseState, after: UseState) {
    || after == before
    || (before.Active? && (after.Completing? || after.Abandoned?))
    || (before.Completing? && after == Terminal(before.record, before.disposition))
  }

  ghost predicate LeaseStep(before: Lease, after: Lease) {
    && after.terms == before.terms && after.generation == before.generation
    && (before.revoked ==> after.revoked)
    && (forall u | u in before.uses :: u in after.uses && UseStep(before.uses[u], after.uses[u]))
    && (forall u | u in after.uses && u !in before.uses :: after.uses[u].Active?)
  }

  ghost predicate Transition(s: State, t: State) {
    && t.storeId == s.storeId
    && t.sequence == s.sequence + 1
    && s.generation <= t.generation <= s.generation + 1
    && s.nonces <= t.nonces
    && (forall r | r in s.retries :: r in t.retries && t.retries[r] == s.retries[r])
    && (forall id | id in s.leases :: id in t.leases && LeaseStep(s.leases[id], t.leases[id]))
    && (forall id | id in t.leases && id !in s.leases ::
          t.leases[id].uses == map[] && !t.leases[id].revoked && t.leases[id].generation == t.generation)
  }

  // ----- counting -----

  lemma InFlightAdded(uses: map<Digest, UseState>, use: Digest, u: UseState)
    requires use !in uses
    ensures InFlight(uses[use := u]) == InFlight(uses) + (if Busy(u) then 1 else 0)
  {
    assert BusyUses(uses[use := u]) == BusyUses(uses) + (if Busy(u) then {use} else {});
  }

  lemma InFlightMoved(uses: map<Digest, UseState>, use: Digest, u: UseState)
    requires use in uses && (Busy(u) ==> Busy(uses[use]))
    ensures InFlight(uses[use := u]) <= InFlight(uses)
  {
    assert BusyUses(uses[use := u]) <= BusyUses(uses);
    Subset(BusyUses(uses[use := u]), BusyUses(uses));
  }

  lemma Subset<T>(a: set<T>, b: set<T>)
    requires a <= b
    ensures |a| <= |b|
  {
    assert b == a + (b - a);
  }

  lemma UsesGrow(uses: map<Digest, UseState>, use: Digest, u: UseState)
    ensures |uses[use := u]| == |uses| + (if use in uses then 0 else 1)
  {
    assert uses[use := u].Keys == uses.Keys + {use};
    assert |uses.Keys| == |uses| && |uses[use := u].Keys| == |uses[use := u]|;
  }

  lemma AbandonedUses(uses: map<Digest, UseState>, record: Digest -> Digest)
    ensures var after := AbandonActive(uses, record);
      && |after| == |uses| && after.Keys == uses.Keys && NoneActive(after) && InFlight(after) <= InFlight(uses)
      && forall u | u in uses :: UseStep(uses[u], after[u]) && (uses[u].Completing? ==> after[u] == uses[u])
  {
    var after := AbandonActive(uses, record);
    assert after.Keys == uses.Keys;
    assert |after.Keys| == |after| && |uses.Keys| == |uses|;
    Subset(BusyUses(after), BusyUses(uses));
  }

  // ----- a transaction that changes one existing lease -----

  ghost predicate OneLease(s: State, leaseId: string, after: Lease, t: State) {
    && leaseId in s.leases
    && t == s.(leases := s.leases[leaseId := after], sequence := s.sequence + 1)
  }

  lemma OneLeaseGood(s: State, leaseId: string, after: Lease)
    requires Good(s) && leaseId in s.leases && LeaseOk(after, s.generation)
    ensures var leases := s.leases[leaseId := after];
      && |leases| == |s.leases| && Matched(s.retries, leases)
      && forall id | id in leases :: LeaseOk(leases[id], s.generation)
  {
    var leases := s.leases[leaseId := after];
    assert leases.Keys == s.leases.Keys;
    assert |leases| == |leases.Keys| && |s.leases| == |s.leases.Keys|;
    MatchedKeys(s.retries, s.leases, leases);
  }

  lemma LeaseStepRefl(lease: Lease)
    ensures LeaseStep(lease, lease)
  {
  }

  lemma OneLeaseKeeps(s: State, leaseId: string, after: Lease, t: State)
    requires Good(s) && s.sequence < U64_MAX && OneLease(s, leaseId, after, t)
    requires LeaseStep(s.leases[leaseId], after) && LeaseOk(after, s.generation)
    ensures Good(t) && Transition(s, t)
  {
    hide LeaseStep, LeaseOk, Matched;
    OneLeaseGood(s, leaseId, after);
    forall id | id in s.leases
      ensures LeaseStep(s.leases[id], t.leases[id])
    {
      if id != leaseId {
        LeaseStepRefl(s.leases[id]);
      }
    }
  }

  lemma MatchedKeys(retries: map<Digest, Retry>, before: map<string, Lease>, after: map<string, Lease>)
    requires Matched(retries, before) && before.Keys == after.Keys
    ensures Matched(retries, after)
  {
    forall id | id in after
      ensures exists r :: r in retries && retries[r].leaseId == id
    {
      assert id in before;
    }
  }

  /** A use moves to a state no busier than before, and only leaves Active for a non-Active one. */
  lemma MovedLease(lease: Lease, use: Digest, u: UseState, generation: nat)
    requires LeaseOk(lease, generation) && use in lease.uses && UseStep(lease.uses[use], u) && !u.Active?
    ensures var after := lease.(uses := lease.uses[use := u]); LeaseOk(after, generation) && LeaseStep(lease, after)
  {
    InFlightMoved(lease.uses, use, u);
    UsesGrow(lease.uses, use, u);
  }

  lemma SetUseKeeps(s: State, leaseId: string, use: Digest, u: UseState)
    requires Good(s) && s.sequence < U64_MAX
    requires leaseId in s.leases && use in s.leases[leaseId].uses
    requires UseStep(s.leases[leaseId].uses[use], u) && !u.Active?
    ensures var t := SetUse(s, leaseId, use, u).(sequence := s.sequence + 1); Good(t) && Transition(s, t)
  {
    hide Matched, LeaseOk, LeaseStep;
    var lease := s.leases[leaseId];
    MovedLease(lease, use, u, s.generation);
    var after := lease.(uses := lease.uses[use := u]);
    OneLeaseKeeps(s, leaseId, after, SetUse(s, leaseId, use, u).(sequence := s.sequence + 1));
  }

  // ----- every operation -----

  lemma RestartedLeases(crypto: Crypto, s: State, t: State)
    requires Good(s) && t.generation == s.generation + 1
    requires t.leases == map id | id in s.leases :: RestartedLease(crypto, s.storeId, id, s.leases[id])
    ensures |t.leases| == |s.leases| && t.leases.Keys == s.leases.Keys && Matched(s.retries, t.leases)
    ensures forall id | id in s.leases :: LeaseStep(s.leases[id], t.leases[id]) && LeaseOk(t.leases[id], t.generation)
  {
    assert t.leases.Keys == s.leases.Keys;
    assert |t.leases| == |t.leases.Keys| && |s.leases| == |s.leases.Keys|;
    MatchedKeys(s.retries, s.leases, t.leases);
    forall id | id in s.leases
      ensures LeaseStep(s.leases[id], t.leases[id]) && LeaseOk(t.leases[id], t.generation)
    {
      RestartedLeaseKeeps(crypto, s.storeId, id, s.leases[id], s.generation);
    }
  }

  lemma RestartKeeps(crypto: Crypto, s: State)
    requires Good(s)
    ensures Kept(s, Restart(crypto, s))
  {
    var o := Restart(crypto, s);
    if o.Done? {
      RestartedLeases(crypto, s, o.next);
    }
  }

  lemma RestartedLeaseKeeps(crypto: Crypto, storeId: Digest, id: string, lease: Lease, generation: nat)
    requires LeaseOk(lease, generation)
    ensures LeaseStep(lease, RestartedLease(crypto, storeId, id, lease))
    ensures LeaseOk(RestartedLease(crypto, storeId, id, lease), generation + 1)
  {
    AbandonedUses(lease.uses, u => RecoveryDigest(crypto, storeId, id + ":" + u, "broker_restart"));
  }

  lemma NewLeaseOk(b: Binding, storeGeneration: nat)
    requires b.generation == storeGeneration > 0 && b.constraints.uses.capacity.Uses?
    ensures LeaseOk(Lease(NewTerms(b), b.generation, b.constraints.uses.capacity.maxUses, map[], false), storeGeneration)
  {
    var none: map<Digest, UseState> := map[];
    assert BusyUses(none) == {};
  }

  lemma ReserveKeeps(crypto: Crypto, s: State, nonce: Digest, retry: Digest, b: Binding)
    requires Good(s) && Reserve(crypto, s, nonce, retry, b).Done? && Reserve(crypto, s, nonce, retry, b).changed
    ensures var t := Reserve(crypto, s, nonce, retry, b).next; Good(t) && Transition(s, t)
  {
    var t := Reserve(crypto, s, nonce, retry, b).next;
    NewLeaseOk(b, s.generation);
    AddedLease(s, nonce, retry, t.retries[retry], b.leaseId, t.leases[b.leaseId], t);
  }

  lemma AddedGood(s: State, nonce: Digest, retry: Digest, entry: Retry, leaseId: string, lease: Lease)
    requires Good(s) && s.sequence < U64_MAX
    requires nonce !in s.nonces && retry !in s.retries && leaseId !in s.leases && entry.leaseId == leaseId
    requires LeaseOk(lease, s.generation) && lease.uses == map[] && !lease.revoked && lease.generation == s.generation
    ensures Good(s.(nonces := s.nonces + {nonce}, retries := s.retries[retry := entry],
                    leases := s.leases[leaseId := lease], sequence := s.sequence + 1))
  {
    hide LeaseOk;
    ReserveSizes(s, nonce, retry, entry, leaseId, lease);
    MatchedGrows(s.retries, s.leases, retry, entry, s.leases[leaseId := lease]);
  }

  lemma AddedLease(s: State, nonce: Digest, retry: Digest, entry: Retry, leaseId: string, lease: Lease, t: State)
    requires Good(s) && s.sequence < U64_MAX
    requires nonce !in s.nonces && retry !in s.retries && leaseId !in s.leases && entry.leaseId == leaseId
    requires LeaseOk(lease, s.generation) && lease.uses == map[] && !lease.revoked && lease.generation == s.generation
    requires t == s.(nonces := s.nonces + {nonce}, retries := s.retries[retry := entry],
                     leases := s.leases[leaseId := lease], sequence := s.sequence + 1)
    ensures Good(t) && Transition(s, t)
  {
    hide LeaseStep, LeaseOk, Matched, Good;
    AddedGood(s, nonce, retry, entry, leaseId, lease);
    assert Transition(s, t) by {
      forall id | id in s.leases
        ensures LeaseStep(s.leases[id], t.leases[id])
      {
        LeaseStepRefl(s.leases[id]);
      }
    }
  }

  lemma ReserveSizes(s: State, nonce: Digest, retry: Digest, entry: Retry, leaseId: string, lease: Lease)
    requires nonce !in s.nonces && retry !in s.retries && leaseId !in s.leases
    ensures |s.nonces + {nonce}| == |s.nonces| + 1
    ensures |s.retries[retry := entry]| == |s.retries| + 1
    ensures |s.leases[leaseId := lease]| == |s.leases| + 1
    ensures s.leases[leaseId := lease].Keys == s.leases.Keys + {leaseId}
  {
    var retries, leases := s.retries[retry := entry], s.leases[leaseId := lease];
    assert leases.Keys == s.leases.Keys + {leaseId} && retries.Keys == s.retries.Keys + {retry};
    assert |leases| == |leases.Keys| && |s.leases| == |s.leases.Keys|;
    assert |retries| == |retries.Keys| && |s.retries| == |s.retries.Keys|;
  }

  lemma MatchedGrows(retries: map<Digest, Retry>, leases: map<string, Lease>, retry: Digest, entry: Retry,
                     after: map<string, Lease>)
    requires Matched(retries, leases) && retry !in retries && entry.leaseId !in leases
    requires after.Keys == leases.Keys + {entry.leaseId}
    ensures Matched(retries[retry := entry], after)
  {
    var grown := retries[retry := entry];
    forall id | id in after
      ensures exists r :: r in grown && grown[r].leaseId == id
    {
      if id in leases {
        var r :| r in retries && retries[r].leaseId == id;
        assert grown[r].leaseId == id;
      } else {
        assert grown[retry].leaseId == id;
      }
    }
  }

  /** A fresh Active use, while capacity remains. */
  lemma BegunLease(lease: Lease, use: Digest, generation: nat)
    requires LeaseOk(lease, generation) && !lease.revoked && use !in lease.uses
    requires lease.remaining > 0 && InFlight(lease.uses) < MaxConcurrent(lease)
    ensures var next := lease.(remaining := lease.remaining - 1, uses := lease.uses[use := Active]);
      LeaseOk(next, generation) && LeaseStep(lease, next)
  {
    InFlightAdded(lease.uses, use, Active);
    UsesGrow(lease.uses, use, Active);
  }

  lemma BeginUseKeeps(s: State, leaseId: string, use: Digest, now: nat, seal: Seal)
    requires Good(s) && BeginUse(s, leaseId, use, now, seal).Done? && BeginUse(s, leaseId, use, now, seal).changed
    ensures var t := BeginUse(s, leaseId, use, now, seal).next; Good(t) && Transition(s, t)
  {
    hide Matched, LeaseStep, LeaseOk;
    var t := BeginUse(s, leaseId, use, now, seal).next;
    BegunLease(s.leases[leaseId], use, s.generation);
    OneLeaseKeeps(s, leaseId, t.leases[leaseId], t);
  }

  lemma RevokeKeeps(crypto: Crypto, s: State, leaseId: string)
    requires Good(s) && Revoke(crypto, s, leaseId).Done? && Revoke(crypto, s, leaseId).changed
    ensures var t := Revoke(crypto, s, leaseId).next; Good(t) && Transition(s, t)
  {
    var t := Revoke(crypto, s, leaseId).next;
    var lease := s.leases[leaseId];
    assert LeaseOk(lease, s.generation);
    var record := RecoveryDigest(crypto, s.storeId, leaseId, "revoked_before_completion");
    AbandonedUses(lease.uses, _ => record);
    OneLeaseKeeps(s, leaseId, t.leases[leaseId], t);
  }

  lemma CompletionKeeps(s: State, p: Permit, record: Digest, d: Disposition)
    requires Good(s) && BeginCompletion(s, p, record, d).Done? && BeginCompletion(s, p, record, d).changed
    ensures var t := BeginCompletion(s, p, record, d).next; Good(t) && Transition(s, t)
  {
    hide LeaseStep, LeaseOk, Matched, Good, Transition;
    SetUseKeeps(s, p.leaseId, p.use, Completing(record, d));
  }

  lemma CommitKeeps(s: State, w: Witness)
    requires Good(s) && CommitCompletion(s, w).Done? && CommitCompletion(s, w).changed
    ensures var t := CommitCompletion(s, w).next; Good(t) && Transition(s, t)
  {
    hide LeaseStep, LeaseOk, Matched, Good, Transition;
    SetUseKeeps(s, w.leaseId, w.use, Terminal(w.record, w.disposition));
  }

  ghost predicate Kept(s: State, o: Outcome) {
    o.Done? ==> if o.changed then Good(o.next) && Transition(s, o.next) else o.next == s
  }

  /** Every transaction either leaves the state as it was, or raises the sequence by one,
      keeps the invariant and moves every lease and use along its life. */
  lemma ApplyKeeps(crypto: Crypto, s: State, q: Command)
    requires Good(s)
    ensures Kept(s, Apply(crypto, s, q))
  {
    match q
    case DoRestart => RestartKeeps(crypto, s);
    case DoRead =>
    case DoReserve(nonce, retry, b) => ReserveOutcome(crypto, s, nonce, retry, b);
    case DoBeginUse(leaseId, use, now, seal) => BeginUseOutcome(s, leaseId, use, now, seal);
    case DoBeginCompletion(p, record, d) => CompletionOutcome(s, p, record, d);
    case DoResume(leaseId, use, record, d, seal) => ResumeOutcome(s, leaseId, use, record, d, seal);
    case DoCommit(w) => CommitOutcome(s, w);
    case DoRevoke(leaseId) => RevokeOutcome(crypto, s, leaseId);
  }

  lemma ReserveOutcome(crypto: Crypto, s: State, nonce: Digest, retry: Digest, b: Binding)
    requires Good(s)
    ensures Kept(s, Reserve(crypto, s, nonce, retry, b))
  {
    hide Good, Transition;
    var o := Reserve(crypto, s, nonce, retry, b);
    if o.Done? && o.changed { ReserveKeeps(crypto, s, nonce, retry, b); }
  }

  lemma BeginUseOutcome(s: State, leaseId: string, use: Digest, now: nat, seal: Seal)
    requires Good(s)
    ensures Kept(s, BeginUse(s, leaseId, use, now, seal))
  {
    hide Good, Transition;
    var o := BeginUse(s, leaseId, use, now, seal);
    if o.Done? && o.changed { BeginUseKeeps(s, leaseId, use, now, seal); }
  }

  lemma CompletionOutcome(s: State, p: Permit, record: Digest, d: Disposition)
    requires Good(s)
    ensures Kept(s, BeginCompletion(s, p, record, d))
  {
    hide Good, Transition;
    var o := BeginCompletion(s, p, record, d);
    if o.Done? && o.changed { CompletionKeeps(s, p, record, d); }
  }

  lemma ResumeOutcome(s: State, leaseId: string, use: Digest, record: Digest, d: Disposition, seal: Seal)
    ensures Kept(s, ResumeCompletion(s, leaseId, use, record, d, seal))
  {
    hide Good, Transition;
  }

  lemma CommitOutcome(s: State, w: Witness)
    requires Good(s)
    ensures Kept(s, CommitCompletion(s, w))
  {
    hide Good, Transition;
    var o := CommitCompletion(s, w);
    if o.Done? && o.changed { CommitKeeps(s, w); }
  }

  lemma RevokeOutcome(crypto: Crypto, s: State, leaseId: string)
    requires Good(s)
    ensures Kept(s, Revoke(crypto, s, leaseId))
  {
    hide Good, Transition;
    var o := Revoke(crypto, s, leaseId);
    if o.Done? && o.changed { RevokeKeeps(crypto, s, leaseId); }
  }

  // ----- any number of transactions -----

  predicate UseEvolves(before: UseState, after: UseState) {
    match before
    case Active => true
    case Completing(record, disposition) => after == before || after == Terminal(record, disposition)
    case _ => after == before
  }

  ghost predicate LeaseEvolves(before: Lease, after: Lease) {
    && after.terms == before.terms && after.generation == before.generation
    && (before.revoked ==> after.revoked)
    && (forall u | u in before.uses :: u in after.uses && UseEvolves(before.uses[u], after.uses[u]))
  }

  ghost predicate Extends(s: State, t: State) {
    && t.storeId == s.storeId && s.sequence <= t.sequence && s.generation <= t.generation
    && s.nonces <= t.nonces
    && (forall r | r in s.retries :: r in t.retries && t.retries[r] == s.retries[r])
    && (forall id | id in s.leases :: id in t.leases && LeaseEvolves(s.leases[id], t.leases[id]))
  }

  lemma ExtendsRefl(s: State)
    ensures Extends(s, s)
  {
  }

  lemma ExtendsTrans(s: State, t: State, v: State)
    requires Extends(s, t) && Extends(t, v)
    ensures Extends(s, v)
  {
    forall id | id in s.leases
      ensures id in v.leases && LeaseEvolves(s.leases[id], v.leases[id])
    {
      assert LeaseEvolves(s.leases[id], t.leases[id]);
      assert LeaseEvolves(t.leases[id], v.leases[id]);
    }
  }

  lemma TransitionExtends(s: State, t: State)
    requires Transition(s, t)
    ensures Extends(s, t)
  {
    forall id | id in s.leases
      ensures LeaseEvolves(s.leases[id], t.leases[id])
    {
      assert LeaseStep(s.leases[id], t.leases[id]);
    }
  }

  // ----- what the invariant gives -----

  /** A permit is minted only for a lease that is current at this generation and time, and only
      below its concurrency limit; conversely such a lease mints one for a fresh use. */
  lemma PermitsOnlyCurrent(s: State, leaseId: string, use: Digest, now: nat, seal: Seal)
    requires Good(s)
    ensures var o := BeginUse(s, leaseId, use, now, seal);
      (o.Done? && o.reply.NewUse?) <==>
      && leaseId in s.leases && use !in s.leases[leaseId].uses
      && StatusOf(s.leases[leaseId], s.generation, now).Current?
      && InFlight(s.leases[leaseId].uses) < MaxConcurrent(s.leases[leaseId])
      && s.sequence < U64_MAX
  {
    if leaseId in s.leases {
      assert LeaseOk(s.leases[leaseId], s.generation);
    }
  }

  /** The permit repeats the terms of the lease and this use is recorded with it. */
  lemma PermitTerms(s: State, leaseId: string, use: Digest, now: nat, seal: Seal)
    requires BeginUse(s, leaseId, use, now, seal).Done? && BeginUse(s, leaseId, use, now, seal).reply.NewUse?
    ensures var o := BeginUse(s, leaseId, use, now, seal);
      && o.changed && o.reply.permit == Permit(leaseId, s.generation, s.leases[leaseId].terms, use, seal)
      && o.next.leases[leaseId].uses == s.leases[leaseId].uses[use := Active]
      && o.next.leases[leaseId].remaining + 1 == s.leases[leaseId].remaining
  {
  }

  /** In a good state no lease claims a newer generation, and one of an older is revoked. */
  lemma GoodStatus(s: State, id: string, now: nat)
    requires Good(s) && id in s.leases
    ensures !StatusOf(s.leases[id], s.generation, now).Inconsistent?
    ensures StatusOf(s.leases[id], s.generation, now).RevokedByRestart? ==> s.leases[id].revoked
    ensures s.leases[id].revoked ==> NoneActive(s.leases[id].uses)
  {
    assert LeaseOk(s.leases[id], s.generation);
  }

  /** The status an operator is shown predicts how a fresh use would be answered. */
  lemma StatusPredicts(s: State, leaseId: string, use: Digest, now: nat, seal: Seal)
    requires Good(s) && leaseId in s.leases && use !in s.leases[leaseId].uses
    ensures var status := StatusOf(s.leases[leaseId], s.generation, now);
      var o := BeginUse(s, leaseId, use, now, seal);
      && (o == Failed(IsRevoked) <==> status.RevokedByRestart? || status.Revoked?)
      && (o == Failed(IsExpired) <==> status.NotYetValid? || status.Expired?)
      && (status.Exhausted? ==> o == Failed(CapacityExhausted))
      && (o.Done? ==> status.Current?)
  {
    assert LeaseOk(s.leases[leaseId], s.generation);
  }

  /** A pending completion survives a restart and a revocation byte for byte. */
  lemma CompletingSurvives(crypto: Crypto, s: State, q: Command, id: string, use: Digest)
    requires Good(s) && (q.DoRestart? || q.DoRevoke?) && Apply(crypto, s, q).Done?
    requires id in s.leases && use in s.leases[id].uses && s.leases[id].uses[use].Completing?
    ensures var t := Apply(crypto, s, q).next;
      id in t.leases && use in t.leases[id].uses && t.leases[id].uses[use] == s.leases[id].uses[use]
  {
    hide RecoveryDigest, Good;
  }

  /** Resuming a pending completion gives a token, and committing the token reaches the terminal
      state with the same record and disposition, exactly while the sequence is not exhausted. */
  lemma CompletingCanFinish(s: State, id: string, use: Digest, seal: Seal)
    requires id in s.leases && use in s.leases[id].uses && s.leases[id].uses[use].Completing?
    ensures var u := s.leases[id].uses[use];
      var resumed := ResumeCompletion(s, id, use, u.record, u.disposition, seal);
      && resumed.Done? && resumed.next == s && resumed.reply.CompletionResumed?
      && var committed := CommitCompletion(s, resumed.reply.token);
         && (committed.Done? <==> s.sequence < U64_MAX)
         && (committed.Done? ==> committed.next.leases[id].uses[use] == Terminal(u.record, u.disposition))
  {
  }

  /** An accepted reservation leaves its nonce recorded exactly when its retry key was new or the
      nonce was recorded before: a retry under a known key does not consume the nonce it came with. */
  lemma NonceConsumed(crypto: Crypto, s: State, nonce: Digest, retry: Digest, b: Binding)
    requires Reserve(crypto, s, nonce, retry, b).Done?
    ensures var o := Reserve(crypto, s, nonce, retry, b);
      && (nonce in o.next.nonces <==> retry !in s.retries || nonce in s.nonces)
      && (o.reply.NewLease? <==> retry !in s.retries)
      && (o.reply.NewLease? ==> nonce !in s.nonces && b.leaseId !in s.leases && b.leaseId in o.next.leases)
      && (o.reply.ExistingLease? ==> o.reply.leaseId == s.retries[retry].leaseId && o.next == s)
  {
  }

  /** So, from a new store's first epoch on and with bindings that `reserve` accepts, one nonce can be
      answered with two leases: first, under a known retry key, with the lease that key already had,
      then, under a new retry key, with another one. */
  lemma RetryLeavesNonceFresh(crypto: Crypto, storeId: Digest, b: Binding, other: Binding,
                              n: Digest, n': Digest, r: Digest, r': Digest)
    requires ValidateBinding(b).BoundTo? && ValidateBinding(other).BoundTo?
    requires b.generation == other.generation == 1 && other.leaseId != b.leaseId
    requires n != n' && r != r'
    ensures var start := Restart(crypto, State(storeId, 0, 0, {}, map[], map[]));
      start.Done? &&
      var first := Reserve(crypto, start.next, n, r, b);
      && first.Done? && first.reply == NewLease(b.leaseId)
      && Reserve(crypto, first.next, n', r, b) == Done(ExistingLease(b.leaseId), first.next, false)
      && var second := Reserve(crypto, first.next, n', r', other);
         second.Done? && second.reply == NewLease(other.leaseId)
  {
    hide ValidateAuthority, Validate;
    var start := Restart(crypto, State(storeId, 0, 0, {}, map[], map[])).next;
    assert start == State(storeId, 1, 1, {}, map[], map[]);
    var first := Reserve(crypto, start, n, r, b);
    assert first.next.leases.Keys == {b.leaseId} && first.next.retries.Keys == {r};
  }
}
