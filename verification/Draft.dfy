/** The state a transaction has read, changed in place by the body of one operation.

    A body that fails leaves a half-changed draft behind, which is dropped and never written;
    what it answers and, when it succeeds, what it leaves are those of `Ledger`. */
module Draft {
  import opened Grants
  import opened Ledger

  datatype Step = Ready(reply: Reply, changed: bool) | Refused(error: Error)

  /** The step a body took and the draft it left are the outcome `o`. */
  predicate Agrees(step: Step, left: State, o: Outcome) {
    match o
    case Failed(error) => step == Refused(error)
    case Done(reply, next, changed) => step == Ready(reply, changed) && left == next
  }

  method AbandonUses(uses: map<Digest, UseState>, record: Digest -> Digest) returns (after: map<Digest, UseState>)
    ensures after == AbandonActive(uses, record)
  {
    after := uses;
    var todo := uses.Keys;
    while todo != {}
      invariant todo <= uses.Keys == after.Keys
      invariant forall u | u in todo :: after[u] == uses[u]
      invariant forall u | u in uses && u !in todo :: after[u] == AbandonActive(uses, record)[u]
      decreases |todo|
    {
      var u :| u in todo;
      if after[u].Active? {
        after := after[u := Abandoned(record(u))];
      }
      todo := todo - {u};
    }
    assert after == AbandonActive(uses, record);
  }

  method CountBusy(uses: map<Digest, UseState>) returns (n: nat)
    ensures n == InFlight(uses)
  {
    n := 0;
    var todo := uses.Keys;
    ghost var counted: set<Digest> := {};
    while todo != {}
      invariant todo <= uses.Keys
      invariant counted == set u | u in uses.Keys - todo && Busy(uses[u])
      invariant n == |counted|
      decreases |todo|
    {
      var u :| u in todo;
      if Busy(uses[u]) {
        n := n + 1;
        counted := counted + {u};
      }
      todo := todo - {u};
    }
    assert counted == BusyUses(uses);
  }

  class PersistedState {
    const storeId: Digest
    var generation: nat
    var sequence: nat
    var nonces: set<Digest>
    var retries: map<Digest, Retry>
    var leases: map<string, Lease>

    function Value(): State
      reads this
    {
      State(storeId, generation, sequence, nonces, retries, leases)
    }

    constructor (s: State)
      ensures Value() == s
    {
      storeId := s.storeId;
      generation := s.generation;
      sequence := s.sequence;
      nonces := s.nonces;
      retries := s.retries;
      leases := s.leases;
    }

    /** Counts the change that is about to be written; the number never wraps. */
    method Advance(reply: Reply) returns (step: Step)
      modifies this`sequence
      ensures Agrees(step, Value(), Bump(reply, old(Value())))
    {
      if sequence >= U64_MAX {
        return Refused(SequenceExhausted);
      }
      sequence := sequence + 1;
      step := Ready(reply, true);
    }

    /** The loop of a restart: every lease is revoked and its Active uses abandoned. */
    method RevokeAll(crypto: Crypto)
      modifies this`leases
      ensures leases == map id | id in old(leases) :: RestartedLease(crypto, storeId, id, old(leases)[id])
    {
      hide RecoveryDigest;
      ghost var before := leases;
      var todo := leases.Keys;
      while todo != {}
        modifies this`leases
        invariant todo <= leases.Keys == before.Keys
        invariant forall id | id in todo :: leases[id] == before[id]
        invariant forall id | id in before && id !in todo ::
          leases[id] == RestartedLease(crypto, storeId, id, before[id])
        decreases |todo|
      {
        var id :| id in todo;
        var lease := leases[id].(revoked := true);
        var uses := AbandonUses(lease.uses, u => RecoveryDigest(crypto, storeId, id + ":" + u, "broker_restart"));
        leases := leases[id := lease.(uses := uses)];
        todo := todo - {id};
      }
    }

    method RestartBody(crypto: Crypto) returns (step: Step)
      modifies this
      ensures Agrees(step, Value(), Restart(crypto, old(Value())))
    {
      hide RestartedLease;
      if generation >= U64_MAX {
        return Refused(GenerationExhausted);
      }
      generation := generation + 1;
      RevokeAll(crypto);
      step := Advance(Generation(generation));
    }

    method ReserveBody(crypto: Crypto, nonce: Digest, retry: Digest, b: Binding) returns (step: Step)
      modifies this
      ensures Agrees(step, Value(), Reserve(crypto, old(Value()), nonce, retry, b))
    {
      var fingerprint := crypto.fingerprint(b);
      if generation == 0 || b.generation != generation {
        return Refused(StaleBrokerGeneration);
      }
      if retry in retries {
        if retries[retry].fingerprint == fingerprint {
          return Ready(ExistingLease(retries[retry].leaseId), false);
        }
        return Refused(IdempotencyCollision);
      }
      if nonce in nonces {
        return Refused(Replay);
      }
      if b.leaseId in leases {
        return Refused(LeaseIdCollision);
      }
      if b.constraints.uses.capacity.NoCapacity? {
        return Refused(InvalidBinding(NoUsableCapacity));
      }
      nonces := nonces + {nonce};
      retries := retries[retry := Retry(fingerprint, b.leaseId)];
      leases := leases[b.leaseId :=
        Lease(NewTerms(b), b.generation, b.constraints.uses.capacity.maxUses, map[], false)];
      step := Advance(NewLease(b.leaseId));
    }

    method BeginUseBody(leaseId: string, use: Digest, now: nat, seal: Seal) returns (step: Step)
      modifies this
      ensures Agrees(step, Value(), BeginUse(old(Value()), leaseId, use, now, seal))
    {
      if leaseId !in leases {
        return Refused(UnknownLease);
      }
      var lease := leases[leaseId];
      if lease.revoked || lease.generation != generation {
        return Refused(IsRevoked);
      }
      if now < lease.terms.constraints.time.notBefore || now >= lease.terms.constraints.time.expiresAt {
        return Refused(IsExpired);
      }
      if use in lease.uses {
        return Ready(ExistingUse(Status(lease.uses[use])), false);
      }
      if lease.terms.constraints.uses.capacity.NoCapacity? {
        return Refused(CapacityExhausted);
      }
      var active := CountBusy(lease.uses);
      if lease.remaining == 0 || active >= lease.terms.constraints.uses.capacity.maxConcurrent {
        return Refused(CapacityExhausted);
      }
      lease := lease.(remaining := lease.remaining - 1);
      lease := lease.(uses := lease.uses[use := Active]);
      leases := leases[leaseId := lease];
      step := Advance(NewUse(Permit(leaseId, generation, lease.terms, use, seal)));
    }

    method BeginCompletionBody(permit: Permit, record: Digest, disposition: Disposition) returns (step: Step)
      modifies this
      ensures Agrees(step, Value(), BeginCompletion(old(Value()), permit, record, disposition))
    {
      if permit.generation != generation {
        return Refused(IsRevoked);
      }
      if permit.leaseId !in leases {
        return Refused(UnknownLease);
      }
      var lease := leases[permit.leaseId];
      if lease.revoked || lease.generation != permit.generation {
        return Refused(IsRevoked);
      }
      if permit.use !in lease.uses {
        return Refused(UnknownUse);
      }
      var token := Witness(permit.leaseId, permit.generation, permit.use, record, disposition, permit.seal);
      match lease.uses[permit.use] {
        case Active =>
          WriteUse(permit.leaseId, permit.use, Completing(record, disposition));
          step := Advance(CompletionStarted(token));
        case Completing(existing, chosen) =>
          step := if existing == record && chosen == disposition then Ready(CompletionResumed(token), false)
                  else Refused(CompletionConflict);
        case Finished(existing) =>
          step := if existing == record && disposition.Finish? then Ready(CompletionExists(IsFinished), false)
                  else Refused(CompletionConflict);
        case Abandoned(existing) =>
          step := if existing == record && disposition.Abandon? then Ready(CompletionExists(IsAbandoned), false)
                  else Refused(CompletionConflict);
      }
    }

    method ResumeBody(leaseId: string, use: Digest, record: Digest, disposition: Disposition, seal: Seal)
      returns (step: Step)
      ensures Agrees(step, Value(), ResumeCompletion(Value(), leaseId, use, record, disposition, seal))
    {
      if leaseId !in leases {
        return Refused(UnknownLease);
      }
      var lease := leases[leaseId];
      if use !in lease.uses {
        return Refused(UnknownUse);
      }
      match lease.uses[use] {
        case Active => step := Refused(CompletionNotStarted);
        case Completing(existing, chosen) =>
          step := if existing == record && chosen == disposition
                  then Ready(CompletionResumed(Witness(leaseId, lease.generation, use, record, disposition, seal)), false)
                  else Refused(CompletionConflict);
        case Finished(existing) =>
          step := if existing == record && disposition.Finish? then Ready(CompletionExists(IsFinished), false)
                  else Refused(CompletionConflict);
        case Abandoned(existing) =>
          step := if existing == record && disposition.Abandon? then Ready(CompletionExists(IsAbandoned), false)
                  else Refused(CompletionConflict);
      }
    }

    method CommitBody(w: Witness) returns (step: Step)
      modifies this
      ensures Agrees(step, Value(), CommitCompletion(old(Value()), w))
    {
      if w.leaseId !in leases {
        return Refused(UnknownLease);
      }
      var lease := leases[w.leaseId];
      if w.generation != lease.generation {
        return Refused(ForeignCompletionWitness);
      }
      if w.use !in lease.uses {
        return Refused(UnknownUse);
      }
      match lease.uses[w.use] {
        case Active => step := Refused(CompletionNotStarted);
        case Completing(existing, chosen) =>
          if existing == w.record && chosen == w.disposition {
            WriteUse(w.leaseId, w.use,
                     match w.disposition case Finish => Finished(w.record) case Abandon => Abandoned(w.record));
            step := Advance(Committed);
          } else {
            step := Refused(CompletionConflict);
          }
        case Finished(existing) =>
          step := if existing == w.record && w.disposition.Finish? then Ready(Committed, false)
                  else Refused(CompletionConflict);
        case Abandoned(existing) =>
          step := if existing == w.record && w.disposition.Abandon? then Ready(Committed, false)
                  else Refused(CompletionConflict);
      }
    }

    method RevokeBody(crypto: Crypto, leaseId: string) returns (step: Step)
      modifies this
      ensures Agrees(step, Value(), Revoke(crypto, old(Value()), leaseId))
    {
      if leaseId !in leases {
        return Refused(UnknownLease);
      }
      var lease := leases[leaseId];
      if lease.revoked {
        return Ready(LeaseRevoked, false);
      }
      var record := RecoveryDigest(crypto, storeId, leaseId, "revoked_before_completion");
      var uses := AbandonUses(lease.uses, _ => record);
      leases := leases[leaseId := lease.(revoked := true, uses := uses)];
      step := Advance(LeaseRevoked);
    }

    method WriteUse(leaseId: string, use: Digest, u: UseState)
      requires leaseId in leases
      modifies this`leases
      ensures Value() == SetUse(old(Value()), leaseId, use, u)
    {
      var lease := leases[leaseId];
      leases := leases[leaseId := lease.(uses := lease.uses[use := u])];
    }

    /** Runs the body of one command. */
    method Run(crypto: Crypto, q: Command) returns (step: Step)
      modifies this
      ensures Agrees(step, Value(), Apply(crypto, old(Value()), q))
    {
      match q {
        case DoRestart => step := RestartBody(crypto);
        case DoRead => step := Ready(Generation(generation), false);
        case DoReserve(nonce, retry, b) => step := ReserveBody(crypto, nonce, retry, b);
        case DoBeginUse(leaseId, use, now, seal) => step := BeginUseBody(leaseId, use, now, seal);
        case DoBeginCompletion(permit, record, d) => step := BeginCompletionBody(permit, record, d);
        case DoResume(leaseId, use, record, d, seal) => step := ResumeBody(leaseId, use, record, d, seal);
        case DoCommit(w) => step := CommitBody(w);
        case DoRevoke(leaseId) => step := RevokeBody(crypto, leaseId);
      }
    }
  }
}
