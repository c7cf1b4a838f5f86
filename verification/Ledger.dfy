/** The persisted replay ledger and the transaction body of every store operation.

    Each function here is the closure one store method runs on the state it has read: it
    returns a reply, the next state and whether the state must be written, or an error. */
module Ledger {
  import opened Text
  import opened Constraints
  import opened Grants
  import Json

  const U64_MAX: nat := 0xFFFF_FFFF_FFFF_FFFF

  predicate IsHex64(s: string) {
    |s| == 64 && forall i | 0 <= i < |s| :: IsLowerHex(s[i])
  }

  /** A SHA-256 digest, or a store identity, as 64 lower-case hex digits. */
  type Digest = s: string | IsHex64(s) witness seq(64, _ => '0')

  datatype Disposition = Finish | Abandon

  datatype UseState =
    | Active
    | Completing(record: Digest, disposition: Disposition)
    | Finished(record: Digest)
    | Abandoned(record: Digest)

  datatype Terms = Terms(
    grantId: string, actionId: string, operation: Operation, argsSha256: string, workspaceId: string,
    manifestSha256: string, policySha256: string, constraints: Constraints)

  datatype Lease = Lease(terms: Terms, generation: nat, remaining: nat, uses: map<Digest, UseState>, revoked: bool)

  datatype Retry = Retry(fingerprint: Digest, leaseId: string)

  datatype State = State(
    storeId: Digest, generation: nat, sequence: nat, nonces: set<Digest>, retries: map<Digest, Retry>,
    leases: map<string, Lease>)

  /** The cryptography a store uses: any functions at all. No result assumes them injective. */
  datatype Crypto = Crypto(hash: string -> Digest, fingerprint: Binding -> Digest)

  /** HMAC of the store identity under the store key, as a symbolic value. */
  datatype Seal = Seal(storeId: Digest, key: nat)

  datatype Permit = Permit(leaseId: string, generation: nat, terms: Terms, use: Digest, seal: Seal)

  datatype Witness = Witness(
    leaseId: string, generation: nat, use: Digest, record: Digest, disposition: Disposition, seal: Seal)

  datatype UseStatus = InProgress | InCompletion | IsFinished | IsAbandoned

  datatype Reply =
    | Generation(generation: nat)
    | NewLease(leaseId: string)
    | ExistingLease(leaseId: string)
    | NewUse(permit: Permit)
    | ExistingUse(status: UseStatus)
    | CompletionStarted(token: Witness)
    | CompletionResumed(token: Witness)
    | CompletionExists(status: UseStatus)
    | Committed
    | LeaseRevoked

  datatype Error =
    | Replay | IdempotencyCollision | LeaseIdCollision | StaleBrokerGeneration | UnknownLease | IsRevoked
    | IsExpired | CapacityExhausted | UnknownUse | ForeignPermit | ForeignCompletionWitness
    | CompletionNotStarted | CompletionConflict | OperationAlreadyTerminal | GenerationExhausted
    | SequenceExhausted | AlreadyActive | ActivationPoisoned | NotActive | InstanceAlreadyActive
    | AlreadyInitialized | MissingState | InvalidState | UnsupportedFormat | AuthenticationFailed
    | StateTooLarge | StoreIdentityMismatch | InvalidKey | InvalidReservationKey | InvalidOperationId
    | InvalidBinding(binding: BindingError) | Io

  datatype Outcome = Done(reply: Reply, next: State, changed: bool) | Failed(error: Error)

  // ----- small parts -----

  function Status(u: UseState): UseStatus {
    match u
    case Active => InProgress
    case Completing(_, _) => InCompletion
    case Finished(_) => IsFinished
    case Abandoned(_) => IsAbandoned
  }

  function Terminal(record: Digest, disposition: Disposition): UseState {
    if disposition.Finish? then Finished(record) else Abandoned(record)
  }

  function RecoveryText(storeId: string, subject: string, reason: string): Json.Json {
    Json.Obj(map["version" := Json.Num(1), "store_id" := Json.Str(storeId),
                 "subject" := Json.Str(subject), "reason" := Json.Str(reason)])
  }

  function RecoveryDigest(crypto: Crypto, storeId: string, subject: string, reason: string): Digest {
    assert Json.FloatFree(RecoveryText(storeId, subject, reason));
    crypto.hash(Json.Encode(RecoveryText(storeId, subject, reason)))
  }

  /** The bumped sequence number with which a changed state is written. */
  function Bump(reply: Reply, next: State): Outcome {
    if next.sequence >= U64_MAX then Failed(SequenceExhausted)
    else Done(reply, next.(sequence := next.sequence + 1), true)
  }

  function Keep(reply: Reply, s: State): Outcome {
    Done(reply, s, false)
  }

  // ----- operations -----

  /** Every Active use of a lease becomes Abandoned with the digest `record` gives it. */
  function AbandonActive(uses: map<Digest, UseState>, record: Digest -> Digest): map<Digest, UseState> {
    map u | u in uses :: if uses[u].Active? then Abandoned(record(u)) else uses[u]
  }

  function RestartedLease(crypto: Crypto, storeId: Digest, leaseId: string, lease: Lease): Lease {
    lease.(revoked := true,
           uses := AbandonActive(lease.uses, u => RecoveryDigest(crypto, storeId, leaseId + ":" + u, "broker_restart")))
  }

  function Restart(crypto: Crypto, s: State): Outcome {
    if s.generation >= U64_MAX then Failed(GenerationExhausted)
    else
      var next := s.(generation := s.generation + 1,
                     leases := map id | id in s.leases :: RestartedLease(crypto, s.storeId, id, s.leases[id]));
      Bump(Generation(next.generation), next)
  }

  function NewTerms(b: Binding): Terms {
    Terms(b.grantId, b.actionId, b.operation, b.argsSha256, b.authority.workspaceId,
          b.authority.manifestSha256, b.authority.policySha256, b.constraints)
  }

  function Reserve(crypto: Crypto, s: State, nonce: Digest, retry: Digest, b: Binding): Outcome {
    var fingerprint := crypto.fingerprint(b);
    if s.generation == 0 || b.generation != s.generation then Failed(StaleBrokerGeneration)
    else if retry in s.retries then
      if s.retries[retry].fingerprint == fingerprint then Keep(ExistingLease(s.retries[retry].leaseId), s)
      else Failed(IdempotencyCollision)
    else if nonce in s.nonces then Failed(Replay)
    else if b.leaseId in s.leases then Failed(LeaseIdCollision)
    else
      match b.constraints.uses.capacity
      case NoCapacity => Failed(InvalidBinding(NoUsableCapacity))
      case Uses(maxUses, _) =>
        Bump(NewLease(b.leaseId),
             s.(nonces := s.nonces + {nonce},
                retries := s.retries[retry := Retry(fingerprint, b.leaseId)],
                leases := s.leases[b.leaseId := Lease(NewTerms(b), b.generation, maxUses, map[], false)]))
  }

  predicate Busy(u: UseState) {
    u.Active? || u.Completing?
  }

  function BusyUses(uses: map<Digest, UseState>): set<Digest> {
    set u | u in uses && Busy(uses[u])
  }

  function InFlight(uses: map<Digest, UseState>): nat {
    |BusyUses(uses)|
  }

  function MaxUses(lease: Lease): nat {
    match lease.terms.constraints.uses.capacity case NoCapacity => 0 case Uses(n, _) => n
  }

  function MaxConcurrent(lease: Lease): nat {
    match lease.terms.constraints.uses.capacity case NoCapacity => 0 case Uses(_, n) => n
  }

  function BeginUse(s: State, leaseId: string, use: Digest, now: nat, seal: Seal): Outcome {
    if leaseId !in s.leases then Failed(UnknownLease)
    else
      var lease := s.leases[leaseId];
      if lease.revoked || lease.generation != s.generation then Failed(IsRevoked)
      else if now < lease.terms.constraints.time.notBefore || now >= lease.terms.constraints.time.expiresAt
        then Failed(IsExpired)
      else if use in lease.uses then Keep(ExistingUse(Status(lease.uses[use])), s)
      else if lease.terms.constraints.uses.capacity.NoCapacity? then Failed(CapacityExhausted)
      else if lease.remaining == 0 || InFlight(lease.uses) >= MaxConcurrent(lease) then Failed(CapacityExhausted)
      else
        var next := lease.(remaining := lease.remaining - 1, uses := lease.uses[use := Active]);
        Bump(NewUse(Permit(leaseId, s.generation, lease.terms, use, seal)),
             s.(leases := s.leases[leaseId := next]))
  }

  /** `s` with one use of one lease set to `u`. */
  function SetUse(s: State, leaseId: string, use: Digest, u: UseState): State
    requires leaseId in s.leases
  {
    var lease := s.leases[leaseId];
    s.(leases := s.leases[leaseId := lease.(uses := lease.uses[use := u])])
  }

  /** What a retry finds for exactly this record and disposition. */
  function Settled(u: UseState, record: Digest, disposition: Disposition): bool {
    u == Terminal(record, disposition)
  }

  function BeginCompletion(s: State, permit: Permit, record: Digest, disposition: Disposition): Outcome {
    if permit.generation != s.generation then Failed(IsRevoked)
    else if permit.leaseId !in s.leases then Failed(UnknownLease)
    else
      var lease := s.leases[permit.leaseId];
      if lease.revoked || lease.generation != permit.generation then Failed(IsRevoked)
      else if permit.use !in lease.uses then Failed(UnknownUse)
      else
        var u := lease.uses[permit.use];
        var token :=
          Witness(permit.leaseId, permit.generation, permit.use, record, disposition, permit.seal);
        if u.Active? then
          Bump(CompletionStarted(token), SetUse(s, permit.leaseId, permit.use, Completing(record, disposition)))
        else if u == Completing(record, disposition) then Keep(CompletionResumed(token), s)
        else if Settled(u, record, disposition) then Keep(CompletionExists(Status(u)), s)
        else Failed(CompletionConflict)
  }

  function ResumeCompletion(s: State, leaseId: string, use: Digest, record: Digest, disposition: Disposition,
                            seal: Seal): Outcome {
    if leaseId !in s.leases then Failed(UnknownLease)
    else
      var lease := s.leases[leaseId];
      if use !in lease.uses then Failed(UnknownUse)
      else
        var u := lease.uses[use];
        if u == Completing(record, disposition) then
          Keep(CompletionResumed(Witness(leaseId, lease.generation, use, record, disposition, seal)), s)
        else if Settled(u, record, disposition) then Keep(CompletionExists(Status(u)), s)
        else if u.Active? then Failed(CompletionNotStarted)
        else Failed(CompletionConflict)
  }

  function CommitCompletion(s: State, w: Witness): Outcome {
    if w.leaseId !in s.leases then Failed(UnknownLease)
    else
      var lease := s.leases[w.leaseId];
      if w.generation != lease.generation then Failed(ForeignCompletionWitness)
      else if w.use !in lease.uses then Failed(UnknownUse)
      else
        var u := lease.uses[w.use];
        if u == Completing(w.record, w.disposition) then
          Bump(Committed, SetUse(s, w.leaseId, w.use, Terminal(w.record, w.disposition)))
        else if Settled(u, w.record, w.disposition) then Keep(Committed, s)
        else if u.Active? then Failed(CompletionNotStarted)
        else Failed(CompletionConflict)
  }

  function Revoke(crypto: Crypto, s: State, leaseId: string): Outcome {
    if leaseId !in s.leases then Failed(UnknownLease)
    else
      var lease := s.leases[leaseId];
      if lease.revoked then Keep(LeaseRevoked, s)
      else
        var record := RecoveryDigest(crypto, s.storeId, leaseId, "revoked_before_completion");
        Bump(LeaseRevoked,
             s.(leases := s.leases[leaseId := lease.(revoked := true, uses := AbandonActive(lease.uses, _ => record))]))
  }

  /** The command a store method hands to its transaction. */
  datatype Command =
    | DoRestart
    | DoRead
    | DoReserve(nonce: Digest, retry: Digest, binding: Binding)
    | DoBeginUse(leaseId: string, use: Digest, now: nat, seal: Seal)
    | DoBeginCompletion(permit: Permit, record: Digest, disposition: Disposition)
    | DoResume(leaseId: string, use: Digest, record: Digest, disposition: Disposition, seal: Seal)
    | DoCommit(token: Witness)
    | DoRevoke(leaseId: string)

  function Apply(crypto: Crypto, s: State, q: Command): Outcome {
    match q
    case DoRestart => Restart(crypto, s)
    case DoRead => Keep(Generation(s.generation), s)
    case DoReserve(nonce, retry, b) => Reserve(crypto, s, nonce, retry, b)
    case DoBeginUse(leaseId, use, now, seal) => BeginUse(s, leaseId, use, now, seal)
    case DoBeginCompletion(permit, record, disposition) => BeginCompletion(s, permit, record, disposition)
    case DoResume(leaseId, use, record, disposition, seal) =>
      ResumeCompletion(s, leaseId, use, record, disposition, seal)
    case DoCommit(w) => CommitCompletion(s, w)
    case DoRevoke(leaseId) => Revoke(crypto, s, leaseId)
  }

  // ----- lease summaries -----

  datatype LeaseStatus = RevokedByRestart | Revoked | NotYetValid | Expired | Exhausted | Current | Inconsistent

  function StatusOf(lease: Lease, storeGeneration: nat, now: nat): LeaseStatus {
    if lease.generation > storeGeneration then Inconsistent
    else if lease.generation < storeGeneration then RevokedByRestart
    else if lease.revoked then Revoked
    else if now < lease.terms.constraints.time.notBefore then NotYetValid
    else if now >= lease.terms.constraints.time.expiresAt then Expired
    else if lease.remaining == 0 then Exhausted
    else Current
  }
}
