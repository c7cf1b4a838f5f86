/** Exactly when each store operation gives each of its answers, and all it changes.

    Every condition is on the state before the call and on what the caller passed. */
module LedgerAnswers {
  import opened Constraints
  import opened Grants
  import opened CanonicalText
  import opened Json
  import opened JsonSize
  import opened Ledger
  import opened Order

  // ----- restart -----

  /** A use that a restart or a revocation finds Active is abandoned with this digest; any other stays. */
  predicate AbandonedWith(before: UseState, after: UseState, record: Digest) {
    if before == Active then after == Abandoned(record) else after == before
  }

  predicate RevokedLease(before: Lease, after: Lease) {
    && after.terms == before.terms && after.generation == before.generation && after.remaining == before.remaining
    && after.revoked && after.uses.Keys == before.uses.Keys
  }

  lemma RestartAnswers(crypto: Crypto, s: State)
    ensures var o := Restart(crypto, s);
      && (o == Failed(GenerationExhausted) <==> s.generation >= 0xFFFF_FFFF_FFFF_FFFF)
      && (o == Failed(SequenceExhausted) <==> s.generation < 0xFFFF_FFFF_FFFF_FFFF <= s.sequence)
      && (o.Done? <==> s.generation < 0xFFFF_FFFF_FFFF_FFFF && s.sequence < 0xFFFF_FFFF_FFFF_FFFF)
      && (o.Done? ==> o.changed && o.reply == Generation(s.generation + 1) && RestartLeaves(crypto, s, o.next))
  {
  }

  predicate RestartLeaves(crypto: Crypto, s: State, t: State) {
    && t.storeId == s.storeId && t.generation == s.generation + 1 && t.sequence == s.sequence + 1
    && t.nonces == s.nonces && t.retries == s.retries && t.leases.Keys == s.leases.Keys
    && forall id | id in s.leases ::
         && RevokedLease(s.leases[id], t.leases[id])
         && forall u | u in s.leases[id].uses ::
              AbandonedWith(s.leases[id].uses[u], t.leases[id].uses[u],
                            RecoveryDigest(crypto, s.storeId, id + ":" + u, "broker_restart"))
  }

  // ----- revocation -----

  lemma RevokeAnswers(crypto: Crypto, s: State, leaseId: string)
    ensures var o := Revoke(crypto, s, leaseId);
      var known := leaseId in s.leases;
      && (o == Failed(UnknownLease) <==> !known)
      && (o == Done(LeaseRevoked, s, false) <==> known && s.leases[leaseId].revoked)
      && (o == Failed(SequenceExhausted) <==>
          known && !s.leases[leaseId].revoked && s.sequence >= 0xFFFF_FFFF_FFFF_FFFF)
      && (o.Done? && o.changed <==>
          known && !s.leases[leaseId].revoked && s.sequence < 0xFFFF_FFFF_FFFF_FFFF)
      && (o.Done? && o.changed ==> o.reply == LeaseRevoked && RevokeLeaves(crypto, s, leaseId, o.next))
  {
  }

  predicate RevokeLeaves(crypto: Crypto, s: State, leaseId: string, t: State)
    requires leaseId in s.leases
  {
    && leaseId in t.leases && t == s.(sequence := s.sequence + 1, leases := s.leases[leaseId := t.leases[leaseId]])
    && RevokedLease(s.leases[leaseId], t.leases[leaseId])
    && forall u | u in s.leases[leaseId].uses ::
         AbandonedWith(s.leases[leaseId].uses[u], t.leases[leaseId].uses[u],
                       RecoveryDigest(crypto, s.storeId, leaseId, "revoked_before_completion"))
  }

  lemma RecoveryKeys(fields: map<string, Json>)
    requires fields.Keys == {"version", "store_id", "subject", "reason"}
    ensures Ascends(["reason", "store_id", "subject", "version"], fields)
  {
    var keys := ["reason", "store_id", "subject", "version"];
    assert DiffersAt("reason", "store_id", 0) && DiffersAt("store_id", "subject", 1)
        && DiffersAt("subject", "version", 0);
    assert forall i | 0 <= i < 3 :: ByteLess(keys[i], keys[i + 1]);
    assert Elements(keys) == fields.Keys;
  }

  lemma JoinFour(a: string, b: string, c: string, d: string)
    ensures Joined([a, b, c, d]) == a + "," + b + "," + c + "," + d
  {
    assert [a, b, c, d][1..] == [b, c, d] && [b, c, d][1..] == [c, d] && [c, d][1..] == [d];
    assert Joined([c, d]) == c + "," + d;
    assert Joined([b, c, d]) == b + "," + Joined([c, d]);
    assert Joined([a, b, c, d]) == a + "," + Joined([b, c, d]);
  }

  lemma PlainKey(key: string, text: string)
    requires Plain(key) && text == "\"" + key + "\":"
    ensures Quote(key) + ":" == text
  {
    PlainEscape(key);
  }

  lemma StringText(s: string)
    ensures Encode(Str(s)) == Quote(s) && Encode(Num(1)) == "1"
  {
  }

  lemma RecoveryMembers(storeId: string, subject: string, reason: string)
    ensures var v, keys := RecoveryText(storeId, subject, reason), ["reason", "store_id", "subject", "version"];
      && FloatFree(v)
      && MemberTexts(keys, v.fields) == ["\"reason\":" + Quote(reason), "\"store_id\":" + Quote(storeId),
                                         "\"subject\":" + Quote(subject), "\"version\":" + "1"]
  {
    hide Quote, Encode;
    var v := RecoveryText(storeId, subject, reason);
    assert FloatFree(v);
    PlainKey("reason", "\"reason\":");
    PlainKey("store_id", "\"store_id\":");
    PlainKey("subject", "\"subject\":");
    PlainKey("version", "\"version\":");
    StringText(reason);
    StringText(storeId);
    StringText(subject);
  }

  lemma RecoveryEncodes(storeId: string, subject: string, reason: string)
    ensures FloatFree(RecoveryText(storeId, subject, reason))
    ensures Encode(RecoveryText(storeId, subject, reason)) ==
            "{" + ("\"reason\":" + Quote(reason) + "," + ("\"store_id\":" + Quote(storeId)) + ","
                   + ("\"subject\":" + Quote(subject)) + "," + ("\"version\":" + "1")) + "}"
  {
    hide Quote, Ascends, Joined, Encode, MemberTexts;
    var v := RecoveryText(storeId, subject, reason);
    assert FloatFree(v);
    RecoveryKeys(v.fields);
    ObjectText(v.fields, ["reason", "store_id", "subject", "version"]);
    RecoveryMembers(storeId, subject, reason);
    JoinFour("\"reason\":" + Quote(reason), "\"store_id\":" + Quote(storeId),
             "\"subject\":" + Quote(subject), "\"version\":" + "1");
  }

  /** The digest of a recovery record is the hash of this text. */
  lemma RecoveryDigestIs(crypto: Crypto, storeId: string, subject: string, reason: string)
    ensures RecoveryDigest(crypto, storeId, subject, reason) ==
            crypto.hash("{" + ("\"reason\":" + Quote(reason) + "," + ("\"store_id\":" + Quote(storeId)) + ","
                               + ("\"subject\":" + Quote(subject)) + "," + ("\"version\":" + "1")) + "}")
  {
    hide Encode, Quote;
    RecoveryEncodes(storeId, subject, reason);
  }

  // ----- reservation -----

  /** The terms of a lease are, field by field, those of the binding it was reserved with. */
  predicate TermsOf(t: Terms, b: Binding) {
    && t.grantId == b.grantId && t.actionId == b.actionId && t.operation == b.operation
    && t.argsSha256 == b.argsSha256 && t.workspaceId == b.authority.workspaceId
    && t.manifestSha256 == b.authority.manifestSha256 && t.policySha256 == b.authority.policySha256
    && t.constraints == b.constraints
  }

  predicate FreshGeneration(s: State, b: Binding) {
    s.generation != 0 && b.generation == s.generation
  }

  /** Nothing recorded stands in the way of a new lease. */
  predicate Unseen(s: State, nonce: Digest, retry: Digest, b: Binding) {
    FreshGeneration(s, b) && retry !in s.retries && nonce !in s.nonces && b.leaseId !in s.leases
  }

  lemma ReserveAnswers(crypto: Crypto, s: State, nonce: Digest, retry: Digest, b: Binding)
    ensures var o := Reserve(crypto, s, nonce, retry, b);
      var retried := FreshGeneration(s, b) && retry in s.retries;
      && (o == Failed(StaleBrokerGeneration) <==> !FreshGeneration(s, b))
      && (o.Done? && !o.changed <==> retried && s.retries[retry].fingerprint == crypto.fingerprint(b))
      && (o == Failed(IdempotencyCollision) <==> retried && s.retries[retry].fingerprint != crypto.fingerprint(b))
      && (o == Failed(Replay) <==> FreshGeneration(s, b) && retry !in s.retries && nonce in s.nonces)
      && (o == Failed(LeaseIdCollision) <==>
          FreshGeneration(s, b) && retry !in s.retries && nonce !in s.nonces && b.leaseId in s.leases)
      && (o == Failed(InvalidBinding(NoUsableCapacity)) <==>
          Unseen(s, nonce, retry, b) && b.constraints.uses.capacity.NoCapacity?)
      && (o == Failed(SequenceExhausted) <==>
          Unseen(s, nonce, retry, b) && b.constraints.uses.capacity.Uses? && s.sequence >= 0xFFFF_FFFF_FFFF_FFFF)
      && (o.Done? && o.changed <==>
          Unseen(s, nonce, retry, b) && b.constraints.uses.capacity.Uses? && s.sequence < 0xFFFF_FFFF_FFFF_FFFF)
  {
  }

  lemma ReserveLeaves(crypto: Crypto, s: State, nonce: Digest, retry: Digest, b: Binding)
    requires Reserve(crypto, s, nonce, retry, b).Done?
    ensures var o := Reserve(crypto, s, nonce, retry, b);
      && (!o.changed ==> o.next == s && retry in s.retries && o.reply == ExistingLease(s.retries[retry].leaseId))
      && (o.changed ==>
          && o.reply == NewLease(b.leaseId) && b.leaseId in o.next.leases
          && var lease := o.next.leases[b.leaseId];
             && TermsOf(lease.terms, b) && lease.generation == s.generation && !lease.revoked
             && lease.uses == map[] && b.constraints.uses.capacity == Uses(lease.remaining, MaxConcurrent(lease))
             && o.next == s.(sequence := s.sequence + 1, nonces := s.nonces + {nonce},
                             retries := s.retries[retry := Retry(crypto.fingerprint(b), b.leaseId)],
                             leases := s.leases[b.leaseId := lease]))
  {
  }

  // ----- the start of a use -----

  predicate OpenLease(s: State, leaseId: string) {
    leaseId in s.leases && !s.leases[leaseId].revoked && s.leases[leaseId].generation == s.generation
  }

  predicate InWindow(s: State, leaseId: string, now: nat)
    requires leaseId in s.leases
  {
    var window := s.leases[leaseId].terms.constraints.time;
    window.notBefore <= now && now < window.expiresAt
  }

  /** The uses that count against the concurrency limit: those that have not ended. */
  function Running(lease: Lease): set<Digest> {
    set u | u in lease.uses && !lease.uses[u].Finished? && !lease.uses[u].Abandoned?
  }

  predicate HasRoom(lease: Lease) {
    match lease.terms.constraints.uses.capacity
    case NoCapacity => false
    case Uses(_, most) => lease.remaining > 0 && |Running(lease)| < most
  }

  lemma BeginUseAnswers(s: State, leaseId: string, use: Digest, now: nat, seal: Seal)
    ensures var o := BeginUse(s, leaseId, use, now, seal);
      var open := OpenLease(s, leaseId) && InWindow(s, leaseId, now);
      var unused := open && use !in s.leases[leaseId].uses;
      && (o == Failed(UnknownLease) <==> leaseId !in s.leases)
      && (o == Failed(IsRevoked) <==> leaseId in s.leases && !OpenLease(s, leaseId))
      && (o == Failed(IsExpired) <==> OpenLease(s, leaseId) && !InWindow(s, leaseId, now))
      && (o.Done? && !o.changed <==> open && use in s.leases[leaseId].uses)
      && (o == Failed(CapacityExhausted) <==> unused && !HasRoom(s.leases[leaseId]))
      && (o == Failed(SequenceExhausted) <==>
          unused && HasRoom(s.leases[leaseId]) && s.sequence >= 0xFFFF_FFFF_FFFF_FFFF)
      && (o.Done? && o.changed <==>
          unused && HasRoom(s.leases[leaseId]) && s.sequence < 0xFFFF_FFFF_FFFF_FFFF)
  {
    if leaseId in s.leases {
      assert Running(s.leases[leaseId]) == BusyUses(s.leases[leaseId].uses);
    }
  }

  /** What a retry is told about a recorded use. */
  predicate Describes(status: UseStatus, u: UseState) {
    match status
    case InProgress => u == Active
    case InCompletion => u.Completing?
    case IsFinished => u.Finished?
    case IsAbandoned => u.Abandoned?
  }

  lemma BeginUseLeaves(s: State, leaseId: string, use: Digest, now: nat, seal: Seal)
    requires BeginUse(s, leaseId, use, now, seal).Done?
    ensures var o := BeginUse(s, leaseId, use, now, seal);
      && leaseId in s.leases
      && var lease := s.leases[leaseId];
         && (!o.changed ==> o.next == s && o.reply.ExistingUse? && use in lease.uses
                            && Describes(o.reply.status, lease.uses[use]))
         && (o.changed ==>
             && lease.remaining > 0 && o.reply.NewUse?
             && var p := o.reply.permit;
                && p.leaseId == leaseId && p.generation == s.generation && p.terms == lease.terms && p.use == use
                && p.seal == seal
                && o.next == s.(sequence := s.sequence + 1,
                                leases := s.leases[leaseId := lease.(remaining := lease.remaining - 1,
                                                                     uses := lease.uses[use := Active])]))
  {
  }

  // ----- the two phases of a completion -----

  /** The use has the end that this record and disposition ask for. */
  predicate HasEnded(u: UseState, record: Digest, disposition: Disposition) {
    match disposition
    case Finish => u == Finished(record)
    case Abandon => u == Abandoned(record)
  }

  /** The use is neither running nor exactly where this record and disposition would bring it. */
  predicate Conflicts(u: UseState, record: Digest, disposition: Disposition) {
    u != Active && u != Completing(record, disposition) && !HasEnded(u, record, disposition)
  }

  predicate PermitOpen(s: State, p: Permit) {
    p.generation == s.generation && OpenLease(s, p.leaseId)
  }

  predicate PermitUse(s: State, p: Permit) {
    PermitOpen(s, p) && p.use in s.leases[p.leaseId].uses
  }

  /** The token names what the caller passed and nothing else. */
  predicate TokenIs(t: Witness, leaseId: string, generation: nat, use: Digest, record: Digest,
                    disposition: Disposition, seal: Seal) {
    && t.leaseId == leaseId && t.generation == generation && t.use == use && t.record == record
    && t.disposition == disposition && t.seal == seal
  }

  /** One use of one lease is set, the sequence goes up by one, and nothing else changes. */
  predicate SetsUse(s: State, t: State, leaseId: string, use: Digest, u: UseState)
    requires leaseId in s.leases
  {
    var lease := s.leases[leaseId];
    t == s.(sequence := s.sequence + 1, leases := s.leases[leaseId := lease.(uses := lease.uses[use := u])])
  }

  lemma BeginCompletionAnswers(s: State, p: Permit, record: Digest, d: Disposition)
    ensures var o := BeginCompletion(s, p, record, d);
      && (o == Failed(IsRevoked) <==>
          p.generation != s.generation || (p.leaseId in s.leases && !PermitOpen(s, p)))
      && (o == Failed(UnknownLease) <==> p.generation == s.generation && p.leaseId !in s.leases)
      && (o == Failed(UnknownUse) <==> PermitOpen(s, p) && p.use !in s.leases[p.leaseId].uses)
      && (o == Failed(CompletionConflict) <==>
          PermitUse(s, p) && Conflicts(s.leases[p.leaseId].uses[p.use], record, d))
      && (o == Failed(SequenceExhausted) <==>
          PermitUse(s, p) && s.leases[p.leaseId].uses[p.use] == Active && s.sequence >= 0xFFFF_FFFF_FFFF_FFFF)
      && (o.Done? && o.reply.CompletionStarted? <==>
          PermitUse(s, p) && s.leases[p.leaseId].uses[p.use] == Active && s.sequence < 0xFFFF_FFFF_FFFF_FFFF)
      && (o.Done? && o.reply.CompletionResumed? <==>
          PermitUse(s, p) && s.leases[p.leaseId].uses[p.use] == Completing(record, d))
      && (o.Done? && o.reply.CompletionExists? <==>
          PermitUse(s, p) && HasEnded(s.leases[p.leaseId].uses[p.use], record, d))
  {
  }

  lemma BeginCompletionLeaves(s: State, p: Permit, record: Digest, d: Disposition)
    requires BeginCompletion(s, p, record, d).Done?
    ensures var o := BeginCompletion(s, p, record, d);
      && p.leaseId in s.leases
      && match o.reply {
           case CompletionStarted(t) =>
             o.changed && TokenIs(t, p.leaseId, p.generation, p.use, record, d, p.seal)
             && SetsUse(s, o.next, p.leaseId, p.use, Completing(record, d))
           case CompletionResumed(t) =>
             o.next == s && !o.changed && TokenIs(t, p.leaseId, p.generation, p.use, record, d, p.seal)
           case CompletionExists(status) =>
             o.next == s && !o.changed && status == (match d case Finish => IsFinished case Abandon => IsAbandoned)
           case _ => false
         }
  {
  }

  predicate KnownUse(s: State, leaseId: string, use: Digest) {
    leaseId in s.leases && use in s.leases[leaseId].uses
  }

  lemma ResumeAnswers(s: State, leaseId: string, use: Digest, record: Digest, d: Disposition, seal: Seal)
    ensures var o := ResumeCompletion(s, leaseId, use, record, d, seal);
      && (o == Failed(UnknownLease) <==> leaseId !in s.leases)
      && (o == Failed(UnknownUse) <==> leaseId in s.leases && use !in s.leases[leaseId].uses)
      && (o == Failed(CompletionNotStarted) <==>
          KnownUse(s, leaseId, use) && s.leases[leaseId].uses[use] == Active)
      && (o == Failed(CompletionConflict) <==>
          KnownUse(s, leaseId, use) && Conflicts(s.leases[leaseId].uses[use], record, d))
      && (o.Done? && o.reply.CompletionResumed? <==>
          KnownUse(s, leaseId, use) && s.leases[leaseId].uses[use] == Completing(record, d))
      && (o.Done? && o.reply.CompletionExists? <==>
          KnownUse(s, leaseId, use) && HasEnded(s.leases[leaseId].uses[use], record, d))
      && (o.Done? ==>
          && o.next == s && !o.changed
          && match o.reply {
               case CompletionResumed(t) => TokenIs(t, leaseId, s.leases[leaseId].generation, use, record, d, seal)
               case CompletionExists(status) => status == (match d case Finish => IsFinished case Abandon => IsAbandoned)
               case _ => false
             })
  {
  }

  predicate TokenLease(s: State, t: Witness) {
    t.leaseId in s.leases && s.leases[t.leaseId].generation == t.generation
  }

  predicate TokenUse(s: State, t: Witness) {
    TokenLease(s, t) && t.use in s.leases[t.leaseId].uses
  }

  lemma CommitAnswers(s: State, t: Witness)
    ensures var o := CommitCompletion(s, t);
      && (o == Failed(UnknownLease) <==> t.leaseId !in s.leases)
      && (o == Failed(ForeignCompletionWitness) <==> t.leaseId in s.leases && !TokenLease(s, t))
      && (o == Failed(UnknownUse) <==> TokenLease(s, t) && t.use !in s.leases[t.leaseId].uses)
      && (o == Failed(CompletionNotStarted) <==> TokenUse(s, t) && s.leases[t.leaseId].uses[t.use] == Active)
      && (o == Failed(CompletionConflict) <==>
          TokenUse(s, t) && Conflicts(s.leases[t.leaseId].uses[t.use], t.record, t.disposition))
      && (o == Failed(SequenceExhausted) <==>
          TokenUse(s, t) && s.leases[t.leaseId].uses[t.use] == Completing(t.record, t.disposition)
          && s.sequence >= 0xFFFF_FFFF_FFFF_FFFF)
      && (o.Done? && o.changed <==>
          TokenUse(s, t) && s.leases[t.leaseId].uses[t.use] == Completing(t.record, t.disposition)
          && s.sequence < 0xFFFF_FFFF_FFFF_FFFF)
      && (o == Done(Committed, s, false) <==>
          TokenUse(s, t) && HasEnded(s.leases[t.leaseId].uses[t.use], t.record, t.disposition))
      && (o.Done? && o.changed ==>
          && o.reply == Committed
          && SetsUse(s, o.next, t.leaseId, t.use,
                     match t.disposition case Finish => Finished(t.record) case Abandon => Abandoned(t.record)))
  {
  }

  // ----- the status of a lease -----

  lemma StatusAnswers(lease: Lease, storeGeneration: nat, now: nat)
    ensures var status := StatusOf(lease, storeGeneration, now);
      var ours := lease.generation == storeGeneration;
      var window := lease.terms.constraints.time;
      var open := ours && !lease.revoked;
      && (status.Inconsistent? <==> lease.generation > storeGeneration)
      && (status.RevokedByRestart? <==> lease.generation < storeGeneration)
      && (status.Revoked? <==> ours && lease.revoked)
      && (status.NotYetValid? <==> open && now < window.notBefore)
      && (status.Expired? <==> open && window.notBefore <= now && window.expiresAt <= now)
      && (status.Exhausted? <==> open && window.notBefore <= now < window.expiresAt && lease.remaining == 0)
      && (status.Current? <==> open && window.notBefore <= now < window.expiresAt && lease.remaining > 0)
  {
  }
}
