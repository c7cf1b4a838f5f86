/** Exactly what the store file, a transaction and a store object answer, fault by fault. */
module StoreAnswers {
  import opened Ledger
  import opened LedgerSize
  import opened ReplayStore
  import opened Storage

  lemma LoadAnswers(c: Content, storeId: Digest, key: nat)
    ensures var l := Load(c, storeId, key);
      && (l.Loaded? <==> c.Snapshot? && c.format == 2 && c.key == key && Fits(c.payload) && c.payload.storeId == storeId)
      && (l.Loaded? ==> l.payload == c.payload)
      && (l == Unreadable(MissingState) <==> c == Absent)
      && (l == Unreadable(InvalidState) <==> c == Garbage)
      && (l == Unreadable(UnsupportedFormat) <==> c.Snapshot? && c.format != 2)
      && (l == Unreadable(AuthenticationFailed) <==> c.Snapshot? && c.format == 2 && c.key != key)
      && (l == Unreadable(StateTooLarge) <==> c.Snapshot? && c.format == 2 && c.key == key && !Fits(c.payload))
      && (l == Unreadable(StoreIdentityMismatch) <==>
          c.Snapshot? && c.format == 2 && c.key == key && Fits(c.payload) && c.payload.storeId != storeId)
  {
    hide Fits;
  }

  /** The file shows and keeps exactly this content. */
  predicate Keeps(v: View, c: Content, held: bool) {
    v.visible == c && v.survivors == {c} && v.held == held
  }

  /** What a computed outcome leaves on the file and what it answers, under each fault. */
  lemma ConcludeAnswers(v: View, o: Outcome, fits: bool, key: nat, fault: Fault)
    ensures var (after, answer) := Conclude(Synced(v), o, fits, key, fault);
      var written := if o.Done? then Snapshot(o.next, 2, key) else Absent;
      var writes := o.Done? && o.changed && fits;
      && (o.Failed? ==> answer == Err(o.error) && Keeps(after, v.visible, v.held))
      && (o.Done? && !o.changed ==> answer == Ok(o.reply) && Keeps(after, v.visible, v.held))
      && (o.Done? && o.changed && !fits ==> answer == Err(StateTooLarge) && Keeps(after, v.visible, v.held))
      && (writes && fault == WriteFails ==> answer == Err(Io) && Keeps(after, v.visible, v.held))
      && (writes && fault == SyncFails ==>
          && answer == Err(Io) && after.visible == written && after.survivors == {v.visible, written}
          && after.held == v.held)
      && (writes && fault == LateFails ==> answer == Err(Io) && Keeps(after, written, v.held))
      && (writes && fault in {NoFault, LockFails, ReadFails} ==> answer == Ok(o.reply) && Keeps(after, written, v.held))
  {
  }

  /** A transaction that does not get to compute anything. */
  lemma BlockedAnswers(crypto: Crypto, storeId: Digest, key: nat, v: View, q: Command, fault: Fault)
    ensures var (after, answer) := Transact(crypto, storeId, key, v, q, fault);
      var l := Load(v.visible, storeId, key);
      && (fault == LockFails ==> after == v && answer == Err(Io))
      && (fault == ReadFails ==> Keeps(after, v.visible, v.held) && answer == Err(Io))
      && (fault !in {LockFails, ReadFails} && l.Unreadable? ==>
          Keeps(after, v.visible, v.held) && answer == Err(l.error))
  {
    hide Load, Apply;
  }

  /** A computed transaction: the outcome decides, once the lock and the read work. */
  lemma ComputedAnswers(crypto: Crypto, storeId: Digest, key: nat, v: View, q: Command, fault: Fault)
    requires fault !in {LockFails, ReadFails} && Load(v.visible, storeId, key).Loaded?
    ensures var o := Apply(crypto, v.visible.payload, q);
      Transact(crypto, storeId, key, v, q, fault) == Conclude(Synced(v), o, o.Done? && Fits(o.next), key, fault)
  {
    hide Apply, Fits;
    LoadAnswers(v.visible, storeId, key);
    TransactUnfolds(crypto, storeId, key, v, q, fault);
  }

  // ----- creating and opening -----

  lemma BootstrapAnswers(v: View, legacy: bool, first: State, key: nat, fault: Fault)
    ensures var (after, answer) := Bootstrapped(v, legacy, first, key, fault);
      var reached := key != 0 && fault !in {LockFails, ReadFails};
      && (answer == Err(InvalidKey) <==> key == 0)
      && (answer == Err(AlreadyInitialized) <==> reached && (v.visible != Absent || legacy))
      && (answer == Err(StateTooLarge) <==> reached && v.visible == Absent && !legacy && !Fits(first))
      && (answer.Ok? <==> reached && v.visible == Absent && !legacy && Fits(first) && fault == NoFault)
      && (answer == Err(Io) <==>
          key != 0 && (fault in {LockFails, ReadFails}
                       || (v.visible == Absent && !legacy && Fits(first) && fault != NoFault)))
      && (answer.Ok? ==> Keeps(after, Snapshot(first, 2, key), v.held))
      && (v.visible != Absent || legacy ==> after.visible == v.visible && after.survivors <= v.survivors + {v.visible})
  {
    hide Fits;
  }

  lemma OpenAnswers(v: View, legacy: bool, key: nat, fault: Fault)
    ensures var (after, l) := Opened(v, legacy, key, fault);
      var reached := key != 0 && fault !in {LockFails, ReadFails};
      var c := v.visible;
      && after.visible == v.visible && after.held == v.held && after.survivors in {v.survivors, {v.visible}}
      && (l == Unreadable(InvalidKey) <==> key == 0)
      && (l == Unreadable(Io) <==> key != 0 && fault in {LockFails, ReadFails})
      && (l == Unreadable(MissingState) <==> reached && c == Absent && !legacy)
      && (l == Unreadable(InvalidState) <==> reached && c == Garbage)
      && (l == Unreadable(UnsupportedFormat) <==>
          reached && ((c == Absent && legacy) || (c.Snapshot? && c.format != 2)))
      && (l == Unreadable(AuthenticationFailed) <==> reached && c.Snapshot? && c.format == 2 && c.key != key)
      && (l.Loaded? <==> reached && c.Snapshot? && c.format == 2 && c.key == key && Fits(c.payload))
      && (l.Loaded? ==> l.payload == c.payload && Keeps(after, c, v.held))
  {
    hide Fits;
  }

  // ----- activation -----

  lemma ClaimAnswers(v: View, h: Handle, fault: Fault)
    ensures var (after, g, answer) := ClaimInstance(v, h, fault);
      && g.storeId == h.storeId && g.key == h.key && g.epoch == h.epoch
      && (answer == Err(ActivationPoisoned) <==> h.activation == Poisoned)
      && (answer == Err(AlreadyActive) <==> h.activation in {Activating, Activated})
      && (answer == Err(Io) <==> h.activation == Inactive && fault == LockFails)
      && (answer == Err(InstanceAlreadyActive) <==> h.activation == Inactive && fault != LockFails && v.held)
      && (answer.Ok? <==> h.activation == Inactive && fault != LockFails && !v.held)
      && (h.activation != Inactive ==> after == v && g == h)
      && (answer == Err(Io) ==> after == v && g.activation == Poisoned && g.holds == h.holds)
      && (answer == Err(InstanceAlreadyActive) ==> Keeps(after, v.visible, true) && g == h)
      && (answer.Ok? ==> Keeps(after, v.visible, true) && g.activation == Poisoned && g.holds)
  {
  }

  lemma GuardAnswers(crypto: Crypto, v: View, h: Handle, q: Command, fault: Fault)
    ensures h.activation != Activated ==> Guarded(crypto, v, h, q, fault) == (v, Err(NotActive))
    ensures h.activation == Activated ==>
      Guarded(crypto, v, h, q, fault) == Transact(crypto, h.storeId, h.key, v, q, fault)
  {
    hide Transact;
  }
}
