/** The state file on disk, what a crash may leave of it, and one whole store transaction.

    A rename becomes durable when the directory is synced. Taking the transaction lock syncs the
    directory too, so a state that was read is durable before anything is answered from it. */
module Storage {
  import opened Ledger
  import opened LedgerSize

  datatype Content = Absent | Garbage | Snapshot(payload: State, format: nat, key: nat)

  /** `survivors` are the contents a machine crash may leave: the last synced one and every
      rename since. `held` says that some store holds the instance lock. */
  datatype View = View(visible: Content, survivors: set<Content>, held: bool)

  /** Where the environment makes a transaction fail. */
  datatype Fault = NoFault | LockFails | ReadFails | WriteFails | SyncFails | LateFails

  datatype Answer = Ok(reply: Reply) | Err(error: Error)

  datatype Loaded = Loaded(payload: State) | Unreadable(error: Error)

  function Synced(v: View): View {
    v.(survivors := {v.visible})
  }

  function Renamed(v: View, c: Content): View {
    v.(visible := c, survivors := v.survivors + {c})
  }

  function Load(c: Content, storeId: Digest, key: nat): Loaded {
    match c
    case Absent => Unreadable(MissingState)
    case Garbage => Unreadable(InvalidState)
    case Snapshot(payload, format, k) =>
      if format != FORMAT_VERSION then Unreadable(UnsupportedFormat)
      else if k != key then Unreadable(AuthenticationFailed)
      else if !Fits(payload) then Unreadable(StateTooLarge)
      else if payload.storeId != storeId then Unreadable(StoreIdentityMismatch)
      else Loaded(payload)
  }

  function Signed(s: State, key: nat): Content {
    Snapshot(s, FORMAT_VERSION, key)
  }

  /** Replacing the file: temporary file, rename, directory sync. */
  function Replace(v: View, c: Content, fault: Fault): (View, bool) {
    if fault.WriteFails? then (v, false)
    else
      var renamed := Renamed(v, c);
      if fault.SyncFails? then (renamed, false) else (Synced(renamed), !fault.LateFails?)
  }

  /** Ends a transaction on a locked view: `fits` is the size check of the computed state. */
  function Conclude(locked: View, o: Outcome, fits: bool, key: nat, fault: Fault): (View, Answer) {
    match o
    case Failed(error) => (locked, Err(error))
    case Done(reply, next, changed) =>
      if !changed then (locked, Ok(reply))
      else if !fits then (locked, Err(StateTooLarge))
      else
        var (after, ok) := Replace(locked, Signed(next, key), fault);
        (after, if ok then Ok(reply) else Err(Io))
  }

  /** One transaction: lock (and sync), read, compute, replace. */
  function Transact(crypto: Crypto, storeId: Digest, key: nat, v: View, q: Command, fault: Fault): (View, Answer) {
    if fault.LockFails? then (v, Err(Io))
    else if fault.ReadFails? then (Synced(v), Err(Io))
    else
      match Load(v.visible, storeId, key)
      case Unreadable(error) => (Synced(v), Err(error))
      case Loaded(s) =>
        Conclude(Synced(v), Apply(crypto, s, q), OutcomeFits(Apply(crypto, s, q)), key, fault)
  }

  predicate OutcomeFits(o: Outcome) {
    o.Done? && Fits(o.next)
  }

  // ----- atomicity and durability -----

  lemma ConcludeAtomic(v: View, o: Outcome, fits: bool, key: nat, fault: Fault)
    ensures var (after, answer) := Conclude(Synced(v), o, fits, key, fault);
      && after.held == v.held && after.visible in after.survivors
      && (answer.Ok? ==>
          && after.survivors == {after.visible} && o.Done? && answer.reply == o.reply
          && (o.changed ==> fits) && after.visible == if o.changed then Signed(o.next, key) else v.visible)
      && (forall c | c in after.survivors ::
          c == v.visible || (o.Done? && o.changed && fits && c == Signed(o.next, key)))
  {
    hide Fits;
  }

  /** `c` is the whole new state this command computes from the visible one. */
  ghost predicate Produced(crypto: Crypto, storeId: Digest, key: nat, v: View, q: Command, c: Content) {
    && Load(v.visible, storeId, key).Loaded?
    && var o := Apply(crypto, Load(v.visible, storeId, key).payload, q);
       o.Done? && o.changed && Fits(o.next) && c == Signed(o.next, key)
  }

  /** The reply is the one computed from the visible state, which is then on disk for good. */
  ghost predicate Accepted(crypto: Crypto, storeId: Digest, key: nat, v: View, q: Command, after: View, reply: Reply) {
    && after.survivors == {after.visible}
    && Load(v.visible, storeId, key).Loaded?
    && var o := Apply(crypto, Load(v.visible, storeId, key).payload, q);
       && o.Done? && reply == o.reply && (o.changed ==> Fits(o.next))
       && after.visible == if o.changed then Signed(o.next, key) else v.visible
  }

  /** An accepted transaction is durable and its reply is the one computed from the state before
      it; whatever happens, now and after a crash the file is a whole old or a whole new state. */
  lemma TransactAtomic(crypto: Crypto, storeId: Digest, key: nat, v: View, q: Command, fault: Fault)
    requires v.visible in v.survivors
    ensures var (after, answer) := Transact(crypto, storeId, key, v, q, fault);
      && after.held == v.held && after.visible in after.survivors
      && (answer.Ok? ==> Accepted(crypto, storeId, key, v, q, after, answer.reply))
      && forall c | c in after.survivors :: c in v.survivors || Produced(crypto, storeId, key, v, q, c)
  {
    hide Fits, Apply;
    if Load(v.visible, storeId, key).Loaded? {
      var o := Apply(crypto, Load(v.visible, storeId, key).payload, q);
      ConcludeAtomic(v, o, OutcomeFits(o), key, fault);
    }
  }

  lemma ConcludeClean(v: View, o: Outcome, fits: bool, key: nat)
    requires o.Done? ==> fits
    ensures Conclude(Synced(v), o, fits, key, NoFault).1.Ok? <==> o.Done?
  {
  }

  lemma TransactUnfolds(crypto: Crypto, storeId: Digest, key: nat, v: View, q: Command, fault: Fault)
    ensures fault.LockFails? ==> Transact(crypto, storeId, key, v, q, fault) == (v, Err(Io))
    ensures !fault.LockFails? && (fault.ReadFails? || Load(v.visible, storeId, key).Unreadable?) ==>
      var (after, answer) := Transact(crypto, storeId, key, v, q, fault); after == Synced(v) && answer.Err?
    ensures !fault.LockFails? && !fault.ReadFails? && Load(v.visible, storeId, key).Loaded? ==>
      var o := Apply(crypto, Load(v.visible, storeId, key).payload, q);
      Transact(crypto, storeId, key, v, q, fault) == Conclude(Synced(v), o, OutcomeFits(o), key, fault)
  {
  }

  lemma MandatoryFits(crypto: Crypto, c: Content, storeId: Digest, key: nat, q: Command)
    requires q.DoRestart? || q.DoRevoke? || q.DoCommit?
    requires Load(c, storeId, key).Loaded?
    requires var s := Load(c, storeId, key).payload; s.generation <= U64_MAX && s.sequence <= U64_MAX
    ensures var o := Apply(crypto, Load(c, storeId, key).payload, q); o.Done? ==> OutcomeFits(o)
  {
    hide Fits, Apply;
    Headroom(crypto, Load(c, storeId, key).payload, q);
  }

  /** Without faults a mandatory command is refused only by its own rules: never for size. */
  lemma MandatorySucceeds(crypto: Crypto, storeId: Digest, key: nat, v: View, q: Command)
    requires q.DoRestart? || q.DoRevoke? || q.DoCommit?
    requires Load(v.visible, storeId, key).Loaded?
    requires var s := Load(v.visible, storeId, key).payload; s.generation <= U64_MAX && s.sequence <= U64_MAX
    ensures Transact(crypto, storeId, key, v, q, NoFault).1.Ok? <==>
            Apply(crypto, Load(v.visible, storeId, key).payload, q).Done?
  {
    var s := Load(v.visible, storeId, key).payload;
    var o := Apply(crypto, s, q);
    MandatoryFits(crypto, v.visible, storeId, key, q);
    TransactUnfolds(crypto, storeId, key, v, q, NoFault);
    ConcludeClean(v, o, OutcomeFits(o), key);
  }
}
