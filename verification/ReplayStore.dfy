/** The durable replay store: its file, its activation, and its public operations. */
module ReplayStore {
  import opened Draft
  import opened Grants
  import opened Text
  import opened Ledger
  import opened LedgerSize
  import opened Storage

  /** The flat-file storage of one root directory, shared by every store opened on it. */
  class Disk {
    var visible: Content
    var held: bool
    const legacy: bool
    ghost var survivors: set<Content>

    ghost function Picture(): View
      reads this
    {
      View(visible, survivors, held)
    }

    constructor (legacy: bool)
      ensures Picture() == View(Absent, {Absent}, false) && this.legacy == legacy
    {
      visible := Absent;
      held := false;
      this.legacy := legacy;
      survivors := {Absent};
    }

    /** Opens the lock file, which syncs the directory, and takes the lock. */
    method LockTransaction(fault: Fault) returns (locked: bool)
      modifies this`survivors
      ensures locked == !fault.LockFails?
      ensures Picture() == if locked then Synced(old(Picture())) else old(Picture())
    {
      locked := !fault.LockFails?;
      if locked {
        survivors := {visible};
      }
    }

    /** Takes the instance lock unless another store has it; the lock file is opened first. */
    method TryLockInstance(fault: Fault) returns (reached: bool, locked: bool)
      modifies this`survivors, this`held
      ensures reached == !fault.LockFails? && locked == (reached && !old(held))
      ensures Picture() == LockedInstance(old(Picture()), fault)
    {
      reached := !fault.LockFails?;
      locked := reached && !held;
      if reached {
        survivors := {visible};
      }
      if locked {
        held := true;
      }
    }

    method ReleaseInstance()
      modifies this`held
      ensures Picture() == old(Picture()).(held := false)
    {
      held := false;
    }

    /** Temporary file and its sync, rename, directory sync. */
    method ReplaceFile(content: Content, fault: Fault) returns (ok: bool)
      modifies this`visible, this`survivors
      ensures (Picture(), ok) == Replace(old(Picture()), content, fault)
    {
      if fault.WriteFails? {
        return false;
      }
      visible := content;
      survivors := survivors + {content};
      if fault.SyncFails? {
        return false;
      }
      survivors := {visible};
      ok := !fault.LateFails?;
    }
  }

  function LockedInstance(v: View, fault: Fault): View {
    if fault.LockFails? then v else Synced(v).(held := true)
  }

  datatype Activation = Inactive | Activating | Activated | Poisoned

  /** What one store object is: its identity, its activation, whether it keeps the instance lock,
      and the generation its epoch started with. */
  datatype Handle = Handle(storeId: Digest, key: nat, activation: Activation, holds: bool, epoch: nat)

  // ----- start of an epoch, as two steps -----

  /** Claims the object and the instance lock. Anything but a free lock ends the attempt. */
  function ClaimInstance(v: View, h: Handle, fault: Fault): (View, Handle, Answer) {
    if h.activation.Poisoned? then (v, h, Err(ActivationPoisoned))
    else if !h.activation.Inactive? then (v, h, Err(AlreadyActive))
    else if fault.LockFails? then (v, h.(activation := Poisoned), Err(Io))
    else if v.held then (Synced(v), h, Err(InstanceAlreadyActive))
    else (LockedInstance(v, fault), h.(activation := Poisoned, holds := true), Ok(Committed))
  }

  /** Writes the new generation. The object stays poisoned, and frees the lock, unless it is written. */
  function CommitEpoch(crypto: Crypto, v: View, h: Handle, fault: Fault): (View, Handle, Answer) {
    var (after, answer) := Transact(crypto, h.storeId, h.key, v, DoRestart, fault);
    match answer
    case Ok(reply) =>
      (after, h.(activation := Activated, epoch := if reply.Generation? then reply.generation else 0), answer)
    case Err(_) => (after.(held := false), h.(holds := false), answer)
  }

  /** An operation that needs an active epoch. */
  function Guarded(crypto: Crypto, v: View, h: Handle, q: Command, fault: Fault): (View, Answer) {
    if !h.activation.Activated? then (v, Err(NotActive))
    else Transact(crypto, h.storeId, h.key, v, q, fault)
  }

  // ----- the store -----

  class DurableReplayStore {
    const disk: Disk
    const crypto: Crypto
    const storeId: Digest
    const key: nat
    var activation: Activation
    var holds: bool
    var epoch: nat

    function AsHandle(): Handle
      reads this
    {
      Handle(storeId, key, activation, holds, epoch)
    }

    constructor FromParts(disk: Disk, crypto: Crypto, storeId: Digest, key: nat)
      ensures this.disk == disk && this.crypto == crypto
      ensures AsHandle() == Handle(storeId, key, Inactive, false, 0)
    {
      this.disk := disk;
      this.crypto := crypto;
      this.storeId := storeId;
      this.key := key;
      activation := Inactive;
      holds := false;
      epoch := 0;
    }

    method WithLockedStateUnchecked(q: Command, fault: Fault) returns (answer: Answer)
      modifies disk
      ensures (disk.Picture(), answer) == Transact(crypto, storeId, key, old(disk.Picture()), q, fault)
    {
      hide Fits, Apply;
      var locked := disk.LockTransaction(fault);
      if !locked {
        return Err(Io);
      }
      if fault.ReadFails? {
        return Err(Io);
      }
      var loaded := Load(disk.visible, storeId, key);
      if loaded.Unreadable? {
        return Err(loaded.error);
      }
      var draft := new PersistedState(loaded.payload);
      var step := draft.Run(crypto, q);
      answer := Finish(step, draft.Value(), Apply(crypto, loaded.payload, q), fault);
    }

    /** Writes a changed draft if it passes the size check; drops a refused one. */
    method Finish(step: Step, left: State, ghost outcome: Outcome, fault: Fault) returns (answer: Answer)
      requires Agrees(step, left, outcome)
      modifies disk
      ensures (disk.Picture(), answer) ==
              Conclude(old(disk.Picture()), outcome, OutcomeFits(outcome), key, fault)
    {
      if step.Refused? {
        return Err(step.error);
      }
      if !step.changed {
        return Ok(step.reply);
      }
      if !Fits(left) {
        return Err(StateTooLarge);
      }
      var written := disk.ReplaceFile(Signed(left, key), fault);
      answer := if written then Ok(step.reply) else Err(Io);
    }

    method WithLockedState(q: Command, fault: Fault) returns (answer: Answer)
      modifies disk
      ensures (disk.Picture(), answer) == Guarded(crypto, old(disk.Picture()), old(AsHandle()), q, fault)
      ensures old(activation) != Activated ==> answer == Err(NotActive) && disk.Picture() == old(disk.Picture())
    {
      if !activation.Activated? {
        return Err(NotActive);
      }
      answer := WithLockedStateUnchecked(q, fault);
    }

    /** Claims the instance, then writes the next generation; any failure after the claim leaves
        the object poisoned for good. */
    method StartEpoch(lockFault: Fault, fault: Fault) returns (answer: Answer)
      modifies this, disk
      ensures var (v, h, claim) := ClaimInstance(old(disk.Picture()), old(AsHandle()), lockFault);
        if claim.Err? then (disk.Picture(), AsHandle(), answer) == (v, h, claim)
        else (disk.Picture(), AsHandle(), answer) == CommitEpoch(crypto, v, h, fault)
    {
      hide Transact;
      if !activation.Inactive? {
        return Err(if activation.Poisoned? then ActivationPoisoned else AlreadyActive);
      }
      activation := Activating;
      var reached, locked := disk.TryLockInstance(lockFault);
      if !reached {
        activation := Poisoned;
        return Err(Io);
      }
      if !locked {
        activation := Inactive;
        return Err(InstanceAlreadyActive);
      }
      activation := Poisoned;
      answer := WithLockedStateUnchecked(DoRestart, fault);
      if answer.Err? {
        disk.ReleaseInstance();
        holds := false;
        return;
      }
      holds := true;
      epoch := if answer.reply.Generation? then answer.reply.generation else 0;
      activation := Activated;
    }

    method CurrentGeneration(fault: Fault) returns (answer: Answer)
      modifies disk
      ensures (disk.Picture(), answer) == Guarded(crypto, old(disk.Picture()), old(AsHandle()), DoRead, fault)
      ensures old(activation) != Activated ==> answer == Err(NotActive) && disk.Picture() == old(disk.Picture())
    {
      answer := WithLockedState(DoRead, fault);
    }

    method StoredGeneration(fault: Fault) returns (answer: Answer)
      modifies disk
      ensures (disk.Picture(), answer) == Transact(crypto, storeId, key, old(disk.Picture()), DoRead, fault)
    {
      answer := WithLockedStateUnchecked(DoRead, fault);
    }

    method ReserveLease(nonce: Digest, idempotencyKey: string, binding: Binding, fault: Fault)
      returns (answer: Answer)
      modifies disk
      ensures ValidateBinding(binding).NotBound? ==>
        answer == Err(InvalidBinding(ValidateBinding(binding).error)) && disk.Picture() == old(disk.Picture())
      ensures ValidateBinding(binding).BoundTo? && !IsLabel(idempotencyKey, 128, "_-.") ==>
        answer == Err(InvalidReservationKey) && disk.Picture() == old(disk.Picture())
      ensures ValidateBinding(binding).BoundTo? && IsLabel(idempotencyKey, 128, "_-.") ==>
        (disk.Picture(), answer) == Guarded(crypto, old(disk.Picture()), old(AsHandle()),
                                         DoReserve(nonce, crypto.hash(idempotencyKey), binding), fault)
    {
      var bound := ValidateBinding(binding);
      if bound.NotBound? {
        return Err(InvalidBinding(bound.error));
      }
      if !IsLabel(idempotencyKey, 128, "_-.") {
        return Err(InvalidReservationKey);
      }
      answer := WithLockedState(DoReserve(nonce, crypto.hash(idempotencyKey), binding), fault);
    }

    method BeginLeaseUse(leaseId: string, operationId: string, now: nat, fault: Fault) returns (answer: Answer)
      modifies disk
      ensures !IsLabel(operationId, 128, "_-.") ==>
        answer == Err(InvalidOperationId) && disk.Picture() == old(disk.Picture())
      ensures IsLabel(operationId, 128, "_-.") ==>
        (disk.Picture(), answer) == Guarded(crypto, old(disk.Picture()), old(AsHandle()),
                                         DoBeginUse(leaseId, crypto.hash(operationId), now, Seal(storeId, key)), fault)
    {
      if !IsLabel(operationId, 128, "_-.") {
        return Err(InvalidOperationId);
      }
      answer := WithLockedState(DoBeginUse(leaseId, crypto.hash(operationId), now, Seal(storeId, key)), fault);
    }

    method BeginUseCompletion(permit: Permit, record: Digest, disposition: Disposition, fault: Fault)
      returns (answer: Answer)
      modifies disk
      ensures permit.seal != Seal(storeId, key) ==>
        answer == Err(ForeignPermit) && disk.Picture() == old(disk.Picture())
      ensures permit.seal == Seal(storeId, key) ==>
        (disk.Picture(), answer) == Guarded(crypto, old(disk.Picture()), old(AsHandle()),
                                         DoBeginCompletion(permit, record, disposition), fault)
    {
      if permit.seal != Seal(storeId, key) {
        return Err(ForeignPermit);
      }
      answer := WithLockedState(DoBeginCompletion(permit, record, disposition), fault);
    }

    method ResumeUseCompletion(leaseId: string, operationId: string, record: Digest, disposition: Disposition,
                               fault: Fault) returns (answer: Answer)
      modifies disk
      ensures !IsLabel(operationId, 128, "_-.") ==>
        answer == Err(InvalidOperationId) && disk.Picture() == old(disk.Picture())
      ensures IsLabel(operationId, 128, "_-.") ==>
        (disk.Picture(), answer) ==
        Guarded(crypto, old(disk.Picture()), old(AsHandle()),
             DoResume(leaseId, crypto.hash(operationId), record, disposition, Seal(storeId, key)), fault)
    {
      if !IsLabel(operationId, 128, "_-.") {
        return Err(InvalidOperationId);
      }
      answer := WithLockedState(
        DoResume(leaseId, crypto.hash(operationId), record, disposition, Seal(storeId, key)), fault);
    }

    method CommitUseCompletion(token: Witness, fault: Fault) returns (answer: Answer)
      modifies disk
      ensures token.seal != Seal(storeId, key) ==>
        answer == Err(ForeignCompletionWitness) && disk.Picture() == old(disk.Picture())
      ensures token.seal == Seal(storeId, key) ==>
        (disk.Picture(), answer) == Guarded(crypto, old(disk.Picture()), old(AsHandle()), DoCommit(token), fault)
    {
      if token.seal != Seal(storeId, key) {
        return Err(ForeignCompletionWitness);
      }
      answer := WithLockedState(DoCommit(token), fault);
    }

    method RevokeLease(leaseId: string, fault: Fault) returns (answer: Answer)
      modifies disk
      ensures (disk.Picture(), answer) == Guarded(crypto, old(disk.Picture()), old(AsHandle()), DoRevoke(leaseId), fault)
    {
      answer := WithLockedState(DoRevoke(leaseId), fault);
    }

    /** Dropping the object releases the instance lock it keeps. */
    method Close()
      modifies this, disk
      ensures disk.Picture() == if old(holds) then old(disk.Picture()).(held := false) else old(disk.Picture())
      ensures AsHandle() == old(AsHandle()).(holds := false)
    {
      if holds {
        disk.ReleaseInstance();
        holds := false;
      }
    }
  }

  // ----- opening -----

  function EmptyState(storeId: Digest): State {
    State(storeId, 0, 0, {}, map[], map[])
  }

  function FirstWrite(v: View, s: State, key: nat, fault: Fault): (View, Answer) {
    Conclude(Synced(v), Done(Committed, s, true), Fits(s), key, fault)
  }

  /** Creates the file of a new store with its first state; refuses to replace one. */
  function Bootstrapped(v: View, legacy: bool, first: State, key: nat, fault: Fault): (View, Answer) {
    if key == 0 then (v, Err(InvalidKey))
    else if fault.LockFails? then (v, Err(Io))
    else if fault.ReadFails? then (Synced(v), Err(Io))
    else if !v.visible.Absent? || legacy then (Synced(v), Err(AlreadyInitialized))
    else FirstWrite(v, first, key, fault)
  }

  /** Reads the store identity of an existing file. */
  function Opened(v: View, legacy: bool, key: nat, fault: Fault): (View, Loaded) {
    if key == 0 then (v, Unreadable(InvalidKey))
    else if fault.LockFails? then (v, Unreadable(Io))
    else if fault.ReadFails? then (Synced(v), Unreadable(Io))
    else if v.visible.Absent? then (Synced(v), Unreadable(if legacy then UnsupportedFormat else MissingState))
    else (Synced(v), if v.visible.Garbage? then Unreadable(InvalidState)
                     else Load(v.visible, v.visible.payload.storeId, key))
  }

  method Bootstrap(disk: Disk, crypto: Crypto, storeId: Digest, key: nat, fault: Fault)
    returns (answer: Answer, store: DurableReplayStore?)
    modifies disk
    ensures (disk.Picture(), answer) == Bootstrapped(old(disk.Picture()), disk.legacy, EmptyState(storeId), key, fault)
    ensures answer.Ok? <==> store != null
    ensures store != null ==> fresh(store) && store.disk == disk && store.crypto == crypto
                              && store.AsHandle() == Handle(storeId, key, Inactive, false, 0)
  {
    store := null;
    if key == 0 {
      return Err(InvalidKey), null;
    }
    var locked := disk.LockTransaction(fault);
    if !locked || fault.ReadFails? {
      return Err(Io), null;
    }
    if !disk.visible.Absent? || disk.legacy {
      return Err(AlreadyInitialized), null;
    }
    var outcome := Done(Committed, EmptyState(storeId), true);
    if !OutcomeFits(outcome) {
      return Err(StateTooLarge), null;
    }
    var written := disk.ReplaceFile(Signed(outcome.next, key), fault);
    if !written {
      return Err(Io), null;
    }
    store := new DurableReplayStore.FromParts(disk, crypto, storeId, key);
    answer := Ok(Committed);
  }

  method OpenExisting(disk: Disk, crypto: Crypto, key: nat, fault: Fault)
    returns (loaded: Loaded, store: DurableReplayStore?)
    modifies disk
    ensures (disk.Picture(), loaded) == Opened(old(disk.Picture()), disk.legacy, key, fault)
    ensures loaded.Loaded? <==> store != null
    ensures store != null ==> fresh(store) && store.disk == disk && store.crypto == crypto
                              && store.AsHandle() == Handle(loaded.payload.storeId, key, Inactive, false, 0)
  {
    store := null;
    if key == 0 {
      return Unreadable(InvalidKey), null;
    }
    var locked := disk.LockTransaction(fault);
    if !locked || fault.ReadFails? {
      return Unreadable(Io), null;
    }
    if disk.visible.Absent? {
      return Unreadable(if disk.legacy then UnsupportedFormat else MissingState), null;
    }
    if disk.visible.Garbage? {
      return Unreadable(InvalidState), null;
    }
    loaded := Load(disk.visible, disk.visible.payload.storeId, key);
    if loaded.Unreadable? {
      return loaded, null;
    }
    store := new DurableReplayStore.FromParts(disk, crypto, loaded.payload.storeId, key);
  }
}
