/** Any number of store objects on one root, with I/O faults, crashes, drops and reopening.

    A run is any sequence of events. An event that its object cannot make changes nothing, so
    every sequence is a run. A process killed inside a transaction is a faulty transaction
    followed by a drop; one killed between claiming and committing an epoch is a drop there. */
module BrokerRuns {
  import opened Text
  import opened Constraints
  import opened Grants
  import opened Ledger
  import opened LedgerInvariant
  import opened LedgerSize
  import opened Storage
  import opened ReplayStore
  import opened Facts

  /** `next` numbers the objects; `log` is everything any caller was ever told with `Ok`. */
  datatype World = World(view: View, legacy: bool, objects: map<nat, Handle>, next: nat, log: seq<Fact>)

  /** All a caller needs to turn a verified grant into a reservation. */
  datatype LeaseRequest = LeaseRequest(
    leaseId: string, grantId: string, intent: Intent, authority: Authority, granted: Constraints, at: nat,
    generation: nat, nonce: Digest, retryKey: string)

  datatype Event =
    | Bootstraps(storeId: Digest, key: nat, fault: Fault)
    | Opens(key: nat, fault: Fault)
    | Claims(id: nat, fault: Fault)
    | Commits(id: nat, fault: Fault)
    | Reserves(id: nat, request: LeaseRequest, fault: Fault)
    | Calls(id: nat, command: Command, fault: Fault)
    | Peeks(id: nat, fault: Fault)
    | Drops(id: nat)
    | Crashes(left: Content)

  function Start(legacy: bool): World {
    World(View(Absent, {Absent}, false), legacy, map[], 0, [])
  }

  function Said(q: Command, answer: Answer): seq<Fact> {
    if answer.Ok? then FactsOf(q, answer.reply) else []
  }

  /** The seal a store checks or writes before its transaction. */
  predicate Admitted(h: Handle, q: Command) {
    match q
    case DoBeginUse(_, _, _, seal) => seal == Seal(h.storeId, h.key)
    case DoBeginCompletion(permit, _, _) => permit.seal == Seal(h.storeId, h.key)
    case DoResume(_, _, _, _, seal) => seal == Seal(h.storeId, h.key)
    case DoCommit(token) => token.seal == Seal(h.storeId, h.key)
    case DoRead | DoRevoke(_) => true
    case DoRestart | DoReserve(_, _, _) => false
  }

  function Operate(crypto: Crypto, w: World, id: nat, q: Command, fault: Fault): World
    requires id in w.objects
  {
    var (v, answer) := Guarded(crypto, w.view, w.objects[id], q, fault);
    w.(view := v, log := w.log + Said(q, answer))
  }

  /** The binding a request leads to; a grant that is refused leads to none either. */
  function BindRequest(r: LeaseRequest): Bound {
    match FromVerified(r.grantId, r.intent, r.authority, r.granted, r.at)
    case NotGranted(_) => NotBound(NoUsableCapacity)
    case Granted(grant) => BindLease(r.leaseId, grant, r.generation)
  }

  function Adopt(w: World, v: View, storeId: Digest, key: nat): World {
    w.(view := v, objects := w.objects[w.next := Handle(storeId, key, Inactive, false, 0)], next := w.next + 1)
  }

  predicate MayCommit(h: Handle) {
    h.activation.Poisoned? && h.holds
  }

  function Claiming(w: World, id: nat, fault: Fault): World
    requires id in w.objects
  {
    var (v, h, answer) := ClaimInstance(w.view, w.objects[id], fault);
    w.(view := v, objects := w.objects[id := h])
  }

  function Committing(crypto: Crypto, w: World, id: nat, fault: Fault): World
    requires id in w.objects
  {
    var (v, h, answer) := CommitEpoch(crypto, w.view, w.objects[id], fault);
    w.(view := v, objects := w.objects[id := h], log := w.log + Said(DoRestart, answer))
  }

  function Peeking(crypto: Crypto, w: World, id: nat, fault: Fault): World
    requires id in w.objects
  {
    w.(view := Transact(crypto, w.objects[id].storeId, w.objects[id].key, w.view, DoRead, fault).0)
  }

  function Dropping(w: World, id: nat): World
    requires id in w.objects
  {
    w.(view := if w.objects[id].holds then w.view.(held := false) else w.view, objects := w.objects - {id})
  }

  function Next(crypto: Crypto, w: World, e: Event): World {
    match e
    case Bootstraps(storeId, key, fault) =>
      var (v, answer) := Bootstrapped(w.view, w.legacy, EmptyState(storeId), key, fault);
      if answer.Ok? then Adopt(w, v, storeId, key) else w.(view := v)
    case Opens(key, fault) =>
      var (v, loaded) := Opened(w.view, w.legacy, key, fault);
      if loaded.Loaded? then Adopt(w, v, loaded.payload.storeId, key) else w.(view := v)
    case Claims(id, fault) =>
      if id !in w.objects then w else Claiming(w, id, fault)
    case Commits(id, fault) =>
      if id !in w.objects || !MayCommit(w.objects[id]) then w else Committing(crypto, w, id, fault)
    case Reserves(id, r, fault) =>
      if id !in w.objects || !IsLabel(r.retryKey, 128, "_-.") then w
      else
        match BindRequest(r) {
          case NotBound(_) => w
          case BoundTo(b) => Operate(crypto, w, id, DoReserve(r.nonce, crypto.hash(r.retryKey), b), fault)
        }
    case Calls(id, q, fault) =>
      if id !in w.objects || !Admitted(w.objects[id], q) then w else Operate(crypto, w, id, q, fault)
    case Peeks(id, fault) =>
      if id !in w.objects then w else Peeking(crypto, w, id, fault)
    case Drops(id) =>
      if id !in w.objects then w else Dropping(w, id)
    case Crashes(left) =>
      if left !in w.view.survivors then w
      else World(View(left, {left}, false), w.legacy, map[], w.next, w.log)
  }

  function Run(crypto: Crypto, w: World, events: seq<Event>): World
    decreases |events|
  {
    if events == [] then w else Run(crypto, Next(crypto, w, events[0]), events[1..])
  }

  lemma {:induction false} RunAppend(crypto: Crypto, w: World, e: seq<Event>, f: seq<Event>)
    ensures Run(crypto, w, e + f) == Run(crypto, Run(crypto, w, e), f)
    decreases |e|
  {
    hide Next;
    if e == [] {
      assert e + f == f;
    } else {
      assert (e + f)[1..] == e[1..] + f;
      RunAppend(crypto, Next(crypto, w, e[0]), e[1..], f);
    }
  }

  // ----- the invariant -----

  ghost predicate StateOk(s: State, log: seq<Fact>) {
    Good(s) && forall f | f in log :: Holds(f, s)
  }

  ghost predicate ContentOk(c: Content, log: seq<Fact>) {
    match c
    case Absent => log == []
    case Garbage => false
    case Snapshot(payload, format, key) => format == FORMAT_VERSION && key != 0 && StateOk(payload, log)
  }

  ghost predicate FileOk(v: View, log: seq<Fact>) {
    v.visible in v.survivors && forall c | c in v.survivors :: ContentOk(c, log)
  }

  ghost predicate Consistent(log: seq<Fact>) {
    forall i, j | 0 <= i < j < |log| :: !Excludes(log[i], log[j])
  }

  /** The content belongs to the object's store, and is at its epoch while the object is active. */
  predicate Serves(h: Handle, c: Content) {
    && c.Snapshot? && c.key == h.key && c.payload.storeId == h.storeId
    && (h.activation.Activated? ==> c.payload.generation == h.epoch)
  }

  ghost predicate ServesAll(h: Handle, contents: set<Content>) {
    forall c | c in contents :: Serves(h, c)
  }

  predicate HandleOk(h: Handle) {
    !h.activation.Activating? && (h.activation.Activated? ==> h.holds) && (h.activation.Inactive? ==> !h.holds)
  }

  /** At most one object holds the instance lock, and the lock is taken exactly while one does. */
  ghost predicate LockOk(objects: map<nat, Handle>, held: bool) {
    && (forall id | id in objects :: HandleOk(objects[id]) && (objects[id].holds ==> held))
    && (forall i, j | i in objects && j in objects && objects[i].holds && objects[j].holds :: i == j)
    && (held ==> exists id :: id in objects && objects[id].holds)
  }

  ghost predicate ObjectsOk(w: World) {
    forall id | id in w.objects :: id < w.next && ServesAll(w.objects[id], w.view.survivors)
  }

  ghost predicate Inv(w: World) {
    && FileOk(w.view, w.log) && Consistent(w.log)
    && LockOk(w.objects, w.view.held) && ObjectsOk(w)
  }

  // ----- one transaction -----

  lemma ExtendConsistent(log: seq<Fact>, more: seq<Fact>)
    requires Consistent(log) && |more| <= 1
    requires forall f, g | f in log && g in more :: !Excludes(f, g)
    ensures Consistent(log + more)
  {
  }

  /** The outcome carries every earlier fact and the ones its reply acknowledges. */
  ghost predicate Sound(s: State, q: Command, o: Outcome, log: seq<Fact>) {
    o.Done? ==>
      && StateOk(o.next, log + FactsOf(q, o.reply)) && Consistent(log + FactsOf(q, o.reply))
      && Provenance(s, q, o) && (!o.changed ==> o.next == s)
  }

  lemma ApplySound(crypto: Crypto, s: State, q: Command, log: seq<Fact>)
    requires StateOk(s, log) && Consistent(log)
    ensures Sound(s, q, Apply(crypto, s, q), log)
  {
    var o := Apply(crypto, s, q);
    ApplyKeeps(crypto, s, q);
    AcknowledgedHolds(crypto, s, q);
    ApplyProvenance(crypto, s, q);
    if o.Done? {
      KeptExtends(s, o);
      forall f | f in log
        ensures Holds(f, o.next) && NothingExcluded(f, o, q)
      {
        HoldsExtends(f, s, o.next);
        AcknowledgedConsistent(crypto, s, q, f);
      }
      AfterOutcome(s, q, log, o);
    }
  }

  lemma KeptExtends(s: State, o: Outcome)
    requires Kept(s, o) && o.Done? && Good(s)
    ensures Extends(s, o.next) && Good(o.next) && (!o.changed ==> o.next == s)
  {
    if o.changed {
      TransitionExtends(s, o.next);
    } else {
      ExtendsRefl(s);
    }
  }

  lemma AfterOutcome(s: State, q: Command, log: seq<Fact>, o: Outcome)
    requires o.Done? && Good(o.next) && (!o.changed ==> o.next == s)
    requires Acknowledges(o, q) && Consistent(log) && Provenance(s, q, o)
    requires forall f | f in log :: Holds(f, o.next) && NothingExcluded(f, o, q)
    ensures Sound(s, q, o, log)
  {
    var more := FactsOf(q, o.reply);
    forall f, g | f in log && g in more
      ensures !Excludes(f, g)
    {
      assert NothingExcluded(f, o, q);
    }
    ExtendConsistent(log, more);
  }

  /** `c` is what a command makes of `before`: the same store, and the same generation but for a restart. */
  predicate Follows(before: Content, c: Content, q: Command) {
    && before.Snapshot? && c.Snapshot? && c.key == before.key && c.payload.storeId == before.payload.storeId
    && c.payload.generation == before.payload.generation + (if q.DoRestart? then 1 else 0)
  }

  ghost predicate Grown(v: View, after: View, q: Command) {
    after.held == v.held && forall c | c in after.survivors :: c in v.survivors || Follows(v.visible, c, q)
  }

  /** What an accepted restart leaves: one content, of the generation it answers. */
  predicate Restarted(after: View, answer: Answer) {
    answer.Ok? ==>
      && after.survivors == {after.visible} && after.visible.Snapshot?
      && answer.reply == Generation(after.visible.payload.generation)
  }

  ghost predicate Carried(v: View, q: Command, log: seq<Fact>, after: View, answer: Answer) {
    && FileOk(after, log + Said(q, answer)) && Consistent(log + Said(q, answer)) && Grown(v, after, q)
    && (q.DoRestart? ==> Restarted(after, answer))
  }

  lemma NextContent(s: State, q: Command, o: Outcome, log: seq<Fact>, key: nat)
    requires Sound(s, q, o, log) && o.Done? && key != 0
    ensures ContentOk(Signed(o.next, key), log + FactsOf(q, o.reply)) && ContentOk(Signed(o.next, key), log)
    ensures Follows(Signed(s, key), Signed(o.next, key), q)
  {
    forall f | f in log
      ensures Holds(f, o.next)
    {
      assert f in log + FactsOf(q, o.reply);
    }
  }

  lemma ConcludeKeeps(v: View, s: State, q: Command, o: Outcome, fits: bool, key: nat, fault: Fault, log: seq<Fact>)
    requires FileOk(v, log) && Consistent(log) && v.visible == Signed(s, key)
    requires Sound(s, q, o, log)
    ensures var (after, answer) := Conclude(Synced(v), o, fits, key, fault); Carried(v, q, log, after, answer)
  {
    hide Consistent, Good;
    var (after, answer) := Conclude(Synced(v), o, fits, key, fault);
    ConcludeAtomic(v, o, fits, key, fault);
    assert ContentOk(v.visible, log);
    if o.Done? {
      NextContent(s, q, o, log, key);
    }
    if answer.Err? {
      assert log + Said(q, answer) == log;
    }
  }

  lemma UntouchedKeeps(v: View, q: Command, log: seq<Fact>, after: View, answer: Answer)
    requires FileOk(v, log) && Consistent(log) && (after == v || after == Synced(v)) && answer.Err?
    ensures Carried(v, q, log, after, answer)
  {
    assert log + Said(q, answer) == log;
  }

  /** One transaction, whatever its faults, keeps the file and the log in agreement. */
  lemma TransactionKeeps(crypto: Crypto, v: View, storeId: Digest, key: nat, q: Command, fault: Fault, log: seq<Fact>)
    requires FileOk(v, log) && Consistent(log)
    ensures var (after, answer) := Transact(crypto, storeId, key, v, q, fault); Carried(v, q, log, after, answer)
  {
    var (after, answer) := Transact(crypto, storeId, key, v, q, fault);
    TransactUnfolds(crypto, storeId, key, v, q, fault);
    if fault.LockFails? || fault.ReadFails? || Load(v.visible, storeId, key).Unreadable? {
      UntouchedKeeps(v, q, log, after, answer);
    } else {
      var s := Load(v.visible, storeId, key).payload;
      LoadedIs(v.visible, storeId, key);
      assert ContentOk(v.visible, log);
      ApplySound(crypto, s, q, log);
      var o := Apply(crypto, s, q);
      ConcludeKeeps(v, s, q, o, OutcomeFits(o), key, fault, log);
    }
  }

  lemma LoadedIs(c: Content, storeId: Digest, key: nat)
    requires Load(c, storeId, key).Loaded?
    ensures c == Signed(Load(c, storeId, key).payload, key) && c.payload.storeId == storeId && Fits(c.payload)
  {
  }

  // ----- every event keeps the invariant -----

  /** The objects after one of them made a transaction that is not a restart. */
  lemma OthersServed(w: World, id: nat, q: Command, after: View, log: seq<Fact>)
    requires Inv(w) && id in w.objects && !q.DoRestart? && Grown(w.view, after, q)
    ensures ObjectsOk(w.(view := after, log := log))
  {
    forall i, c | i in w.objects && c in after.survivors
      ensures Serves(w.objects[i], c)
    {
      assert ServesAll(w.objects[i], w.view.survivors);
      assert Serves(w.objects[i], w.view.visible);
    }
  }

  lemma OperateKeeps(crypto: Crypto, w: World, id: nat, q: Command, fault: Fault)
    requires Inv(w) && id in w.objects && !q.DoRestart?
    ensures Inv(Operate(crypto, w, id, q, fault))
  {
    var h := w.objects[id];
    if h.activation.Activated? {
      TransactionKeeps(crypto, w.view, h.storeId, h.key, q, fault, w.log);
      var (after, answer) := Transact(crypto, h.storeId, h.key, w.view, q, fault);
      OthersServed(w, id, q, after, w.log + Said(q, answer));
    } else {
      assert Operate(crypto, w, id, q, fault) == w by { assert w.log + [] == w.log; }
    }
  }

  lemma PeekKeeps(crypto: Crypto, w: World, id: nat, fault: Fault)
    requires Inv(w) && id in w.objects
    ensures Inv(Peeking(crypto, w, id, fault))
  {
    var h := w.objects[id];
    TransactionKeeps(crypto, w.view, h.storeId, h.key, DoRead, fault, w.log);
    var (after, answer) := Transact(crypto, h.storeId, h.key, w.view, DoRead, fault);
    assert w.log + Said(DoRead, answer) == w.log;
    OthersServed(w, id, DoRead, after, w.log);
  }

  /** Syncing the directory only narrows what a crash may leave. */
  lemma SyncedKeeps(w: World)
    requires Inv(w)
    ensures Inv(w.(view := Synced(w.view)))
  {
    forall id | id in w.objects
      ensures ServesAll(w.objects[id], {w.view.visible})
    {
      assert ServesAll(w.objects[id], w.view.survivors);
    }
  }

  lemma ClaimKeeps(w: World, id: nat, fault: Fault)
    requires Inv(w) && id in w.objects
    ensures Inv(Claiming(w, id, fault))
  {
    hide ContentOk, Consistent;
    var (v, h, answer) := ClaimInstance(w.view, w.objects[id], fault);
    SyncedKeeps(w);
    var objects := w.objects[id := h];
    assert ServesAll(w.objects[id], w.view.survivors);
    assert forall i | i in w.objects && i != id :: objects[i] == w.objects[i];
    assert ObjectsOk(w.(view := v, objects := objects)) by {
      forall i | i in objects
        ensures i < w.next && ServesAll(objects[i], v.survivors)
      {
        assert ServesAll(w.objects[i], w.view.survivors);
      }
    }
    if answer.Ok? {
      assert objects[id].holds;
    }
    assert LockOk(objects, v.held);
  }

  lemma CommitKeepsFile(crypto: Crypto, w: World, id: nat, fault: Fault)
    requires Inv(w) && id in w.objects && MayCommit(w.objects[id])
    ensures var (v, h, answer) := CommitEpoch(crypto, w.view, w.objects[id], fault);
      && FileOk(v, w.log + Said(DoRestart, answer)) && Consistent(w.log + Said(DoRestart, answer))
      && Grown(w.view, v.(held := w.view.held), DoRestart) && Restarted(v, answer)
      && v.held == (answer.Ok? && w.view.held)
      && h == w.objects[id].(activation := if answer.Ok? then Activated else Poisoned, holds := answer.Ok?, epoch := h.epoch)
      && (answer.Ok? ==> h.epoch == v.visible.payload.generation)
  {
    var h := w.objects[id];
    TransactionKeeps(crypto, w.view, h.storeId, h.key, DoRestart, fault, w.log);
  }

  /** While one object commits its epoch no other is active, so the others serve the new content too. */
  lemma CommitServed(w: World, id: nat, after: View, h: Handle, log: seq<Fact>)
    requires Inv(w) && id in w.objects && MayCommit(w.objects[id])
    requires Grown(w.view, after.(held := w.view.held), DoRestart)
    requires h.storeId == w.objects[id].storeId && h.key == w.objects[id].key
    requires h.activation.Activated? ==> after.survivors == {after.visible} && after.visible.Snapshot?
                                         && after.visible.payload.generation == h.epoch
    ensures ObjectsOk(w.(view := after, objects := w.objects[id := h], log := log))
  {
    var objects := w.objects[id := h];
    forall i, c | i in objects && c in after.survivors
      ensures i < w.next && Serves(objects[i], c)
    {
      assert ServesAll(w.objects[i], w.view.survivors);
      assert Serves(w.objects[i], w.view.visible);
      if i != id {
        assert !w.objects[i].activation.Activated?;
      }
    }
  }

  lemma CommitKeepsWorld(crypto: Crypto, w: World, id: nat, fault: Fault)
    requires Inv(w) && id in w.objects && MayCommit(w.objects[id])
    ensures Inv(Committing(crypto, w, id, fault))
  {
    var (v, h, answer) := CommitEpoch(crypto, w.view, w.objects[id], fault);
    CommitKeepsFile(crypto, w, id, fault);
    CommitServed(w, id, v, h, w.log + Said(DoRestart, answer));
    LockAfterCommit(w.objects, w.view.held, id, h);
  }

  lemma LockAfterCommit(objects: map<nat, Handle>, held: bool, id: nat, h: Handle)
    requires LockOk(objects, held) && id in objects && objects[id].holds && HandleOk(h) && !h.activation.Inactive?
    ensures LockOk(objects[id := h], h.holds)
  {
    var after := objects[id := h];
    if h.holds {
      assert after[id].holds;
    }
  }

  lemma DropKeeps(w: World, id: nat)
    requires Inv(w) && id in w.objects
    ensures Inv(Dropping(w, id))
  {
    var v := if w.objects[id].holds then w.view.(held := false) else w.view;
    var objects := w.objects - {id};
    if v.held {
      var i :| i in w.objects && w.objects[i].holds;
      assert i in objects && objects[i].holds;
    }
    assert LockOk(objects, v.held);
  }

  lemma CrashKeeps(w: World, left: Content)
    requires Inv(w) && left in w.view.survivors
    ensures Inv(World(View(left, {left}, false), w.legacy, map[], w.next, w.log))
  {
  }

  lemma AdoptKeeps(w: World, v: View, storeId: Digest, key: nat)
    requires Inv(w.(view := v)) && v.survivors == {v.visible}
    requires Serves(Handle(storeId, key, Inactive, false, 0), v.visible)
    ensures Inv(Adopt(w, v, storeId, key))
  {
    hide ContentOk, Consistent;
    var after := Adopt(w, v, storeId, key);
    if v.held {
      var i :| i in w.objects && w.objects[i].holds;
      assert after.objects[i].holds;
    }
    assert LockOk(after.objects, v.held);
  }

  lemma EmptyStateOk(storeId: Digest)
    ensures StateOk(EmptyState(storeId), [])
  {
    var none: map<string, Lease> := map[];
    var entries: map<Digest, Retry> := map[];
    assert |none| == 0 && |entries| == 0;
    assert Matched(entries, none);
  }

  lemma ObjectSeesFile(w: World, id: nat)
    requires Inv(w)
    ensures id in w.objects ==> Serves(w.objects[id], w.view.visible)
  {
    if id in w.objects {
      assert ServesAll(w.objects[id], w.view.survivors);
    }
  }

  /** An object proves that the file exists, so a file that is missing is still unclaimed. */
  lemma AbsentIsFresh(w: World)
    requires Inv(w) && w.view.visible.Absent?
    ensures w.objects == map[] && w.log == [] && !w.view.held
  {
    assert ContentOk(w.view.visible, w.log);
    forall id: nat
      ensures id !in w.objects
    {
      ObjectSeesFile(w, id);
    }
  }

  lemma FirstWriteKeeps(w: World, v: View, storeId: Digest, key: nat)
    requires Inv(w) && w.view.visible.Absent?
    requires v.visible in v.survivors && v.survivors <= {Absent, Signed(EmptyState(storeId), key)}
    requires v.held == w.view.held && key != 0
    ensures Inv(w.(view := v))
  {
    AbsentIsFresh(w);
    EmptyStateOk(storeId);
  }

  lemma FirstWriteAtomic(v: View, s: State, key: nat, fault: Fault)
    ensures var (after, answer) := FirstWrite(v, s, key, fault);
      && after.held == v.held && after.visible in after.survivors
      && after.survivors <= {v.visible, Signed(s, key)}
      && (answer.Ok? ==> after.survivors == {after.visible} && after.visible == Signed(s, key))
  {
    hide Fits;
    ConcludeAtomic(v, Done(Committed, s, true), Fits(s), key, fault);
  }

  lemma BootstrapKeeps(w: World, storeId: Digest, key: nat, fault: Fault)
    requires Inv(w)
    ensures var (v, answer) := Bootstrapped(w.view, w.legacy, EmptyState(storeId), key, fault);
      Inv(w.(view := v)) && (answer.Ok? ==> v.survivors == {v.visible} && v.visible == Signed(EmptyState(storeId), key))
  {
    var (v, answer) := Bootstrapped(w.view, w.legacy, EmptyState(storeId), key, fault);
    if key == 0 || fault.LockFails? {
      assert w.(view := v) == w;
    } else if fault.ReadFails? || !w.view.visible.Absent? || w.legacy {
      SyncedKeeps(w);
    } else {
      FirstWriteAtomic(w.view, EmptyState(storeId), key, fault);
      FirstWriteKeeps(w, v, storeId, key);
    }
  }

  lemma OpenKeeps(w: World, key: nat, fault: Fault)
    requires Inv(w)
    ensures var (v, loaded) := Opened(w.view, w.legacy, key, fault);
      Inv(w.(view := v)) && (loaded.Loaded? ==> v == Synced(w.view) && v.visible == Signed(loaded.payload, key))
  {
    var (v, loaded) := Opened(w.view, w.legacy, key, fault);
    if key == 0 || fault.LockFails? {
      assert w.(view := v) == w;
    } else {
      SyncedKeeps(w);
      if loaded.Loaded? {
        LoadedIs(w.view.visible, w.view.visible.payload.storeId, key);
      }
    }
  }

  lemma ReserveEventKeeps(crypto: Crypto, w: World, id: nat, r: LeaseRequest, fault: Fault)
    requires Inv(w) && id in w.objects
    ensures BindRequest(r).BoundTo? ==>
      Inv(Operate(crypto, w, id, DoReserve(r.nonce, crypto.hash(r.retryKey), BindRequest(r).binding), fault))
  {
    if BindRequest(r).BoundTo? {
      OperateKeeps(crypto, w, id, DoReserve(r.nonce, crypto.hash(r.retryKey), BindRequest(r).binding), fault);
    }
  }

  /** Every event, with every fault, keeps the invariant. */
  lemma NextKeeps(crypto: Crypto, w: World, e: Event)
    requires Inv(w)
    ensures Inv(Next(crypto, w, e))
  {
    match e
    case Bootstraps(storeId, key, fault) =>
      BootstrapKeeps(w, storeId, key, fault);
      var (v, answer) := Bootstrapped(w.view, w.legacy, EmptyState(storeId), key, fault);
      if answer.Ok? { AdoptKeeps(w, v, storeId, key); }
    case Opens(key, fault) =>
      OpenKeeps(w, key, fault);
      var (v, loaded) := Opened(w.view, w.legacy, key, fault);
      if loaded.Loaded? { AdoptKeeps(w, v, loaded.payload.storeId, key); }
    case Claims(id, fault) => if id in w.objects { ClaimKeeps(w, id, fault); }
    case Commits(id, fault) =>
      if id in w.objects && MayCommit(w.objects[id]) { CommitKeepsWorld(crypto, w, id, fault); }
    case Reserves(id, r, fault) => if id in w.objects { ReserveEventKeeps(crypto, w, id, r, fault); }
    case Calls(id, q, fault) => if id in w.objects && Admitted(w.objects[id], q) { OperateKeeps(crypto, w, id, q, fault); }
    case Peeks(id, fault) => if id in w.objects { PeekKeeps(crypto, w, id, fault); }
    case Drops(id) => if id in w.objects { DropKeeps(w, id); }
    case Crashes(left) => if left in w.view.survivors { CrashKeeps(w, left); }
  }

  lemma StartOk(legacy: bool)
    ensures Inv(Start(legacy))
  {
  }

  lemma {:induction false} RunKeeps(crypto: Crypto, w: World, events: seq<Event>)
    requires Inv(w)
    ensures Inv(Run(crypto, w, events))
    decreases |events|
  {
    if events != [] {
      NextKeeps(crypto, w, events[0]);
      RunKeeps(crypto, Next(crypto, w, events[0]), events[1..]);
    }
  }
}
