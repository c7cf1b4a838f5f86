/** Who acknowledged each fact of a run, and what its caller had passed. */
module BrokerHistory {
  import opened Ledger
  import opened LedgerAnswers
  import opened LedgerSize
  import opened Storage
  import opened StoreAnswers
  import opened ReplayStore
  import opened Facts
  import opened BrokerContents
  import opened BrokerRuns
  import opened BrokerSafety

  // ----- objects without an epoch -----

  predicate Active(w: World, id: nat) {
    id in w.objects && w.objects[id].activation == Activated
  }

  /** Without an active epoch an operation neither touches the file nor tells anyone anything. */
  lemma InactiveIsInert(crypto: Crypto, w: World, e: Event)
    requires (e.Reserves? || e.Calls?) && !Active(w, e.id)
    ensures Next(crypto, w, e) == w
  {
    hide Transact;
    assert w.log + [] == w.log;
  }

  lemma ActivatesOnlyByCommit(crypto: Crypto, w: World, e: Event, id: nat)
    requires Inv(w) && id < w.next && !Active(w, id)
    requires e.Commits? ==> e.id != id || (id in w.objects ==> Dead(w.objects[id]))
    ensures var after := Next(crypto, w, e); id < after.next && !Active(after, id)
  {
    hide Transact, Bootstrapped, Opened, BindRequest, ContentOk, Consistent;
  }

  /** An object that commits no epoch, because it never tries or because it is poisoned and has lost
      its claim, leaves file and log alone whenever it is used, in every run. */
  lemma {:induction false} WithoutEpochInert(crypto: Crypto, w: World, events: seq<Event>, e: Event)
    requires Inv(w) && (e.Reserves? || e.Calls?) && e.id < w.next && !Active(w, e.id)
    requires (e.id in w.objects ==> Dead(w.objects[e.id])) || forall c | c in events && c.Commits? :: c.id != e.id
    ensures var after := Run(crypto, w, events); Next(crypto, after, e) == after
    decreases |events|
  {
    hide Next, Inv;
    if events == [] {
      InactiveIsInert(crypto, w, e);
    } else {
      assert events[0] in events && forall c | c in events[1..] :: c in events;
      NextKeeps(crypto, w, events[0]);
      NextStaysDead(crypto, w, events[0], e.id);
      ActivatesOnlyByCommit(crypto, w, events[0], e.id);
      WithoutEpochInert(crypto, Next(crypto, w, events[0]), events[1..], e);
    }
  }

  // ----- what an accepted command says -----

  /** What is acknowledged to the caller of a command, of a store at `s`, by what the caller passed. */
  predicate SaidOf(s: State, q: Command, f: Fact) {
    match f
    case Leased(nonce, leaseId) =>
      && q.DoReserve? && nonce == q.nonce && leaseId == q.binding.leaseId && q.binding.generation == s.generation
    case Minted(p) =>
      && q.DoBeginUse? && p.leaseId == q.leaseId && p.use == q.use && p.seal == q.seal
      && p.generation == s.generation && p.terms.constraints.time.notBefore <= q.now < p.terms.constraints.time.expiresAt
    case Pending(t) =>
      && q.DoBeginCompletion? && q.permit.generation == s.generation
      && TokenIs(t, q.permit.leaseId, q.permit.generation, q.permit.use, q.record, q.disposition, q.permit.seal)
    case Closed(t) => q == DoCommit(t)
    case Fenced(leaseId) => q == DoRevoke(leaseId)
    case Epoch(generation) => q == DoRestart && generation == s.generation + 1
  }

  predicate SaysOnly(s: State, q: Command, o: Outcome) {
    o.Done? ==> FactsOf(q, o.reply) == [] || (|FactsOf(q, o.reply)| == 1 && SaidOf(s, q, FactsOf(q, o.reply)[0]))
  }

  lemma CommandSays(crypto: Crypto, s: State, q: Command)
    ensures SaysOnly(s, q, Apply(crypto, s, q))
  {
    hide Restart, Reserve, Revoke, BeginUse, BeginCompletion, ResumeCompletion, CommitCompletion;
    if Apply(crypto, s, q).Done? {
      match q
      case DoRestart => RestartAnswers(crypto, s);
      case DoReserve(nonce, retry, b) =>
        ReserveAnswers(crypto, s, nonce, retry, b);
        ReserveLeaves(crypto, s, nonce, retry, b);
      case DoBeginUse(leaseId, use, now, seal) =>
        BeginUseAnswers(s, leaseId, use, now, seal);
        BeginUseLeaves(s, leaseId, use, now, seal);
      case DoBeginCompletion(p, record, d) =>
        BeginCompletionAnswers(s, p, record, d);
        BeginCompletionLeaves(s, p, record, d);
      case _ =>
    }
  }

  lemma OkIsComputed(crypto: Crypto, v: View, storeId: Digest, key: nat, q: Command, fault: Fault)
    ensures var answer := Transact(crypto, storeId, key, v, q, fault).1;
      answer.Ok? ==> v.visible.Snapshot? && Apply(crypto, v.visible.payload, q).Done?
                     && answer.reply == Apply(crypto, v.visible.payload, q).reply
  {
    hide Apply, Load, Transact, Conclude, Fits;
    BlockedAnswers(crypto, storeId, key, v, q, fault);
    LoadAnswers(v.visible, storeId, key);
    if fault !in {LockFails, ReadFails} && Load(v.visible, storeId, key).Loaded? {
      ComputedAnswers(crypto, storeId, key, v, q, fault);
      var o := Apply(crypto, v.visible.payload, q);
      ConcludeAnswers(v, o, o.Done? && Fits(o.next), key, fault);
    }
  }

  /** What a transaction lets its caller be told. */
  predicate Says(v: View, q: Command, answer: Answer) {
    Said(q, answer) == []
    || (v.visible.Snapshot? && |Said(q, answer)| == 1 && SaidOf(v.visible.payload, q, Said(q, answer)[0]))
  }

  lemma TransactSays(crypto: Crypto, v: View, storeId: Digest, key: nat, q: Command, fault: Fault)
    ensures Says(v, q, Transact(crypto, storeId, key, v, q, fault).1)
  {
    hide Apply, Transact, FactsOf, SaidOf;
    OkIsComputed(crypto, v, storeId, key, q, fault);
    if Transact(crypto, storeId, key, v, q, fault).1.Ok? {
      CommandSays(crypto, v.visible.payload, q);
    }
  }

  /** An epoch is started exactly when the restart is written: the object is then active at the next
      generation and keeps the instance lock. Otherwise it stays as it is without the lock, which is free. */
  lemma EpochAnswers(crypto: Crypto, v: View, h: Handle, fault: Fault)
    ensures var (after, g, answer) := CommitEpoch(crypto, v, h, fault);
      var (written, restarted) := Transact(crypto, h.storeId, h.key, v, DoRestart, fault);
      && answer == restarted
      && (answer.Ok? ==>
          && after == written && v.visible.Snapshot?
          && g == h.(activation := Activated, epoch := v.visible.payload.generation + 1)
          && answer == Ok(Generation(v.visible.payload.generation + 1)))
      && (answer.Err? ==> after == written.(held := false) && g == h.(holds := false))
  {
    hide Transact, Apply;
    OkIsComputed(crypto, v, h.storeId, h.key, DoRestart, fault);
    if Transact(crypto, h.storeId, h.key, v, DoRestart, fault).1.Ok? {
      ApplyRestart(crypto, v.visible.payload);
    }
  }

  lemma ApplyRestart(crypto: Crypto, s: State)
    ensures var o := Apply(crypto, s, DoRestart); o.Done? ==> o.reply == Generation(s.generation + 1)
  {
    hide Restart;
    RestartAnswers(crypto, s);
  }

  // ----- the events behind the facts of a run -----

  /** The object has an active epoch, and its start was acknowledged before. */
  predicate Acting(w: World, id: nat) {
    Active(w, id) && Epoch(w.objects[id].epoch) in w.log
  }

  /** What this event, made in `w`, let its caller be told: by which object, and for which arguments. */
  predicate Acknowledged(w: World, e: Event, f: Fact) {
    match f
    case Epoch(generation) =>
      && e.Commits? && e.id in w.objects && w.objects[e.id].activation == Poisoned && w.objects[e.id].holds
      && w.view.visible.Snapshot? && generation == w.view.visible.payload.generation + 1
    case Leased(nonce, leaseId) =>
      && e.Reserves? && Acting(w, e.id)
      && nonce == e.request.nonce && leaseId == e.request.leaseId && e.request.generation == w.objects[e.id].epoch
    case Minted(p) =>
      && e.Calls? && e.command.DoBeginUse? && Acting(w, e.id)
      && p.leaseId == e.command.leaseId && p.use == e.command.use
      && p.generation == w.objects[e.id].epoch && p.seal == Seal(w.objects[e.id].storeId, w.objects[e.id].key)
      && p.terms.constraints.time.notBefore <= e.command.now < p.terms.constraints.time.expiresAt
    case Pending(t) =>
      && e.Calls? && e.command.DoBeginCompletion? && Acting(w, e.id)
      && var p := e.command.permit;
         && t.leaseId == p.leaseId && t.use == p.use && t.generation == p.generation == w.objects[e.id].epoch
         && t.record == e.command.record && t.disposition == e.command.disposition
         && t.seal == p.seal == Seal(w.objects[e.id].storeId, w.objects[e.id].key)
    case Closed(t) =>
      && e.Calls? && e.command == DoCommit(t) && Acting(w, e.id)
      && t.seal == Seal(w.objects[e.id].storeId, w.objects[e.id].key)
    case Fenced(leaseId) => e.Calls? && e.command == DoRevoke(leaseId) && Acting(w, e.id)
  }

  /** An active object has acknowledged its own epoch. */
  ghost predicate Announced(w: World) {
    forall id | Active(w, id) :: Acting(w, id)
  }

  ghost predicate Told(w: World, e: Event, after: World) {
    || after.log == w.log
    || (|after.log| == |w.log| + 1 && after.log[..|w.log|] == w.log && Acknowledged(w, e, after.log[|w.log|]))
  }

  lemma AppendSaid(w: World, e: Event, after: World, said: seq<Fact>)
    requires after.log == w.log + said && (said == [] || (|said| == 1 && Acknowledged(w, e, said[0])))
    ensures Told(w, e, after)
  {
  }

  /** The command that an event asks of its object. */
  predicate Asks(crypto: Crypto, e: Event, q: Command) {
    || (e.Calls? && q == e.command)
    || (e.Reserves? && BindRequest(e.request).BoundTo?
        && q == DoReserve(e.request.nonce, crypto.hash(e.request.retryKey), BindRequest(e.request).binding))
  }

  lemma OperateTells(crypto: Crypto, w: World, e: Event, q: Command)
    requires Inv(w) && Announced(w) && (e.Calls? || e.Reserves?) && e.id in w.objects && Asks(crypto, e, q)
    requires e.Calls? ==> Admitted(w.objects[e.id], q)
    ensures Told(w, e, Operate(crypto, w, e.id, q, e.fault))
  {
    hide Transact, ContentOk, Consistent, BindRequest;
    var h := w.objects[e.id];
    if Active(w, e.id) {
      assert Acting(w, e.id);
      ObjectSeesFile(w, e.id);
      TransactSays(crypto, w.view, h.storeId, h.key, q, e.fault);
      var said := Said(q, Transact(crypto, h.storeId, h.key, w.view, q, e.fault).1);
      if e.Reserves? { BoundNames(e.request); }
      AppendSaid(w, e, Operate(crypto, w, e.id, q, e.fault), said);
    } else {
      assert w.log + [] == w.log;
    }
  }

  lemma CommitTells(crypto: Crypto, w: World, e: Event)
    requires e.Commits? && e.id in w.objects && MayCommit(w.objects[e.id])
    ensures Told(w, e, Committing(crypto, w, e.id, e.fault))
  {
    hide Transact, FactsOf;
    var h := w.objects[e.id];
    TransactSays(crypto, w.view, h.storeId, h.key, DoRestart, e.fault);
    var said := Said(DoRestart, Transact(crypto, h.storeId, h.key, w.view, DoRestart, e.fault).1);
    AppendSaid(w, e, Committing(crypto, w, e.id, e.fault), said);
  }

  /** An event tells its caller nothing, or one fact that it had asked for. */
  lemma NextTells(crypto: Crypto, w: World, e: Event)
    requires Inv(w) && Announced(w)
    ensures Told(w, e, Next(crypto, w, e))
  {
    hide Operate, Committing, Bootstrapped, Opened, Transact, Inv, Announced, Acknowledged, BindRequest;
    match e
    case Reserves(id, r, fault) =>
      if id in w.objects && BindRequest(r).BoundTo? {
        OperateTells(crypto, w, e, DoReserve(r.nonce, crypto.hash(r.retryKey), BindRequest(r).binding));
      }
    case Calls(id, q, fault) => if id in w.objects && Admitted(w.objects[id], q) { OperateTells(crypto, w, e, q); }
    case Commits(id, fault) => if id in w.objects && MayCommit(w.objects[id]) { CommitTells(crypto, w, e); }
    case _ =>
  }

  /** Nobody's activation changes but that of an object that commits an epoch, which then is in the log. */
  ghost predicate Promoted(w: World, after: World) {
    && w.log <= after.log
    && forall id | Active(after, id) ::
         (Active(w, id) && after.objects[id].epoch == w.objects[id].epoch) || Epoch(after.objects[id].epoch) in after.log
  }

  lemma PromotedKeeps(w: World, after: World)
    requires Announced(w) && Promoted(w, after)
    ensures Announced(after)
  {
    forall id | Active(after, id)
      ensures Acting(after, id)
    {
      if Active(w, id) { assert Acting(w, id); }
    }
  }

  lemma CommitPromotes(crypto: Crypto, w: World, id: nat, fault: Fault)
    requires Inv(w) && id in w.objects && MayCommit(w.objects[id])
    ensures Promoted(w, Committing(crypto, w, id, fault))
  {
    hide Transact, ContentOk, Consistent, ObjectsOk;
    CommitKeepsFile(crypto, w, id, fault);
  }

  lemma NextPromotes(crypto: Crypto, w: World, e: Event)
    requires Inv(w)
    ensures Promoted(w, Next(crypto, w, e))
  {
    hide Committing, Transact, Bootstrapped, Opened, Inv, BindRequest, FactsOf;
    if e.Commits? && e.id in w.objects && MayCommit(w.objects[e.id]) {
      CommitPromotes(crypto, w, e.id, e.fault);
    }
  }

  lemma {:induction false} RunAnnounces(crypto: Crypto, w: World, events: seq<Event>)
    requires Inv(w) && Announced(w)
    ensures Announced(Run(crypto, w, events))
    decreases |events|
  {
    hide Next, Inv, Announced;
    if events != [] {
      NextKeeps(crypto, w, events[0]);
      NextPromotes(crypto, w, events[0]);
      PromotedKeeps(w, Next(crypto, w, events[0]));
      RunAnnounces(crypto, Next(crypto, w, events[0]), events[1..]);
    }
  }

  /** The `k`th event of the run acknowledged the `i`th fact: all earlier facts came before it. */
  predicate Behind(crypto: Crypto, legacy: bool, events: seq<Event>, k: nat, i: nat) {
    && k < |events| && i < |Reach(crypto, legacy, events).log|
    && Reach(crypto, legacy, events[..k]).log == Reach(crypto, legacy, events).log[..i]
    && Acknowledged(Reach(crypto, legacy, events[..k]), events[k], Reach(crypto, legacy, events).log[i])
  }

  lemma LastStep(crypto: Crypto, legacy: bool, events: seq<Event>)
    requires events != []
    ensures var before := Reach(crypto, legacy, events[..|events| - 1]); var e := events[|events| - 1];
      && Reach(crypto, legacy, events) == Next(crypto, before, e)
      && Told(before, e, Reach(crypto, legacy, events))
  {
    hide Next, Told, Inv;
    var pre, e := events[..|events| - 1], events[|events| - 1];
    assert events == pre + [e];
    RunAppend(crypto, Start(legacy), pre, [e]);
    var before := Reach(crypto, legacy, pre);
    assert Run(crypto, before, [e]) == Next(crypto, before, e) by { assert [e][1..] == []; }
    Reachable(crypto, legacy, pre);
    StartOk(legacy);
    RunAnnounces(crypto, Start(legacy), pre);
    NextTells(crypto, before, e);
  }

  lemma BehindPrefix(crypto: Crypto, legacy: bool, events: seq<Event>, k: nat, i: nat)
    requires events != [] && Behind(crypto, legacy, events[..|events| - 1], k, i)
    ensures Behind(crypto, legacy, events, k, i)
  {
    hide Reach, Acknowledged;
    LastStep(crypto, legacy, events);
    var pre := events[..|events| - 1];
    assert pre[..k] == events[..k];
    assert Reach(crypto, legacy, pre).log == Reach(crypto, legacy, events).log[..|Reach(crypto, legacy, pre).log|];
  }

  /** Every fact of a run goes back to one of its events: made by an object whose own epoch is among
      the earlier facts, for exactly the arguments its caller passed. */
  lemma {:induction false} FactOrigin(crypto: Crypto, legacy: bool, events: seq<Event>, i: nat)
    requires i < |Reach(crypto, legacy, events).log|
    ensures exists k :: Behind(crypto, legacy, events, k, i)
    decreases |events|
  {
    hide Reach, Acknowledged;
    if events == [] {
      assert Reach(crypto, legacy, events) == Start(legacy) by { NothingYet(crypto, legacy); }
    } else {
      LastStep(crypto, legacy, events);
      var pre, last := events[..|events| - 1], |events| - 1;
      var before, after := Reach(crypto, legacy, pre), Reach(crypto, legacy, events);
      if i < |before.log| {
        FactOrigin(crypto, legacy, pre, i);
        var k :| Behind(crypto, legacy, pre, k, i);
        BehindPrefix(crypto, legacy, events, k, i);
      } else {
        assert Behind(crypto, legacy, events, last, i);
      }
    }
  }

  lemma NothingYet(crypto: Crypto, legacy: bool)
    ensures Reach(crypto, legacy, []) == Start(legacy)
  {
  }

  /** A pending completion that was acknowledged was asked for with exactly its record and disposition. */
  lemma PendingOrigin(crypto: Crypto, legacy: bool, events: seq<Event>, t: Witness)
    requires Pending(t) in Reach(crypto, legacy, events).log
    ensures exists k | 0 <= k < |events| ::
      && events[k].Calls? && events[k].command.DoBeginCompletion?
      && events[k].command.record == t.record && events[k].command.disposition == t.disposition
      && events[k].command.permit.leaseId == t.leaseId && events[k].command.permit.use == t.use
  {
    hide Reach;
    var i :| 0 <= i < |Reach(crypto, legacy, events).log| && Reach(crypto, legacy, events).log[i] == Pending(t);
    FactOrigin(crypto, legacy, events, i);
    var k :| Behind(crypto, legacy, events, k, i);
  }

  /** The generation an active object answers is the one its own epoch started with. */
  lemma ActiveReads(crypto: Crypto, legacy: bool, events: seq<Event>, id: nat, fault: Fault)
    requires Active(Reach(crypto, legacy, events), id)
    ensures var w := Reach(crypto, legacy, events);
      Guarded(crypto, w.view, w.objects[id], DoRead, fault).1 ==
      if fault in {LockFails, ReadFails} then Err(Io) else Ok(Generation(w.objects[id].epoch))
  {
    hide Reach, Transact, Load, Fits, Conclude, StateOk, Consistent;
    var w := Reach(crypto, legacy, events);
    var h := w.objects[id];
    Reachable(crypto, legacy, events);
    ObjectSeesFile(w, id);
    assert ContentOk(w.view.visible, w.log);
    ReachableFits(crypto, legacy, events, w.view.visible);
    BlockedAnswers(crypto, h.storeId, h.key, w.view, DoRead, fault);
    LoadAnswers(w.view.visible, h.storeId, h.key);
    if fault !in {LockFails, ReadFails} {
      ComputedAnswers(crypto, h.storeId, h.key, w.view, DoRead, fault);
      ConcludeAnswers(w.view, Apply(crypto, w.view.visible.payload, DoRead), true, h.key, fault);
    }
  }
}
