/** After any crash the store reopens, starts a new epoch and finishes what was pending. */
module BrokerRecovery {
  import opened Ledger
  import opened LedgerInvariant
  import opened LedgerSize
  import opened Storage
  import opened ReplayStore
  import opened Facts
  import opened BrokerRuns

  // ----- reopening -----

  /** A view that shows and keeps exactly one content. */
  function Settle(c: Content, held: bool): View {
    View(c, {c}, held)
  }

  lemma CleanRead(s: State, key: nat)
    requires Fits(s)
    ensures Load(Signed(s, key), s.storeId, key) == Loaded(s)
  {
    hide Fits;
  }

  /** Without faults an outcome that is computed and fits is written and answered. */
  lemma CleanConclude(v: View, o: Outcome, fits: bool, key: nat)
    requires o.Done? && (o.changed ==> fits)
    ensures Conclude(Synced(v), o, fits, key, NoFault) ==
            (Settle(if o.changed then Signed(o.next, key) else v.visible, v.held), Ok(o.reply))
  {
  }

  lemma CleanTransact(crypto: Crypto, v: View, s: State, key: nat, q: Command, o: Outcome)
    requires v.visible == Signed(s, key) && Fits(s)
    requires o == Apply(crypto, s, q) && o.Done? && (o.changed ==> Fits(o.next))
    ensures Transact(crypto, s.storeId, key, v, q, NoFault) ==
            (Settle(if o.changed then Signed(o.next, key) else v.visible, v.held), Ok(o.reply))
  {
    hide Fits, Apply;
    CleanRead(s, key);
    TransactUnfolds(crypto, s.storeId, key, v, q, NoFault);
    CleanConclude(v, o, OutcomeFits(o), key);
  }

  lemma CleanOpen(v: View, s: State, key: nat, legacy: bool)
    requires v == Settle(Signed(s, key), v.held) && Fits(s) && key != 0
    ensures Opened(v, legacy, key, NoFault) == (v, Loaded(s))
  {
    hide Fits;
    CleanRead(s, key);
  }

  // ----- restarting after a crash -----

  /** A world with one object, on a file that shows and keeps one content. */
  function Alone(w: World, s: State, key: nat, activation: Activation, epoch: nat, log: seq<Fact>): World {
    World(Settle(Signed(s, key), !activation.Inactive?), w.legacy,
          map[w.next := Handle(s.storeId, key, activation, !activation.Inactive?, epoch)], w.next + 1, log)
  }

  lemma CrashAndOpen(crypto: Crypto, w: World, s: State, key: nat)
    requires Signed(s, key) in w.view.survivors && Fits(s) && key != 0
    ensures Next(crypto, Next(crypto, w, Crashes(Signed(s, key))), Opens(key, NoFault)) ==
            Alone(w, s, key, Inactive, 0, w.log)
  {
    hide Fits, Opened;
    var v := Settle(Signed(s, key), false);
    CleanOpen(v, s, key, w.legacy);
    assert Next(crypto, w, Crashes(Signed(s, key))) == World(v, w.legacy, map[], w.next, w.log);
  }

  lemma ClaimAlone(crypto: Crypto, w: World, s: State, key: nat)
    ensures Next(crypto, Alone(w, s, key, Inactive, 0, w.log), Claims(w.next, NoFault)) ==
            Alone(w, s, key, Poisoned, 0, w.log)
  {
    var before, after := Alone(w, s, key, Inactive, 0, w.log), Alone(w, s, key, Poisoned, 0, w.log);
    assert before.objects[w.next := after.objects[w.next]] == after.objects;
  }

  lemma CommitAlone(crypto: Crypto, w: World, s: State, key: nat, o: Outcome)
    requires Fits(s) && o == Restart(crypto, s) && o.Done? && Fits(o.next)
    ensures Next(crypto, Alone(w, s, key, Poisoned, 0, w.log), Commits(w.next, NoFault)) ==
            Alone(w, o.next, key, Activated, s.generation + 1, w.log + [Epoch(s.generation + 1)])
  {
    hide Fits, Transact, RestartedLease;
    var before := Alone(w, s, key, Poisoned, 0, w.log);
    CleanTransact(crypto, before.view, s, key, DoRestart, o);
    var h := Handle(s.storeId, key, Activated, true, s.generation + 1);
    assert before.objects[w.next := h] == map[w.next := h];
  }

  /** Opening, claiming and committing an epoch, after a crash that left `s`. */
  function RestartEvents(s: State, key: nat, id: nat): seq<Event> {
    [Crashes(Signed(s, key)), Opens(key, NoFault), Claims(id, NoFault), Commits(id, NoFault)]
  }

  lemma RunFour(crypto: Crypto, w: World, e: seq<Event>)
    requires |e| == 4
    ensures Run(crypto, w, e) == Next(crypto, Next(crypto, Next(crypto, Next(crypto, w, e[0]), e[1]), e[2]), e[3])
  {
    hide Next;
    var w1 := Next(crypto, w, e[0]);
    var w2 := Next(crypto, w1, e[1]);
    var w3 := Next(crypto, w2, e[2]);
    assert e[1..][1..] == e[2..] && e[2..][1..] == e[3..] && e[3..][1..] == [];
    assert Run(crypto, w3, e[3..]) == Next(crypto, w3, e[3]);
    assert Run(crypto, w2, e[2..]) == Run(crypto, w3, e[3..]);
    assert Run(crypto, w1, e[1..]) == Run(crypto, w2, e[2..]);
  }

  /** The state the next epoch starts with. */
  function AfterRestart(crypto: Crypto, s: State): (t: State)
    requires s.generation < U64_MAX && s.sequence < U64_MAX
    ensures Restart(crypto, s) == Done(Generation(s.generation + 1), t, true)
  {
    Restart(crypto, s).next
  }

  /** Whatever a crash leaves, the store reopens with its key and starts the next epoch, unless its
      generation or its sequence is used up. */
  lemma RestartSucceeds(crypto: Crypto, w: World, s: State, key: nat)
    requires Inv(w) && Signed(s, key) in w.view.survivors && Fits(s)
    requires s.generation < U64_MAX && s.sequence < U64_MAX
    ensures Run(crypto, w, RestartEvents(s, key, w.next)) ==
            Alone(w, AfterRestart(crypto, s), key, Activated, s.generation + 1, w.log + [Epoch(s.generation + 1)])
  {
    hide Fits, Next, RestartedLease, Alone;
    assert ContentOk(Signed(s, key), w.log);
    var o := Restart(crypto, s);
    RestartFits(crypto, s);
    CrashAndOpen(crypto, w, s, key);
    ClaimAlone(crypto, w, s, key);
    CommitAlone(crypto, w, s, key, o);
    RunFour(crypto, w, RestartEvents(s, key, w.next));
  }

  // ----- finishing what was pending -----

  lemma CallAlone(crypto: Crypto, w: World, s: State, key: nat, epoch: nat, log: seq<Fact>, q: Command, o: Outcome)
    requires Fits(s) && o == Apply(crypto, s, q) && o.Done? && (o.changed ==> Fits(o.next)) && (!o.changed ==> o.next == s)
    requires o.next.storeId == s.storeId && Admitted(Handle(s.storeId, key, Activated, true, epoch), q)
    ensures Next(crypto, Alone(w, s, key, Activated, epoch, log), Calls(w.next, q, NoFault)) ==
            Alone(w, o.next, key, Activated, epoch, log + FactsOf(q, o.reply))
  {
    hide Fits, Transact, Apply;
    CleanTransact(crypto, Alone(w, s, key, Activated, epoch, log).view, s, key, q, o);
  }

  /** The token a broker gets for a use that was left completing. */
  function TokenFor(s: State, key: nat, leaseId: string, use: Digest): Witness
    requires leaseId in s.leases && use in s.leases[leaseId].uses && s.leases[leaseId].uses[use].Completing?
  {
    var u := s.leases[leaseId].uses[use];
    Witness(leaseId, s.leases[leaseId].generation, use, u.record, u.disposition, Seal(s.storeId, key))
  }

  function Resuming(t: Witness): Command {
    DoResume(t.leaseId, t.use, t.record, t.disposition, t.seal)
  }

  lemma CompletionReplies(s: State, key: nat, leaseId: string, use: Digest)
    requires leaseId in s.leases && use in s.leases[leaseId].uses && s.leases[leaseId].uses[use].Completing?
    requires s.sequence < U64_MAX
    ensures var token := TokenFor(s, key, leaseId, use);
      var resumed := ResumeCompletion(s, leaseId, use, token.record, token.disposition, token.seal);
      var committed := CommitCompletion(s, token);
      && resumed == Done(CompletionResumed(token), s, false)
      && committed.Done? && committed.reply == Committed && committed.changed
      && committed.next.storeId == s.storeId && leaseId in committed.next.leases
      && use in committed.next.leases[leaseId].uses
      && committed.next.leases[leaseId].uses[use] == Terminal(token.record, token.disposition)
  {
  }

  lemma ResumeAlone(crypto: Crypto, w: World, s: State, key: nat, epoch: nat, log: seq<Fact>, token: Witness)
    requires Fits(s) && token.seal == Seal(s.storeId, key)
    requires Apply(crypto, s, Resuming(token)) == Done(CompletionResumed(token), s, false)
    ensures Next(crypto, Alone(w, s, key, Activated, epoch, log), Calls(w.next, Resuming(token), NoFault)) ==
            Alone(w, s, key, Activated, epoch, log)
  {
    hide Fits, Alone, Next, Apply;
    CallAlone(crypto, w, s, key, epoch, log, Resuming(token), Done(CompletionResumed(token), s, false));
    assert log + [] == log;
  }

  lemma ResumeAndCommit(crypto: Crypto, w: World, s: State, key: nat, epoch: nat, log: seq<Fact>,
                        leaseId: string, use: Digest, token: Witness, end: State)
    requires Fits(s) && s.generation <= U64_MAX && s.sequence < U64_MAX
    requires leaseId in s.leases && use in s.leases[leaseId].uses && s.leases[leaseId].uses[use].Completing?
    requires token == TokenFor(s, key, leaseId, use) && CommitCompletion(s, token) == Done(Committed, end, true)
    ensures UseIs(end, leaseId, use, Terminal(token.record, token.disposition))
    ensures Next(crypto, Next(crypto, Alone(w, s, key, Activated, epoch, log), Calls(w.next, Resuming(token), NoFault)),
                 Calls(w.next, DoCommit(token), NoFault)) ==
            Alone(w, end, key, Activated, epoch, log + [Closed(token)])
  {
    hide Fits, Alone, Next, CommitCompletion, ResumeCompletion;
    CompletionReplies(s, key, leaseId, use);
    ResumeAlone(crypto, w, s, key, epoch, log, token);
    CommitFits(s, token);
    CallAlone(crypto, w, s, key, epoch, log, DoCommit(token), CommitCompletion(s, token));
  }

  lemma RunTwo(crypto: Crypto, w: World, e: Event, f: Event)
    ensures Run(crypto, w, [e, f]) == Next(crypto, Next(crypto, w, e), f)
  {
    hide Next;
    assert [e, f][1..] == [f] && [f][1..] == [];
    assert Run(crypto, Next(crypto, w, e), [f]) == Next(crypto, Next(crypto, w, e), f);
  }

  /** A completion that was pending when the machine went down reaches its own end: after any crash
      the store reopens, starts an epoch, resumes exactly that completion and commits it. */
  lemma PendingIsFinished(crypto: Crypto, w: World, s: State, key: nat, leaseId: string, use: Digest)
    requires Inv(w) && Signed(s, key) in w.view.survivors && Fits(s)
    requires s.generation < U64_MAX && s.sequence + 1 < U64_MAX
    requires leaseId in s.leases && use in s.leases[leaseId].uses && s.leases[leaseId].uses[use].Completing?
    ensures var token := TokenFor(s, key, leaseId, use);
      var after := Run(crypto, w, RestartEvents(s, key, w.next) +
                                  [Calls(w.next, Resuming(token), NoFault), Calls(w.next, DoCommit(token), NoFault)]);
      && after.log == w.log + [Epoch(s.generation + 1)] + [Closed(token)]
      && after.view.survivors == {after.view.visible} && after.view.visible.Snapshot?
      && UseIs(after.view.visible.payload, leaseId, use, Terminal(token.record, token.disposition))
  {
    hide Fits, Next, Restart, Alone, Inv, Good, CommitCompletion, RestartEvents;
    var token := TokenFor(s, key, leaseId, use);
    RestartKeepsLease(crypto, s, leaseId, use);
    var t := AfterRestart(crypto, s);
    RestartFits(crypto, s);
    RestartSucceeds(crypto, w, s, key);
    var log := w.log + [Epoch(s.generation + 1)];
    CompletionReplies(t, key, leaseId, use);
    var end := CommitCompletion(t, token).next;
    ResumeAndCommit(crypto, w, t, key, s.generation + 1, log, leaseId, use, token, end);
    var resume, commit := Calls(w.next, Resuming(token), NoFault), Calls(w.next, DoCommit(token), NoFault);
    RunAppend(crypto, w, RestartEvents(s, key, w.next), [resume, commit]);
    RunTwo(crypto, Run(crypto, w, RestartEvents(s, key, w.next)), resume, commit);
    AloneShows(w, end, key, s.generation + 1, log + [Closed(token)]);
  }

  lemma RestartKeepsLease(crypto: Crypto, s: State, leaseId: string, use: Digest)
    requires leaseId in s.leases && use in s.leases[leaseId].uses && s.leases[leaseId].uses[use].Completing?
    requires s.generation < U64_MAX && s.sequence < U64_MAX
    ensures Restart(crypto, s).Done?
    ensures var t := Restart(crypto, s).next;
      && t.storeId == s.storeId && t.generation == s.generation + 1 && t.sequence == s.sequence + 1
      && leaseId in t.leases && t.leases[leaseId].generation == s.leases[leaseId].generation
      && use in t.leases[leaseId].uses && t.leases[leaseId].uses[use] == s.leases[leaseId].uses[use]
  {
  }

  lemma AloneShows(w: World, s: State, key: nat, epoch: nat, log: seq<Fact>)
    ensures var a := Alone(w, s, key, Activated, epoch, log);
      a.log == log && a.view.survivors == {a.view.visible} && a.view.visible == Signed(s, key)
  {
  }
}
