/** Memory and the durable store never drift apart by more than one transition. */
module Durability {
  import opened Config
  import opened Domain
  import opened Rules
  import opened Invariant
  import opened Runs
  import opened Engine
  import opened Store
  import opened Runtime

  // ---- the invariant ----------------------------------------------------------

  ghost predicate StepsTo(cfg: ValidConfig, s: State, i: Input, t: State) {
    var r := Apply(cfg, s, i.actor, i.action, i.dice);
    r.Ok? && r.value.next == t
  }

  /** The store holds one engine transition more than memory. */
  ghost predicate Ahead(cfg: ValidConfig, m: LiveMatch) {
    exists i: Input :: StepsTo(cfg, m.mem, i, m.db.state)
  }

  predicate InSync(m: LiveMatch) { m.mem == m.db.state }

  /** Exactly the ticks up to the cursor are logged. */
  ghost predicate Rowed(db: Database) {
    && db.cursor == db.state.tick
    && (forall k :: k in db.rows ==> 1 <= k.tick <= db.cursor)
    && forall t :: 1 <= t <= db.cursor ==> Key(t, 0) in db.rows
  }

  ghost predicate HistoryLogged(m: LiveMatch) {
    forall e :: e in m.history ==> EventLogged(m.db, e)
  }

  ghost predicate EventLogged(db: Database, e: Event) {
    exists i :: Key(e.tick, i) in db.rows && db.rows[Key(e.tick, i)] == e.fact
  }

  ghost predicate Durable(cfg: ValidConfig, m: LiveMatch) {
    && Inv(cfg, m.mem) && Inv(cfg, m.db.state)
    && Rowed(m.db) && HistoryLogged(m)
    && (InSync(m) || Ahead(cfg, m))
  }

  // ---- one commit -------------------------------------------------------------

  /** While the store is ahead, every commit memory attempts is refused. */
  lemma {:induction false} NoCommitWhileAhead(cfg: ValidConfig, m: LiveMatch, i: Input, seat: Option<SeatRow>, outcome: Outcome)
    requires Durable(cfg, m) && !InSync(m)
    requires Apply(cfg, m.mem, i.actor, i.action, i.dice).Ok?
    ensures var t := Apply(cfg, m.mem, i.actor, i.action, i.dice).value;
            Commit(m.db, t.next, Stamped(t.facts, t.next.tick), seat, outcome) == Committed(m.db, false)
  {
    hide Inv, Apply;
    var t := Apply(cfg, m.mem, i.actor, i.action, i.dice).value;
    var j: Input :| StepsTo(cfg, m.mem, j, m.db.state);
    AcceptedExplains(cfg, m.mem, i.actor, i.action, i.dice);
    AcceptedExplains(cfg, m.mem, j.actor, j.action, j.dice);
    RepeatedTickRefused(m.db.rows, Stamped(t.facts, t.next.tick));
  }

  /** In step with the store, a commit goes through exactly as its outcome says. */
  lemma {:induction false} CommitInSync(cfg: ValidConfig, m: LiveMatch, i: Input, seat: Option<SeatRow>, outcome: Outcome)
    requires Durable(cfg, m) && InSync(m)
    requires Apply(cfg, m.mem, i.actor, i.action, i.dice).Ok?
    ensures var t := Apply(cfg, m.mem, i.actor, i.action, i.dice).value;
            var events := Stamped(t.facts, t.next.tick);
            var c := Commit(m.db, t.next, events, seat, outcome);
            && c.ok == (outcome == Succeeds)
            && (outcome == Fails ==> c.db == m.db)
            && (outcome != Fails ==> c.db.state == t.next && Rowed(c.db) && Logged(c.db.rows, events))
            && Extends(m.db.rows, c.db.rows)
  {
    hide Inv, Apply;
    var t := Apply(cfg, m.mem, i.actor, i.action, i.dice).value;
    var events := Stamped(t.facts, t.next.tick);
    AcceptedExplains(cfg, m.mem, i.actor, i.action, i.dice);
    FreshTickAccepted(m.db.rows, events, t.next.tick);
    InsertAddsExactly(m.db.rows, events);
    assert Key(events[0].tick, 0) in InsertEvents(m.db.rows, events).value;
  }

  lemma {:induction false} StillLogged(m: LiveMatch, db: Database)
    requires HistoryLogged(m) && Extends(m.db.rows, db.rows)
    ensures forall e :: e in m.history ==> EventLogged(db, e)
  {
    forall e | e in m.history ensures EventLogged(db, e) {
      assert EventLogged(m.db, e);
      var i :| Key(e.tick, i) in m.db.rows && m.db.rows[Key(e.tick, i)] == e.fact;
      assert Key(e.tick, i) in db.rows;
    }
  }

  lemma {:induction false} LoggedEvents(db: Database, events: seq<Event>)
    requires Logged(db.rows, events)
    ensures forall e :: e in events ==> EventLogged(db, e)
  {
    forall e | e in events ensures EventLogged(db, e) {
      var i :| 0 <= i < |events| && events[i] == e;
      assert Key(e.tick, i) in db.rows;
    }
  }

  lemma {:induction false} InstalledLogged(m: LiveMatch, events: seq<Event>, db: Database)
    requires forall e :: e in m.history ==> EventLogged(db, e)
    requires forall e :: e in events ==> EventLogged(db, e)
    ensures forall e :: e in Retain(m.history + events) ==> EventLogged(db, e)
  {
    forall e | e in Retain(m.history + events) ensures EventLogged(db, e) {
      assert e in m.history + events;
    }
  }

  // ---- every call keeps the invariant ------------------------------------------

  /** Memory moved on with the store, stayed put, or was left one behind. */
  lemma {:induction false} CommittedDurable(cfg: ValidConfig, m: LiveMatch, i: Input, seat: Option<SeatRow>, outcome: Outcome)
    requires Durable(cfg, m) && Accepted(cfg, m.mem, i)
    ensures var t := Apply(cfg, m.mem, i.actor, i.action, i.dice).value;
            var events := Stamped(t.facts, t.next.tick);
            var c := Commit(m.db, t.next, events, seat, outcome);
            && c.ok == (InSync(m) && outcome == Succeeds)
            && (c.ok ==> Durable(cfg, Install(m, t.next, events).(db := c.db)) && InSync(Install(m, t.next, events).(db := c.db)))
            && (!c.ok ==> Durable(cfg, m.(db := c.db)))
            && (InSync(m.(db := c.db)) <==> InSync(m) && outcome == Fails)
            && Extends(m.db.rows, c.db.rows)
            && (c.ok ==> Logged(c.db.rows, events))
  {
    hide Inv, Rowed, Commit, Apply;
    var t := Apply(cfg, m.mem, i.actor, i.action, i.dice).value;
    var events := Stamped(t.facts, t.next.tick);
    var c := Commit(m.db, t.next, events, seat, outcome);
    AcceptedExplains(cfg, m.mem, i.actor, i.action, i.dice);
    ApplyInv(cfg, m.mem, i.actor, i.action, i.dice);
    if InSync(m) {
      CommitInSync(cfg, m, i, seat, outcome);
      StillLogged(m, c.db);
      if c.ok {
        LoggedEvents(c.db, events);
        InstalledLogged(m, events, c.db);
      } else if outcome == FailsButCommits {
        assert StepsTo(cfg, m.mem, i, c.db.state);
      }
    } else {
      NoCommitWhileAhead(cfg, m, i, seat, outcome);
    }
  }

  /** Sessions and tokens are no part of durability. */
  lemma {:induction false} DurableFrame(cfg: ValidConfig, m: LiveMatch, n: LiveMatch)
    requires Durable(cfg, m) && n.mem == m.mem && n.db == m.db && n.history == m.history
    ensures Durable(cfg, n) && (InSync(n) <==> InSync(m))
  {
    hide Inv, Rowed, Apply;
  }

  /** The claim gets as far as the store. */
  ghost predicate ClaimReaches(cfg: ValidConfig, m: LiveMatch, name: string, token: Option<Token>) {
    ClaimTransition(cfg, m.mem, name).Ok? && token != None
  }

  /**
   A claim breaks step only when its commit is wrongly reported as failed, and mends nothing: behind the store
   it is refused and changes nothing at all.
   */
  lemma {:induction false} ClaimDurable(cfg: ValidConfig, m: LiveMatch, name: string, token: Option<Token>, outcome: Outcome)
    requires Durable(cfg, m)
    ensures var n := ClaimSeat(cfg, m, name, token, outcome).0;
            && Durable(cfg, n)
            && (InSync(n) <==> InSync(m) && !(ClaimReaches(cfg, m, name, token) && outcome == FailsButCommits))
            && (!InSync(m) ==> n == m)
    ensures Extends(m.db.rows, ClaimSeat(cfg, m, name, token, outcome).0.db.rows)
    ensures var r := ClaimSeat(cfg, m, name, token, outcome);
            r.1.SeatClaimed? ==> InSync(m) && outcome == Succeeds && Logged(r.0.db.rows, r.1.events)
  {
    hide Inv, Rowed, Commit, Apply, Install, Durable;
    if ClaimReaches(cfg, m, name, token) {
      var i := Input(NoPlayer, Join(name), NO_DICE);
      var t := Apply(cfg, m.mem, NoPlayer, Join(name), NO_DICE).value;
      JoinSpeaks(cfg, m.mem, name);
      var seat := Some(SeatRow(t.facts[0].id, token.value));
      assert Accepted(cfg, m.mem, i);
      CommittedDurable(cfg, m, i, seat, outcome);
      var c := Commit(m.db, t.next, Stamped(t.facts, t.next.tick), seat, outcome);
      if c.ok {
        var n := Install(m, t.next, Stamped(t.facts, t.next.tick)).(db := c.db);
        DurableFrame(cfg, n, n.(tokens := m.tokens[t.facts[0].id := token.value]));
      } else if !InSync(m) {
        NoCommitWhileAhead(cfg, m, i, seat, outcome);
      }
    }
  }

  lemma JoinSpeaks(cfg: ValidConfig, s: State, name: string)
    requires Apply(cfg, s, NoPlayer, Join(name), NO_DICE).Ok?
    ensures var f := Apply(cfg, s, NoPlayer, Join(name), NO_DICE).value.facts; |f| == 1 && f[0].PlayerJoined?
  {
  }

  /** The action gets as far as the store: a bound session, a new sequence, and the engine's consent. */
  ghost predicate ActReaches(cfg: ValidConfig, m: LiveMatch, sid: SessionId, seqNo: int, action: Action, dice: Dice) {
    && BoundSession(m, sid) && 1 <= seqNo != MAX_INT64 && seqNo > m.sessions[sid].lastSeq
    && Apply(cfg, m.mem, m.sessions[sid].player, action, dice).Ok?
  }

  /**
   An action that reaches the store leaves memory and store in step exactly when it can read the store back, or
   was in step and not wrongly told its commit failed. One that does not reach it changes nothing.
   */
  lemma {:induction false} ActDurable(cfg: ValidConfig, m: LiveMatch, sid: SessionId, seqNo: int, action: Action, dice: Dice,
                                      outcome: Outcome, readable: bool)
    requires Durable(cfg, m)
    ensures var n := ApplyAction(cfg, m, sid, seqNo, action, dice, outcome, readable).0;
            && Durable(cfg, n)
            && (if ActReaches(cfg, m, sid, seqNo, action, dice)
                then InSync(n) <==> readable || (InSync(m) && outcome != FailsButCommits)
                else n == m)
    ensures Extends(m.db.rows, ApplyAction(cfg, m, sid, seqNo, action, dice, outcome, readable).0.db.rows)
    ensures var r := ApplyAction(cfg, m, sid, seqNo, action, dice, outcome, readable);
            r.1.Acked? && !r.1.replayed ==>
              ActReaches(cfg, m, sid, seqNo, action, dice) && InSync(m) && outcome == Succeeds
              && Logged(r.0.db.rows, r.1.ack.events)
  {
    hide Inv, Commit, Apply, Install, Durable, SnapshotFor, Rowed;
    if ActReaches(cfg, m, sid, seqNo, action, dice) {
      var i := Input(m.sessions[sid].player, action, dice);
      var t := Apply(cfg, m.mem, i.actor, i.action, i.dice).value;
      assert Accepted(cfg, m.mem, i);
      CommittedDurable(cfg, m, i, None, outcome);
      var c := Commit(m.db, t.next, Stamped(t.facts, t.next.tick), None, outcome);
      var n := ApplyAction(cfg, m, sid, seqNo, action, dice, outcome, readable).0;
      if c.ok {
        DurableFrame(cfg, Install(m, t.next, Stamped(t.facts, t.next.tick)).(db := c.db), n);
      } else {
        ReconcileDurable(cfg, m.(db := c.db), readable);
      }
    }
  }

  /** Reading back settles which of the two memory should hold. */
  lemma {:induction false} ReconcileDurable(cfg: ValidConfig, m: LiveMatch, readable: bool)
    requires Durable(cfg, m)
    ensures Durable(cfg, Reconcile(m, m.mem, readable))
    ensures InSync(Reconcile(m, m.mem, readable)) <==> readable || InSync(m)
  {
    hide Inv, Apply;
    if !InSync(m) {
      var i: Input :| StepsTo(cfg, m.mem, i, m.db.state);
      AcceptedExplains(cfg, m.mem, i.actor, i.action, i.dice);
    }
  }

  /** Behind the store, an action that reaches it and can read it back adopts what is stored, and does nothing else. */
  lemma {:induction false} ActionHeals(cfg: ValidConfig, m: LiveMatch, act: Call)
    requires Durable(cfg, m) && !InSync(m)
    requires act.Act? && act.readable && ActReaches(cfg, m, act.sid, act.seqNo, act.action, act.dice)
    ensures Next(cfg, m, act) == m.(mem := m.db.state) && Published(cfg, m, act) == []
  {
    var i := Input(m.sessions[act.sid].player, act.action, act.dice);
    NoCommitWhileAhead(cfg, m, i, None, act.outcome);
    var j: Input :| StepsTo(cfg, m.mem, j, m.db.state);
    AcceptedExplains(cfg, m.mem, j.actor, j.action, j.dice);
    hide Inv, Apply, Commit, Install, SnapshotFor;
  }

  lemma {:induction false} NextDurable(cfg: ValidConfig, m: LiveMatch, call: Call)
    requires Durable(cfg, m)
    ensures Durable(cfg, Next(cfg, m, call))
    ensures Extends(m.db.rows, Next(cfg, m, call).db.rows)
    ensures Logged(Next(cfg, m, call).db.rows, Published(cfg, m, call))
  {
    hide Durable, ClaimSeat, ApplyAction;
    match call
    case Claim(name, token, outcome) => ClaimDurable(cfg, m, name, token, outcome);
    case Act(sid, seqNo, action, dice, outcome, readable) =>
      ActDurable(cfg, m, sid, seqNo, action, dice, outcome, readable);
    case Attach(sid, _, found) => DurableFrame(cfg, m, Bind(m, sid, found));
    case Detach(sid) => DurableFrame(cfg, m, Disconnect(m, sid));
    case Deliver(sid) => DurableFrame(cfg, m, MarkReady(m, sid));
  }

  lemma {:induction false} NewMatchDurable(cfg: ValidConfig)
    ensures Durable(cfg, NewMatch(cfg)) && InSync(NewMatch(cfg))
  {
    InitialInv(cfg, NewState(NewBoard(cfg)));
  }

  /** Through any run, memory is the durable state or exactly one engine transition behind it. */
  lemma {:induction false} NeverDriftsApart(cfg: ValidConfig, m: LiveMatch, calls: seq<Call>)
    requires Durable(cfg, m)
    ensures Durable(cfg, Run(cfg, m, calls))
    ensures Extends(m.db.rows, Run(cfg, m, calls).db.rows)
  {
    hide Durable, Next;
    if calls == [] {
    } else {
      NeverDriftsApart(cfg, m, calls[..|calls| - 1]);
      NextDurable(cfg, Run(cfg, m, calls[..|calls| - 1]), calls[|calls| - 1]);
    }
  }

  /** Whatever is handed to the broadcast is durable by then, and durable ever after. */
  lemma {:induction false} PublishedIsDurable(cfg: ValidConfig, m: LiveMatch, call: Call, later: seq<Call>, e: Event)
    requires Durable(cfg, m) && e in Published(cfg, m, call)
    ensures EventLogged(Run(cfg, Next(cfg, m, call), later).db, e)
  {
    hide Durable, Next, Published, EventLogged, Run;
    NextDurable(cfg, m, call);
    var n := Next(cfg, m, call);
    NeverDriftsApart(cfg, n, later);
    LoggedEvents(n.db, Published(cfg, m, call));
    LoggedLater(n.db, Run(cfg, n, later).db, e);
  }

  lemma {:induction false} LoggedLater(db: Database, later: Database, e: Event)
    requires EventLogged(db, e) && Extends(db.rows, later.rows)
    ensures EventLogged(later, e)
  {
    var i :| Key(e.tick, i) in db.rows && db.rows[Key(e.tick, i)] == e.fact;
    assert Key(e.tick, i) in later.rows;
  }

  // ---- the durable log is the log of a run --------------------------------------

  /** The event rows a run of the engine leaves. */
  ghost function RowsOf(cfg: ValidConfig, s: State, inputs: seq<Input>): map<Key, Fact> {
    if inputs == [] then map[]
    else
      var before, i := inputs[..|inputs| - 1], inputs[|inputs| - 1];
      var step := Step(cfg, After(cfg, s, before), i);
      var rows := InsertEvents(RowsOf(cfg, s, before), Stamped(step.facts, step.next.tick));
      if rows.Some? then rows.value else RowsOf(cfg, s, before)
  }

  /** The store moved by exactly one accepted input of the state memory held. */
  ghost predicate StoreStepped(cfg: ValidConfig, m: LiveMatch, n: LiveMatch, i: Input) {
    && InSync(m) && Accepted(cfg, m.mem, i)
    && var t := Apply(cfg, m.mem, i.actor, i.action, i.dice).value;
      && n.db.state == t.next && InsertEvents(m.db.rows, Stamped(t.facts, t.next.tick)) == Some(n.db.rows)
      && (n.mem == t.next || n.mem == m.mem)
  }

  ghost predicate StoreKept(m: LiveMatch, n: LiveMatch) {
    n.db == m.db && (n.mem == m.mem || n.mem == m.db.state)
  }

  /** Who acts: the session's player, or for a claim nobody yet. */
  function ActorOf(m: LiveMatch, call: Call): PlayerId {
    if call.Act? && call.sid in m.sessions then m.sessions[call.sid].player else NoPlayer
  }

  lemma {:induction false} StoreMoves(cfg: ValidConfig, m: LiveMatch, call: Call) returns (i: Input)
    requires Durable(cfg, m)
    ensures i.actor == ActorOf(m, call) && (call.Act? ==> i.action == call.action)
    ensures StoreKept(m, Next(cfg, m, call)) || StoreStepped(cfg, m, Next(cfg, m, call), i)
  {
    hide Inv, Apply, Install, Durable, SnapshotFor, Rowed, InsertEvents;
    i := Input(ActorOf(m, call), if call.Act? then call.action else Leave, NO_DICE);
    match call
    case Claim(name, token, outcome) =>
      i := Input(NoPlayer, Join(name), NO_DICE);
      if ClaimReaches(cfg, m, name, token) {
        assert Accepted(cfg, m.mem, i);
        JoinSpeaks(cfg, m.mem, name);
        var t := Apply(cfg, m.mem, NoPlayer, Join(name), NO_DICE).value;
        CommittedDurable(cfg, m, i, Some(SeatRow(t.facts[0].id, token.value)), outcome);
        if !InSync(m) { NoCommitWhileAhead(cfg, m, i, Some(SeatRow(t.facts[0].id, token.value)), outcome); }
        Installed(m, t);
      }
    case Act(sid, seqNo, action, dice, outcome, readable) =>
      if ActReaches(cfg, m, sid, seqNo, action, dice) {
        i := Input(m.sessions[sid].player, action, dice);
        assert Accepted(cfg, m.mem, i);
        CommittedDurable(cfg, m, i, None, outcome);
        if !InSync(m) { NoCommitWhileAhead(cfg, m, i, None, outcome); }
        Installed(m, Apply(cfg, m.mem, i.actor, i.action, i.dice).value);
      }
    case _ =>
  }

  lemma Installed(m: LiveMatch, t: Transition)
    ensures Install(m, t.next, Stamped(t.facts, t.next.tick)).mem == t.next
  {
  }

  /**
   What is durable is at every moment the final state and the full event log of some run of the engine, and
   memory holds that run's state or the one just before it.
   */
  lemma {:induction false} DurableLogIsARun(cfg: ValidConfig, calls: seq<Call>) returns (inputs: seq<Input>)
    ensures var m, s := Run(cfg, NewMatch(cfg), calls), NewState(NewBoard(cfg));
            && After(cfg, s, inputs) == m.db.state && RowsOf(cfg, s, inputs) == m.db.rows
            && (InSync(m) || (inputs != [] && After(cfg, s, inputs[..|inputs| - 1]) == m.mem))
  {
    hide Inv, Apply, Next, NewBoard, Durable;
    var s := NewState(NewBoard(cfg));
    if calls == [] {
      inputs := [];
    } else {
      var before, call := calls[..|calls| - 1], calls[|calls| - 1];
      var m := Run(cfg, NewMatch(cfg), before);
      inputs := DurableLogIsARun(cfg, before);
      NewMatchDurable(cfg);
      NeverDriftsApart(cfg, NewMatch(cfg), before);
      var i := StoreMoves(cfg, m, call);
      if !StoreKept(m, Next(cfg, m, call)) {
        assert (inputs + [i])[..|inputs|] == inputs;
        inputs := inputs + [i];
      }
    }
  }
}
