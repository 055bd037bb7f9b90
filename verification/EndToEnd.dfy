/** From the match lock to the screen: a client fed what the match publishes shows the match (match.go, game-store.ts). */
module EndToEnd {
  import opened Config
  import opened Domain
  import opened Rules
  import opened Invariant
  import opened Runs
  import opened Rotation
  import opened Engine
  import opened Store
  import opened Runtime
  import opened Durability
  import opened CatchUp
  import opened ClientStore
  import opened Seats
  import opened Simulation
  import opened Outcomes
  import opened Turns
  import opened Termination
  import opened Reflection
  import opened Overtaken

  /** Short of adopting, a call publishes exactly the engine's transition it installs, or moves nothing. */
  lemma {:induction false} PublishesStep(cfg: ValidConfig, m: LiveMatch, call: Call) returns (i: Input)
    requires !Adopts(cfg, m, call)
    ensures var n, events := Next(cfg, m, call), Published(cfg, m, call);
            if events == [] then n.mem == m.mem
            else
              Accepted(cfg, m.mem, i) &&
              var t := Apply(cfg, m.mem, i.actor, i.action, i.dice).value;
              n.mem == t.next && events == Stamped(t.facts, t.next.tick)
  {
    hide Apply, Commit, Retain, BaseAfter, SnapshotFor;
    i := Input(NoPlayer, Leave, NO_DICE);
    match call
    case Claim(name, token, outcome) => i := Input(NoPlayer, Join(name), NO_DICE);
    case Act(sid, seqNo, action, dice, outcome, readable) =>
      if sid in m.sessions { i := Input(m.sessions[sid].player, action, dice); }
    case _ =>
  }

  /** The screen of a client handed everything a run publishes, in order. */
  ghost function Fed(cfg: ValidConfig, m: LiveMatch, sc: Screen, calls: seq<Call>): Screen {
    if calls == [] then sc
    else
      var before := calls[..|calls| - 1];
      ApplyEvents(Fed(cfg, m, sc, before), Published(cfg, Run(cfg, m, before), calls[|calls| - 1]))
  }

  lemma NothingFed(sc: Screen)
    ensures ApplyEvents(sc, []) == sc
  {
  }

  lemma {:induction false} StepFed(cfg: ValidConfig, m: LiveMatch, sc: Screen, call: Call, since: nat)
    requires Durable(cfg, m) && (m.mem.phase == Playing || m.mem.phase == Ended) && !Adopts(cfg, m, call)
    requires Following(sc, m.mem, since)
    ensures var n := Next(cfg, m, call);
            Following(ApplyEvents(sc, Published(cfg, m, call)), n.mem, since)
            && (n.mem.phase == Playing || n.mem.phase == Ended)
  {
    var i := PublishesStep(cfg, m, call);
    InvInMemory(cfg, m);
    hide Next, Published, Durable, Following, Inv, Adopts, Apply;
    if Published(cfg, m, call) == [] {
      NothingFed(sc);
    } else {
      if m.mem.phase == Ended { EndedIsFinal(cfg, m.mem, i); }
      FreshFollows(cfg, sc, m.mem, since, i);
      StaysStarted(cfg, m.mem, [i]);
      OneInput(cfg, m.mem, i);
    }
  }

  lemma InvInMemory(cfg: ValidConfig, m: LiveMatch)
    requires Durable(cfg, m)
    ensures Inv(cfg, m.mem)
  {
  }

  /**
   Through any run of a started match that adopts nothing, whatever else is asked of it, a screen in step at the start
   and fed everything published is in step at the end.
   */
  lemma {:induction false} ScreenFollowsMatch(cfg: ValidConfig, m: LiveMatch, sc: Screen, calls: seq<Call>, since: nat)
    requires Durable(cfg, m) && m.mem.phase == Playing && Following(sc, m.mem, since)
    requires AdoptedTicks(cfg, m, calls) == {}
    ensures var n := Run(cfg, m, calls);
            Following(Fed(cfg, m, sc, calls), n.mem, since) && (n.mem.phase == Playing || n.mem.phase == Ended)
  {
    hide Next, Published, Durable, Following, Adopts;
    if calls == [] {
    } else {
      var before, call := calls[..|calls| - 1], calls[|calls| - 1];
      var n := Run(cfg, m, before);
      assert Adopts(cfg, n, call) ==> Next(cfg, n, call).mem.tick in AdoptedTicks(cfg, m, calls);
      ScreenFollowsMatch(cfg, m, sc, before, since);
      NeverDriftsApart(cfg, m, before);
      StepFed(cfg, n, Fed(cfg, m, sc, before), call, since);
    }
  }

  // ---- adopted transitions ------------------------------------------------------------

  /** An adopted transition is one the engine accepts in memory. */
  lemma {:induction false} AdoptionIsStep(cfg: ValidConfig, m: LiveMatch, call: Call) returns (i: Input)
    requires Durable(cfg, m) && Adopts(cfg, m, call)
    ensures Accepted(cfg, m.mem, i)
    ensures Next(cfg, m, call).mem == Apply(cfg, m.mem, i.actor, i.action, i.dice).value.next
  {
    i := StoreMoves(cfg, m, call);
    hide Apply, Next, Published, Inv, Rowed;
    if !StoreStepped(cfg, m, Next(cfg, m, call), i) {
      i :| StepsTo(cfg, m.mem, i, m.db.state);
    }
  }

  /** Nothing a screen shows has changed. */
  ghost predicate Unseen(s: State, t: State) { Agrees(s, t) }

  /**
   Of a running match's transitions a screen shows all but declined purchases, departures of the eliminated, and rolls
   that leave every player as they were and the match running.
   */
  lemma {:induction false} UnseenExactly(cfg: ValidConfig, s: State, i: Input)
    requires Inv(cfg, s) && s.phase == Playing && Accepted(cfg, s, i)
    ensures IndexOf(s.players, i.actor) < |s.players|
    ensures var t := Apply(cfg, s, i.actor, i.action, i.dice).value.next;
            Unseen(s, t) <==> match i.action
                              case Decline => true
                              case Leave => !IsActive(s.players[IndexOf(s.players, i.actor)])
                              case Roll => t.players == s.players && t.phase == Playing
                              case _ => false
  {
    ActorSits(cfg, s, i);
    hide RollOf, LeaveMatch, DoBuy, DoDecline, DoEndTurn, Inv;
    var a := IndexOf(s.players, i.actor);
    match i.action {
      case Roll => RollUnseen(cfg, s, i);
      case Leave =>
        LeavePhase(cfg, s, a);
        LeftTurn(s, a);
      case Buy => BuySeen(cfg, s, i.actor);
      case Decline => DeclineUnseen(cfg, s, i.actor);
      case EndTurn => EndTurnSeen(cfg, s, i.actor);
      case _ =>
    }
  }

  lemma {:induction false} ActorSits(cfg: ValidConfig, s: State, i: Input)
    requires s.phase == Playing && Accepted(cfg, s, i)
    ensures IndexOf(s.players, i.actor) < |s.players|
  {
    hide RollOf, LeaveMatch, Evaluate;
  }

  lemma {:induction false} RollUnseen(cfg: ValidConfig, s: State, i: Input)
    requires Inv(cfg, s) && s.phase == Playing && i.action == Roll && Accepted(cfg, s, i)
    ensures var t := Apply(cfg, s, i.actor, i.action, i.dice).value.next;
            Unseen(s, t) <==> t.players == s.players && t.phase == Playing
  {
    hide Core, PlayingOk, Landable, ResolveLanding, Evaluate, Walk, GoBonus, MoveFacts;
    HolderLands(cfg, s, i.actor);
    var r := IndexOf(s.players, i.actor);
    var moved := Moved(cfg, s, r, i.dice.d1 + i.dice.d2);
    MovedLandable(cfg, s, r, i.dice.d1 + i.dice.d2);
    LandingStaysIn(cfg, moved, r);
    LandingMid(cfg, moved, r);
    RollerIn(cfg, s, r);
    var l := ResolveLanding(moved, r, moved.players[r].position).value;
    SolventBoard(moved, r, moved.players[r].position);
    ClosingEndsOrNot(cfg, Settled(cfg, l, Streak(cfg, s.turn.streak, i.dice)));
  }

  lemma RollerIn(cfg: ValidConfig, s: State, r: nat)
    requires Landable(cfg, s, r)
    ensures r < |s.players| && IsActive(s.players[r])
  {
  }

  lemma {:induction false} SolventBoard(s: State, i: nat, to: int)
    requires i < |s.players| && ResolveLanding(s, i, to).Ok?
    ensures var l := ResolveLanding(s, i, to).value;
            !l.bankrupt ==> l.next == s.(players := l.next.players)
  {
    hide NextTurn, OwnedIds, Release;
  }

  lemma {:induction false} BuySeen(cfg: ValidConfig, s: State, actor: PlayerId)
    requires Inv(cfg, s) && DoBuy(cfg, s, actor).Ok?
    ensures !Unseen(s, DoBuy(cfg, s, actor).value.next)
  {
    hide Inv, Evaluate;
    forall x ensures Evaluate(cfg, x).next.spaces == x.spaces { EvaluateKeeps(cfg, x); }
    var at := s.players[IndexOf(s.players, actor)].position;
    assert DoBuy(cfg, s, actor).value.next.spaces[at].owned;
  }

  lemma {:induction false} DeclineUnseen(cfg: ValidConfig, s: State, actor: PlayerId)
    requires Inv(cfg, s) && s.phase == Playing && DoDecline(cfg, s, actor).Ok?
    ensures Unseen(s, DoDecline(cfg, s, actor).value.next)
  {
    var x := s.(turn := AfterDecision(s.turn));
    ActivesCounted(s.players);
    assert TargetReached(cfg, x) ==> TargetReached(cfg, s) by {
      assert forall j :: 0 <= j < |s.players| ==> Worth(x, j) == Worth(s, j);
    }
    hide Core, TargetReached, Actives, ActiveSeats, Richest;
    assert Evaluate(cfg, x) == Transition(x, []);
  }

  lemma {:induction false} EndTurnSeen(cfg: ValidConfig, s: State, actor: PlayerId)
    requires Inv(cfg, s) && DoEndTurn(cfg, s, actor).Ok?
    ensures !Unseen(s, DoEndTurn(cfg, s, actor).value.next)
  {
    InPlay(cfg, s);
    hide Inv, Evaluate, ActiveSeats;
    EvaluateKeeps(cfg, AdvanceFrom(s, s.turn.seat));
  }

  // ---- exactly when a screen stays in step ------------------------------------------------

  /** The screen shows the match, and has seen nothing newer. */
  ghost predicate InStep(sc: Screen, s: State) {
    Shows(sc, s) && sc.view.value.tick <= s.tick && forall t :: t in sc.applied ==> t <= s.tick
  }

  /** A transition a screen would show is adopted: it is never published. */
  ghost predicate Misses(cfg: ValidConfig, m: LiveMatch, call: Call) {
    Adopts(cfg, m, call) && !Unseen(m.mem, Next(cfg, m, call).mem)
  }

  lemma {:induction false} FreshInStep(cfg: ValidConfig, sc: Screen, s: State, i: Input)
    requires Inv(cfg, s) && s.phase == Playing && Accepted(cfg, s, i) && InStep(sc, s)
    ensures var t := Apply(cfg, s, i.actor, i.action, i.dice).value;
            InStep(ApplyEvents(sc, Stamped(t.facts, t.next.tick)), t.next)
  {
    hide Apply, Inv, Agrees, Fold, Mark;
    var t := Apply(cfg, s, i.actor, i.action, i.dice).value;
    AcceptedExplains(cfg, s, i.actor, i.action, i.dice);
    ClientFollows(cfg, sc.view.value, s, i.actor, i.action, i.dice);
    FoldIsReduce(sc.view.value, t.facts, t.next.tick);
    FollowsTick(sc.view.value, t.facts, t.next, t.next.tick);
    MarkOnlyAdds(sc.applied, t.next.tick);
  }

  /** One call keeps a screen in step exactly if it misses nothing. */
  lemma {:induction false} StepInStep(cfg: ValidConfig, m: LiveMatch, sc: Screen, call: Call)
    requires Durable(cfg, m) && (m.mem.phase == Playing || m.mem.phase == Ended) && InStep(sc, m.mem)
    ensures var n := Next(cfg, m, call);
            && (InStep(ApplyEvents(sc, Published(cfg, m, call)), n.mem) <==> !Misses(cfg, m, call))
            && (n.mem.phase == Playing || n.mem.phase == Ended)
  {
    InvInMemory(cfg, m);
    hide Next, Published, Durable, Inv, Apply, Agrees;
    var n := Next(cfg, m, call);
    NothingFed(sc);
    if Adopts(cfg, m, call) {
      var i := AdoptionIsStep(cfg, m, call);
      StillStarted(cfg, m.mem, i);
      AdoptionMoves(cfg, m, call);
      AgreesAlike(sc.view.value, m.mem, n.mem);
    } else {
      var i := PublishesStep(cfg, m, call);
      if Published(cfg, m, call) != [] {
        StillStarted(cfg, m.mem, i);
        FreshInStep(cfg, sc, m.mem, i);
      }
    }
  }

  lemma AgreesAlike(v: State, s: State, t: State)
    requires Agrees(v, s)
    ensures Agrees(v, t) <==> Agrees(s, t)
  {
  }

  /** Only a running match accepts anything once started, and it stays started. */
  lemma {:induction false} StillStarted(cfg: ValidConfig, s: State, i: Input)
    requires Inv(cfg, s) && (s.phase == Playing || s.phase == Ended) && Accepted(cfg, s, i)
    ensures s.phase == Playing
    ensures var t := Apply(cfg, s, i.actor, i.action, i.dice).value.next; t.phase == Playing || t.phase == Ended
  {
    if s.phase == Ended { EndedIsFinal(cfg, s, i); }
    hide Apply, Inv;
    StaysStarted(cfg, s, [i]);
    OneInput(cfg, s, i);
  }

  ghost predicate AlwaysInStep(cfg: ValidConfig, m: LiveMatch, sc: Screen, calls: seq<Call>) {
    && InStep(Fed(cfg, m, sc, calls), Run(cfg, m, calls).mem)
    && (calls != [] ==> AlwaysInStep(cfg, m, sc, calls[..|calls| - 1]))
  }

  ghost predicate MissesNothing(cfg: ValidConfig, m: LiveMatch, calls: seq<Call>) {
    calls != [] ==>
      var before := calls[..|calls| - 1];
      MissesNothing(cfg, m, before) && !Misses(cfg, Run(cfg, m, before), calls[|calls| - 1])
  }

  /**
   Through any run of a started match, whatever is asked of it: a screen in step at the start and fed everything published
   is in step at every moment exactly if no transition it would show is adopted.
   */
  lemma {:induction false} InStepExactly(cfg: ValidConfig, m: LiveMatch, sc: Screen, calls: seq<Call>)
    requires Durable(cfg, m) && m.mem.phase == Playing && InStep(sc, m.mem)
    ensures AlwaysInStep(cfg, m, sc, calls) <==> MissesNothing(cfg, m, calls)
    ensures MissesNothing(cfg, m, calls) ==> Run(cfg, m, calls).mem.phase == Playing || Run(cfg, m, calls).mem.phase == Ended
  {
    hide Next, Published, Durable, InStep, Misses;
    if calls == [] {
    } else {
      var before, call := calls[..|calls| - 1], calls[|calls| - 1];
      InStepExactly(cfg, m, sc, before);
      NeverDriftsApart(cfg, m, before);
      if MissesNothing(cfg, m, before) { StepInStep(cfg, Run(cfg, m, before), Fed(cfg, m, sc, before), call); }
    }
  }

  /**
   The input: in any started match in step with its store, a purchase, an ended turn or an active player's departure that
   commits, is reported as failed and is read back. Nothing is published, and no screen that was in step still is.
   */
  lemma {:induction false} AdoptionMissed(cfg: ValidConfig, m: LiveMatch, sc: Screen, act: Call)
    requires Durable(cfg, m) && InSync(m) && m.mem.phase == Playing && InStep(sc, m.mem)
    requires act.Act? && ActReaches(cfg, m, act.sid, act.seqNo, act.action, act.dice)
    requires act.outcome == FailsButCommits && act.readable
    requires act.action == Buy || act.action == EndTurn
             || (act.action == Leave && var a := IndexOf(m.mem.players, m.sessions[act.sid].player);
                                        a < |m.mem.players| && IsActive(m.mem.players[a]))
    ensures Misses(cfg, m, act) && Published(cfg, m, act) == []
    ensures !InStep(ApplyEvents(sc, Published(cfg, m, act)), Next(cfg, m, act).mem)
  {
    hide Durable, Inv, Apply, Install, SnapshotFor, Retain, BaseAfter, Commit, InStep, Unseen;
    var i := Input(m.sessions[act.sid].player, act.action, act.dice);
    AcceptedExplains(cfg, m.mem, i.actor, i.action, i.dice);
    CommitInSync(cfg, m, i, None, act.outcome);
    InvInMemory(cfg, m);
    UnseenExactly(cfg, m.mem, i);
    CursorIsTick(cfg, m);
    StepInStep(cfg, m, sc, act);
  }
}
