/** What a connected client's view shows of the lobby and of the stage of a turn (game-store.ts). */
module Views {
  import opened Config
  import opened Domain
  import opened Seats
  import opened Rules
  import opened Invariant
  import opened Runs
  import opened Client
  import opened Simulation
  import opened Engine
  import opened Rotation
  import opened ClientStore
  import opened Outcomes
  import opened Effects

  // ---- the lobby ------------------------------------------------------------------------

  /** The view shows the lobby, or the match just started, but for who hosts and whose turn it is. */
  predicate ShowsLobby(v: State, s: State) {
    && v.phase == s.phase && v.spaces == s.spaces && v.winner == s.winner && v.endReason == s.endReason
    && |v.players| == |s.players|
    && forall k :: 0 <= k < |s.players| ==> v.players[k] == s.players[k].(isHost := v.players[k].isHost)
  }

  lemma {:induction false} ReducesOne(v: State, f: Fact)
    ensures ReduceAll(v, [f]) == Reduce(v, f)
  {
    assert [f][..0] == [];
    assert ReduceAll(v, [f][..0]) == v;
  }

  lemma {:induction false} SameIdsHas(v: State, s: State, id: PlayerId)
    requires ShowsLobby(v, s)
    ensures Has(v.players, id) <==> Sits(s, id)
  {
    if Has(v.players, id) { assert s.players[IndexOf(v.players, id)].id == id; }
  }

  /** A newcomer, a toggle and the start are followed, the start exactly if the match was created with its board. */
  lemma {:induction false} LobbyFollows(cfg: ValidConfig, v: State, s: State, i: Input)
    requires Inv(cfg, s) && s.phase == Lobby && Accepted(cfg, s, i) && i.action != Leave && ShowsLobby(v, s)
    ensures var t := Apply(cfg, s, i.actor, i.action, i.dice).value;
            var w := ReduceAll(v, t.facts);
            && w.turn == v.turn
            && (ShowsLobby(w, t.next) <==> (i.action == Start ==> s.spaces != []))
  {
    BoardActionPlays(cfg, s, i);
    hide Inv, Apply, ReduceAll, ShowsLobby;
    match i.action {
      case Join(name) => JoinFollows(cfg, v, s, i);
      case Ready(ready) => ReadyFollows(cfg, v, s, i);
      case Start => StartFollows(cfg, v, s, i);
      case _ =>
    }
  }

  lemma {:induction false} JoinFollows(cfg: ValidConfig, v: State, s: State, i: Input)
    requires Inv(cfg, s) && s.phase == Lobby && Accepted(cfg, s, i) && i.action.Join? && ShowsLobby(v, s)
    ensures var t := Apply(cfg, s, i.actor, i.action, i.dice).value;
            var w := ReduceAll(v, t.facts); w.turn == v.turn && ShowsLobby(w, t.next)
  {
    RosterSeated(cfg, s);
    hide Inv, Apply, ReduceAll, Seated, Has, IndexOf, Sits;
    var t := Apply(cfg, s, i.actor, i.action, i.dice).value;
    JoinDoes(cfg, s, i.actor, i.action.name, i.dice);
    ReducesOne(v, t.facts[0]);
    SameIdsHas(v, s, t.facts[0].id);
    Newcomer(s, t.next);
  }

  lemma {:induction false} ReadyFollows(cfg: ValidConfig, v: State, s: State, i: Input)
    requires Inv(cfg, s) && s.phase == Lobby && Accepted(cfg, s, i) && i.action.Ready? && ShowsLobby(v, s)
    ensures var t := Apply(cfg, s, i.actor, i.action, i.dice).value;
            var w := ReduceAll(v, t.facts); w.turn == v.turn && ShowsLobby(w, t.next)
  {
    RosterSeated(cfg, s);
    hide Inv, Apply, ReduceAll, Seated, IndexOf, Sits;
    var t := Apply(cfg, s, i.actor, i.action, i.dice).value;
    ReadyDoes(cfg, s, i.actor, i.action.ready, i.dice);
    ReducesOne(v, t.facts[0]);
    AloneWith(s.players, IndexOf(s.players, i.actor));
  }

  lemma {:induction false} StartFollows(cfg: ValidConfig, v: State, s: State, i: Input)
    requires Inv(cfg, s) && s.phase == Lobby && Accepted(cfg, s, i) && i.action == Start && ShowsLobby(v, s)
    ensures var t := Apply(cfg, s, i.actor, i.action, i.dice).value;
            var w := ReduceAll(v, t.facts); w.turn == v.turn && (ShowsLobby(w, t.next) <==> s.spaces != [])
  {
    hide Inv, Apply, ReduceAll;
    var t := Apply(cfg, s, i.actor, i.action, i.dice).value;
    StartDoes(cfg, s, i.actor, i.dice);
    ReducesOne(v, t.facts[0]);
    BoardAsMade(cfg, s);
  }

  lemma {:induction false} Newcomer(s: State, t: State)
    requires Seated(s.players) && |t.players| == |s.players| + 1 && t.players[..|s.players|] == s.players
    requires var p := t.players[|s.players|]; p.id == Pl(p.seat) && !Taken(s, p.seat)
    ensures !Sits(s, t.players[|s.players|].id)
    ensures forall k :: 0 <= k < |s.players| ==> t.players[k] == s.players[k]
  {
    forall k | 0 <= k < |s.players| ensures t.players[k] == s.players[k] {
      assert t.players[..|s.players|][k] == s.players[k];
    }
    if j :| 0 <= j < |s.players| && s.players[j].id == t.players[|s.players|].id {
      assert Taken(s, t.players[|s.players|].seat);
    }
  }

  lemma {:induction false} BoardAsMade(cfg: ValidConfig, s: State)
    requires Inv(cfg, s) && s.phase == Lobby
    ensures s.spaces != [] ==>
              |s.spaces| == |cfg.board|
              && forall k :: 0 <= k < |cfg.board| ==> s.spaces[k] == Space(cfg.board[k], false, NoPlayer, 0)
    ensures |cfg.board| > 0
  {
    if s.spaces != [] { LobbyBoard(cfg, s); }
  }

  lemma ShownSits(v: State, s: State, a: nat)
    requires ShowsLobby(v, s) && a < |v.players|
    ensures Sits(s, v.players[a].id)
  {
    assert s.players[a].id == v.players[a].id;
  }

  /** A departure from the lobby is not: the leaver stays listed, marked as out, and everybody else as they were. */
  lemma {:induction false} LobbyLeaverStays(cfg: ValidConfig, v: State, s: State, i: Input)
    requires Inv(cfg, s) && s.phase == Lobby && Accepted(cfg, s, i) && i.action == Leave && ShowsLobby(v, s)
    ensures var t, a := Apply(cfg, s, i.actor, i.action, i.dice).value, IndexOf(s.players, i.actor);
            var w := ReduceAll(v, t.facts);
            && a < |v.players| && w == v.(players := v.players[a := v.players[a].(status := Eliminated)])
            && !ShowsLobby(w, t.next)
  {
    RosterSeated(cfg, s);
    LobbyLeaveDoes(cfg, s, i);
    var t, a := Apply(cfg, s, i.actor, i.action, i.dice).value, IndexOf(s.players, i.actor);
    hide Inv, Apply, Faces;
    ReducesOne(v, t.facts[0]);
    AloneWith(s.players, a);
    var w := ReduceAll(v, t.facts);
    if ShowsLobby(w, t.next) { ShownSits(w, t.next, a); }
    hide ReduceAll, Seated, IndexOf;
  }

  // ---- the stage of the turn ----------------------------------------------------------------

  /** What events say of the turn, starting from what was shown before. */
  function StageSaid(before: Turn, facts: seq<Fact>): Turn {
    if facts == [] then before
    else
      match facts[|facts| - 1]
      case TurnAdvanced(seat, round) => Turn(seat, AwaitRoll, round, 0, false)
      case _ => StageSaid(before, facts[..|facts| - 1])
  }

  lemma {:induction false} ReducesTurn(v: State, facts: seq<Fact>)
    ensures ReduceAll(v, facts).turn == StageSaid(v.turn, facts)
  {
    if facts == [] {
    } else {
      ReducesTurn(v, facts[..|facts| - 1]);
    }
  }

  lemma {:induction false} StageConcat(before: Turn, a: seq<Fact>, b: seq<Fact>)
    ensures StageSaid(before, a + b) == StageSaid(StageSaid(before, a), b)
  {
    if b == [] {
      assert a + b == a;
    } else {
      assert (a + b)[..|a + b| - 1] == a + b[..|b| - 1];
      StageConcat(before, a, b[..|b| - 1]);
    }
  }

  lemma {:induction false} SaysNoTurn(before: Turn, facts: seq<Fact>)
    requires forall k :: 0 <= k < |facts| ==> !facts[k].TurnAdvanced?
    ensures StageSaid(before, facts) == before
  {
    if facts == [] {
    } else {
      SaysNoTurn(before, facts[..|facts| - 1]);
    }
  }

  lemma {:induction false} SaysOneTurn(before: Turn, facts: seq<Fact>, k: nat)
    requires k < |facts| && facts[k].TurnAdvanced? && forall j :: k < j < |facts| ==> !facts[j].TurnAdvanced?
    ensures StageSaid(before, facts) == Turn(facts[k].seat, AwaitRoll, facts[k].round, 0, false)
    decreases |facts|
  {
    if k < |facts| - 1 {
      SaysOneTurn(before, facts[..|facts| - 1], k);
    }
  }

  /** The turn is somebody else's now, or another round's. */
  predicate Passed(s: State, t: State) { t.turn.seat != s.turn.seat || t.turn.round != s.turn.round }

  lemma FreshlyPassed(seats: set<nat>, s: State, t: State)
    requires NextInOrder(seats, s.turn.seat, s.turn.round, t.turn)
    ensures Passed(s, t) && t.turn == Turn(t.turn.seat, AwaitRoll, t.turn.round, 0, false)
  {
  }

  lemma MoveSaysNoTurn(cfg: ValidConfig, s: State, a: nat, dice: Dice, t: State)
    requires a < |s.players| && 0 <= s.players[a].position < |s.spaces|
    ensures forall k :: 0 <= k < |MoveWords(cfg, s, a, dice)| ==> !MoveWords(cfg, s, a, dice)[k].TurnAdvanced?
    ensures forall k :: 0 <= k < |EndWords(t)| ==> !EndWords(t)[k].TurnAdvanced?
  {
  }

  /** A landing speaks of the turn exactly when it puts the roller out. */
  lemma {:induction false} LandingSaysTurn(s: State, a: nat, to: nat, turn: Turn, before: Turn)
    requires a < |s.players| && to < |s.spaces|
    ensures StageSaid(before, LandingWords(s, a, to, turn))
            == if s.players[a].money < DueAt(s, to, s.players[a].id) then Turn(turn.seat, AwaitRoll, turn.round, 0, false)
               else before
  {
    var facts := LandingWords(s, a, to, turn);
    hide StageSaid, OwnedIds;
    if s.players[a].money < DueAt(s, to, s.players[a].id) {
      SaysOneTurn(before, facts, 2);
    } else {
      SaysNoTurn(before, facts);
    }
  }

  lemma {:induction false} RollSpoken(cfg: ValidConfig, s: State, i: Input, before: Turn)
    requires Inv(cfg, s) && i.action == Roll && Accepted(cfg, s, i)
    ensures var t := Apply(cfg, s, i.actor, i.action, i.dice).value;
            StageSaid(before, t.facts) == if Passed(s, t.next) then t.next.turn else before
  {
    RollSpeaks(cfg, s, i);
    RollPays(cfg, s, i);
    RollLeaves(cfg, s, i);
    hide Inv, Apply, NextInOrder, ActiveSeats, GivenUp, StageSaid, DueAt, CreditorAt, MoveWords, LandingWords, EndWords, RollsTo,
         CanAffordHere;
    var a, t := IndexOf(s.players, i.actor), Apply(cfg, s, i.actor, Roll, i.dice).value;
    var there, to := There(cfg, s, a, i.dice), RollsTo(s, a, i.dice).0;
    var move, land := MoveWords(cfg, s, a, i.dice), LandingWords(there, a, to, t.next.turn);
    MoveSaysNoTurn(cfg, s, a, i.dice, t.next);
    SaysNoTurn(before, move);
    StageConcat(before, move, land);
    LandingSaysTurn(there, a, to, t.next.turn, before);
    SaysNoTurn(StageSaid(before, land), EndWords(t.next));
    StageConcat(before, move + land, EndWords(t.next));
    SameBoardDue(s, there, to, i.actor);
    if t.next.players[a].status == Eliminated { FreshlyPassed(ActiveSeats(t.next.players), s, t.next); }
  }

  /** Only the last thing a departure says may be that the turn goes on. */
  lemma {:induction false} DepartureTurn(cfg: ValidConfig, s: State, i: Input)
    requires Inv(cfg, s) && s.phase == Playing && i.action == Leave && Accepted(cfg, s, i)
    ensures var t := Apply(cfg, s, i.actor, i.action, i.dice).value;
            && t.facts != [] && (forall k :: 0 <= k < |t.facts| - 1 ==> !t.facts[k].TurnAdvanced?)
            && var last := t.facts[|t.facts| - 1];
               if last.TurnAdvanced? then
                 last == TurnAdvanced(t.next.turn.seat, t.next.turn.round)
                 && NextInOrder(ActiveSeats(t.next.players), s.turn.seat, s.turn.round, t.next.turn)
               else t.next.turn == s.turn
  {
    hide Inv, Apply, NextInOrder, ActiveSeats, GivenUp, OwnedIds, OthersSame, IndexOf;
    DepartureDoes(cfg, s, i);
  }

  lemma {:induction false} LastSpeaks(before: Turn, facts: seq<Fact>, seats: set<nat>, s: State, t: State)
    requires facts != [] && forall k :: 0 <= k < |facts| - 1 ==> !facts[k].TurnAdvanced?
    requires var last := facts[|facts| - 1];
             if last.TurnAdvanced? then
               last == TurnAdvanced(t.turn.seat, t.turn.round) && NextInOrder(seats, s.turn.seat, s.turn.round, t.turn)
             else t.turn == s.turn
    ensures StageSaid(before, facts) == if Passed(s, t) then t.turn else before
  {
    hide NextInOrder, StageSaid;
    if facts[|facts| - 1].TurnAdvanced? {
      FreshlyPassed(seats, s, t);
      SaysOneTurn(before, facts, |facts| - 1);
    } else {
      SaysNoTurn(before, facts);
    }
  }

  lemma {:induction false} DepartureSpoken(cfg: ValidConfig, s: State, i: Input, before: Turn)
    requires Inv(cfg, s) && s.phase == Playing && i.action == Leave && Accepted(cfg, s, i)
    ensures var t := Apply(cfg, s, i.actor, i.action, i.dice).value;
            StageSaid(before, t.facts) == if Passed(s, t.next) then t.next.turn else before
  {
    hide Inv, Apply, NextInOrder, ActiveSeats, StageSaid, Passed;
    DepartureTurn(cfg, s, i);
    var t := Apply(cfg, s, i.actor, i.action, i.dice).value;
    LastSpeaks(before, t.facts, ActiveSeats(t.next.players), s, t.next);
  }

  lemma {:induction false} DecisionSpoken(cfg: ValidConfig, s: State, i: Input, before: Turn)
    requires Inv(cfg, s) && (i.action == Buy || i.action == Decline) && Accepted(cfg, s, i)
    ensures var t := Apply(cfg, s, i.actor, i.action, i.dice).value; StageSaid(before, t.facts) == before && !Passed(s, t.next)
  {
    hide Inv, Apply, Worth, StageSaid, IndexOf;
    if i.action == Buy { BuyDoes(cfg, s, i); } else { DeclineDoes(cfg, s, i); }
    SaysNoTurn(before, Apply(cfg, s, i.actor, i.action, i.dice).value.facts);
  }

  /** An accepted action speaks of the turn exactly if it passes it on, and then says all there is to it. */
  lemma {:induction false} StageSpoken(cfg: ValidConfig, s: State, i: Input, before: Turn)
    requires Inv(cfg, s) && s.phase == Playing && Accepted(cfg, s, i)
    ensures var t := Apply(cfg, s, i.actor, i.action, i.dice).value;
            StageSaid(before, t.facts) == if Passed(s, t.next) then t.next.turn else before
  {
    PlayingAccepts(cfg, s, i);
    hide Inv, Apply, NextInOrder, ActiveSeats, StageSaid, IndexOf;
    var t := Apply(cfg, s, i.actor, i.action, i.dice).value;
    match i.action {
      case Roll => RollSpoken(cfg, s, i, before);
      case Leave => DepartureSpoken(cfg, s, i, before);
      case EndTurn =>
        EndTurnDoes(cfg, s, i);
        FreshlyPassed(ActiveSeats(s.players), s, t.next);
        SaysOneTurn(before, t.facts, 0);
      case _ => DecisionSpoken(cfg, s, i, before);
    }
  }

  lemma PlayingAccepts(cfg: ValidConfig, s: State, i: Input)
    requires s.phase == Playing && Accepted(cfg, s, i)
    ensures IsBoardAction(i.action) || i.action == Leave
  {
  }

  /** The turn as it was given to its holder: where it last passed on in a run, or as it stood before. */
  ghost function TurnGiven(cfg: ValidConfig, s: State, inputs: seq<Input>): Turn {
    if inputs == [] then s.turn
    else
      var front := inputs[..|inputs| - 1];
      if Passed(After(cfg, s, front), After(cfg, s, inputs)) then After(cfg, s, inputs).turn else TurnGiven(cfg, s, front)
  }

  lemma {:induction false} FreshStage(cfg: ValidConfig, sc: Screen, s: State, since: nat, i: Input)
    requires Inv(cfg, s) && (s.phase == Playing || s.phase == Ended) && Following(sc, s, since)
    ensures var n, t := ClientAfter(cfg, sc, s, Fresh(i)), Step(cfg, s, i).next;
            n.view.Some? && n.view.value.turn == if Passed(s, t) then t.turn else sc.view.value.turn
  {
    hide Inv, Apply, Agrees, Fold, Mark, RecentMarked, StageSaid, ReduceAll;
    if s.phase == Ended {
      EndedDelivers(cfg, sc, s, i);
    } else if Accepted(cfg, s, i) {
      var t := Apply(cfg, s, i.actor, i.action, i.dice).value;
      AcceptedExplains(cfg, s, i.actor, i.action, i.dice);
      FoldIsReduce(sc.view.value, t.facts, t.next.tick);
      ReducesTurn(sc.view.value, t.facts);
      StageSpoken(cfg, s, i, sc.view.value.turn);
    }
  }

  /**
   Of the turn's stage a view shows what it was when the turn was given: through any run and redelivery, the turn on screen
   is the one last passed on. It is the match's own until the holder acts, and again once they pass it on.
   */
  lemma {:induction false} StageFollows(cfg: ValidConfig, sc: Screen, s: State, ds: seq<Delivery>)
    requires Inv(cfg, s) && s.phase == Playing && AtLeastOnce(cfg, s, ds)
    requires Following(sc, s, s.tick) && sc.view.value.turn == s.turn
    ensures var n := Screened(cfg, sc, s, ds); n.view.Some? && n.view.value.turn == TurnGiven(cfg, s, Inputs(ds))
  {
    hide Inv, Following, Step, Deliverable, ClientAfter, Passed;
    if ds == [] {
      assert Screened(cfg, sc, s, ds) == sc;
      Follower(sc, s);
    } else {
      var before, d := ds[..|ds| - 1], ds[|ds| - 1];
      var t, inputs := After(cfg, s, Inputs(before)), Inputs(before);
      StageFollows(cfg, sc, s, before);
      ViewFollowsMatch(cfg, sc, s, before);
      RunInv(cfg, s, inputs);
      StaysStarted(cfg, s, inputs);
      match d {
        case Fresh(input) =>
          FreshStage(cfg, Screened(cfg, sc, s, before), t, s.tick, input);
          assert (inputs + [input])[..|inputs|] == inputs;
        case Again(events) =>
          AgainStage(cfg, Screened(cfg, sc, s, before), t, s.tick, events);
          assert Inputs(ds) == inputs;
      }
    }
  }

  lemma Follower(sc: Screen, s: State)
    requires Following(sc, s, s.tick)
    ensures sc.view.Some?
  {
  }

  lemma {:induction false} AgainStage(cfg: ValidConfig, sc: Screen, s: State, since: nat, events: seq<Event>)
    requires Following(sc, s, since) && Deliverable(s, since, Again(events))
    ensures ClientAfter(cfg, sc, s, Again(events)).view == sc.view
  {
    if events != [] {
      var t := events[0].tick;
      assert MarkedSince(sc.applied, t, s.tick - t);
      assert t in sc.applied;
    }
  }

  // ---- any events, in any order -----------------------------------------------------------------

  predicate DistinctIds(ps: seq<Player>) { forall j, k :: 0 <= j < k < |ps| ==> ps[j].id != ps[k].id }

  lemma {:induction false} NobodyTwice(v: State, f: Fact)
    requires DistinctIds(v.players)
    ensures DistinctIds(Reduce(v, f).players)
  {
  }

  /** Whatever arrives, however often and in whatever order, nobody is ever listed twice. */
  lemma {:induction false} NobodyListedTwice(v: State, facts: seq<Fact>)
    requires DistinctIds(v.players)
    ensures DistinctIds(ReduceAll(v, facts).players)
  {
    if facts == [] {
    } else {
      NobodyListedTwice(v, facts[..|facts| - 1]);
      NobodyTwice(ReduceAll(v, facts[..|facts| - 1]), facts[|facts| - 1]);
    }
  }

  /** A roll to a space the view does not have moves nobody. */
  lemma {:induction false} NowhereToGo(v: State, f: Fact)
    requires DistinctIds(v.players) && f.DiceRolled? && forall k :: 0 <= k < |v.spaces| ==> v.spaces[k].def.id != f.toSpace
    ensures Reduce(v, f) == v
  {
  }
}
