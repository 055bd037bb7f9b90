/**
 The board rules as they run: every handler works in place on a clone of its input, and each method is proved to
 compute the function of module `Rules` that specifies it (board_ruleset.go, board.go).
 */
module BoardRuleset {
  import opened Config
  import opened Domain
  import opened Seats
  import opened Rules
  import opened Roster
  import opened States
  import opened Economy

  /** What a handler hands back: a refusal, or a new state with the facts that explain it. */
  datatype Reply = Refused(error: Error) | Accepted(next: GameState, facts: seq<Fact>)

  ghost predicate Answers(reply: Reply, spec: Result<Transition>)
    reads if reply.Accepted? then {reply.next, reply.next.players, reply.next.spaces} else {}
  {
    match reply
    case Refused(error) => spec == Err(error)
    case Accepted(next, facts) => spec == Ok(Transition(next.Value(), facts))
  }

  // ---- steps the handlers share ----------------------------------------------

  /** Returns every space of `owner` to the bank, reporting their ids in board order. */
  method ReleaseHoldings(state: GameState, owner: PlayerId) returns (released: seq<string>)
    modifies state.spaces
    ensures state.spaces[..] == Release(old(state.spaces[..]), owner)
    ensures released == OwnedIds(old(state.spaces[..]), owner)
  {
    var spaces := state.spaces;
    ghost var was := spaces[..];
    released := [];
    for k := 0 to spaces.Length
      invariant spaces[..k] == Release(was, owner)[..k]
      invariant spaces[k..] == was[k..]
      invariant released == OwnedIds(was[..k], owner)
    {
      assert spaces[k] == spaces[k..][0] == was[k];
      assert was[..k + 1][..k] == was[..k];
      if spaces[k].owned && spaces[k].owner == owner {
        released := released + [spaces[k].def.id];
        spaces[k] := spaces[k].(owned := false, owner := NoPlayer, level := 0);
      }
      assert spaces[..k + 1] == spaces[..k] + [spaces[k]];
      assert spaces[k + 1..] == was[k..][1..];
    }
    assert was[..spaces.Length] == was;
  }

  /** The next active seat after `from` in seat order, and the round it plays in. */
  method AdvanceSeat(state: GameState, from: nat) returns (seat: nat, round: int)
    ensures (seat, round) == NextTurn(ActiveSeats(state.players[..]), from, state.turn.round)
  {
    var active := state.ActivePlayers();
    ActiveListed(active, state.players[..]);
    hide ActiveSeats, ListsActive, ActiveInOrder, SeatSorted, Actives, DistinctSeats;
    round := state.turn.round;
    for k := 0 to |active|
      invariant forall j :: 0 <= j < k ==> active[j].seat <= from
    {
      if active[k].seat > from {
        NextAbove(active, state.players[..], from, k);
        return active[k].seat, round;
      }
    }
    NoneAbove(active, state.players[..], from);
    if |active| > 0 { return active[0].seat, round + 1; }
    return from, round;
  }

  /** Arms a fresh turn for the next active seat. */
  method PassTurn(state: GameState, from: nat) returns (fact: Fact)
    modifies state`turn
    ensures state.Value() == AdvanceFrom(old(state.Value()), from)
    ensures fact == Advanced(state.Value())
  {
    var seat, round := AdvanceSeat(state, from);
    state.turn := Turn(seat, AwaitRoll, round, 0, false);
    fact := TurnAdvanced(seat, round);
  }

  method MaybeEndForInsufficientPlayers(state: GameState) returns (facts: seq<Fact>)
    modifies state`phase, state`winner, state`endReason
    ensures Transition(state.Value(), facts) == EndIfShort(old(state.Value()))
  {
    hide Actives, ActiveSeats, ListsActive, ActiveInOrder, DistinctSeats;
    var active := state.ActivePlayers();
    SameCount(active, Actives(state.players[..]));
    if state.phase != Playing || |active| >= 2 { return []; }
    state.phase := Ended;
    if |active| == 1 {
      assert active[0] in multiset(Actives(state.players[..]));
      state.winner, state.endReason := Some(active[0].id), ByLastStanding;
    } else {
      state.winner, state.endReason := None, ByShortage;
    }
    facts := [GameEnded(state.winner, state.endReason)];
  }

  method End(state: GameState, winner: Option<PlayerId>, reason: EndReason) returns (facts: seq<Fact>)
    modifies state`phase, state`winner, state`endReason
    ensures Transition(state.Value(), facts) == EndMatch(old(state.Value()), winner, reason)
  {
    state.phase, state.winner, state.endReason := Ended, winner, reason;
    facts := [GameEnded(winner, reason)];
  }

  /** Ends the match with the richest active player as its winner. */
  method Proclaim(state: GameState, reason: EndReason) returns (facts: seq<Fact>)
    requires Seated(state.players[..]) && ActiveSeats(state.players[..]) != {}
    modifies state`phase, state`winner, state`endReason
    ensures Transition(state.Value(), facts)
            == EndMatch(old(state.Value()), Some(old(state.Value()).players[Richest(old(state.Value()))].id), reason)
  {
    var winner := state.RichestActive();
    facts := End(state, Some(winner.value.id), reason);
  }

  /** The victory conditions: last standing, then target wealth, then the round limit. */
  method EvaluateMatchEnd(cfg: ValidConfig, state: GameState) returns (facts: seq<Fact>)
    requires Seated(state.players[..])
    modifies state`phase, state`winner, state`endReason
    ensures Transition(state.Value(), facts) == Evaluate(cfg, old(state.Value()))
  {
    hide EndIfShort, Holdings, SeatSorted, SeatOrdered, Actives, ActiveSeats;
    if state.phase != Playing { return []; }
    var count := state.ActivePlayerCount();
    if count < 2 {
      facts := MaybeEndForInsufficientPlayers(state);
      return;
    }
    var active := state.ActivePlayers();
    ghost var s := state.Value();
    ActivesSit(s.players);
    if cfg.victory.kind == TargetWealth {
      for k := 0 to |active|
        invariant state.Value() == s
        invariant forall j :: 0 <= j < k ==> WorthOf(s, active[j]) < cfg.victory.targetWealth
      {
        var w := state.NetWorth(active[k].id);
        ActiveMember(active, state.players[..], k);
        if w >= cfg.victory.targetWealth {
          facts := Proclaim(state, ByTargetWealth);
          return;
        }
      }
      TargetMissed(cfg, s, active);
    }
    if cfg.victory.kind == RoundLimit && state.turn.round > cfg.victory.roundLimit {
      facts := Proclaim(state, ByRoundLimit);
      return;
    }
    return [];
  }

  /** The shared preconditions of every board action. */
  method RequireTurn(state: GameState, actor: PlayerId, phase: TurnPhase) returns (err: Option<Error>)
    ensures err == TurnError(state.Value(), actor, phase)
  {
    if state.phase != Playing { return Some(ErrOutOfPhase); }
    if state.turn.phase == NoTurn { return Some(ErrCorrupt); }
    if state.spaces.Length == 0 { return Some(ErrCorrupt); }
    assert state.spaces[..] != [];
    var i := state.PlayerIndex(actor);
    if i == state.players.Length { return Some(ErrPlayerNotInGame); }
    var p := state.players[i];
    if p.status != Active { return Some(ErrNotPermitted); }
    if p.position < 0 || p.position >= state.spaces.Length { return Some(ErrCorrupt); }
    if p.seat != state.turn.seat { return Some(ErrNotYourTurn); }
    if state.turn.phase != phase { return Some(ErrOutOfPhase); }
    return None;
  }

  // ---- the board actions -----------------------------------------------------

  /** What a landing did, beside its writes. */
  datatype Outcome = Outcome(facts: seq<Fact>, buyDecision: bool, bankrupt: bool)

  ghost function AsLanding(state: GameState, o: Outcome): Landing
    reads state, state.players, state.spaces
  {
    Landing(state.Value(), o.facts, o.buyDecision, o.bankrupt)
  }

  /** Eliminates player i, whose holdings revert to the bank, and passes the turn on. */
  method GoBankrupt(next: GameState, i: nat, creditor: PlayerId, owed: int, cause: Cause) returns (o: Outcome)
    requires i < next.players.Length
    modifies next`turn, next.players, next.spaces
    ensures AsLanding(next, o) == Bankrupt(old(next.Value()), i, creditor, owed, cause)
    ensures old(Seated(next.players[..])) ==> Seated(next.players[..])
  {
    var id := next.players[i].id;
    var released := ReleaseHoldings(next, id);
    next.players[i] := next.players[i].(status := Eliminated);
    assert next.Value() == Eliminate(old(next.Value()), i);
    var facts := [PlayerBankrupt(id, cause, creditor, owed, released), PlayerEliminated(id, cause)];
    var count := next.ActivePlayerCount();
    ActivesSit(next.players[..]);
    if count == 0 { return Outcome(facts, false, true); }
    var advanced := PassTurn(next, next.players[i].seat);
    o := Outcome(facts + [advanced], false, true);
  }

  method PayBank(next: GameState, i: nat, amount: int)
    requires i < next.players.Length
    modifies next.players
    ensures next.Value() == Pay(old(next.Value()), i, amount)
    ensures old(Seated(next.players[..])) ==> Seated(next.players[..])
  {
    next.players[i] := next.players[i].(money := next.players[i].money - amount);
  }

  method PayOver(next: GameState, i: nat, h: nat, amount: int)
    requires i < next.players.Length && h < next.players.Length
    modifies next.players
    ensures next.Value() == Pay(Pay(old(next.Value()), i, amount), h, -amount)
    ensures old(Seated(next.players[..])) ==> Seated(next.players[..])
  {
    next.players[i] := next.players[i].(money := next.players[i].money - amount);
    next.players[h] := next.players[h].(money := next.players[h].money + amount);
  }

  /** Applies the space player i has moved onto; a payment they cannot meet is a bankruptcy. */
  method Land(next: GameState, i: nat, to: int) returns (r: Result<Outcome>)
    requires i < next.players.Length
    modifies next`turn, next.players, next.spaces
    ensures var spec := ResolveLanding(old(next.Value()), i, to);
            if spec.Err? then r == Err(spec.error) else r.Ok? && AsLanding(next, r.value) == spec.value
    ensures old(Seated(next.players[..])) ==> Seated(next.players[..])
  {
    hide Bankrupt, Pay;
    var quiet := Outcome([], false, false);
    if to < 0 || to >= next.spaces.Length { return Err(ErrCorrupt); }
    var space := next.spaces[to];
    var p := next.players[i];
    match space.def.kind {
      case Go => return Ok(quiet);
      case Neutral => return Ok(quiet);
      case UnknownKind => return Err(ErrCorrupt);
      case Tax =>
        if p.money < space.def.amount {
          var o := GoBankrupt(next, i, NoPlayer, space.def.amount, BankruptcyTax);
          return Ok(o);
        }
        PayBank(next, i, space.def.amount);
        return Ok(Outcome([BankTransfer(p.id, space.def.amount, ToBank, TaxDue)], false, false));
      case Property =>
        if !space.owned { return Ok(Outcome([], p.money >= space.def.price, false)); }
        if space.owner == p.id { return Ok(quiet); }
        var h := next.PlayerIndex(space.owner);
        if h == next.players.Length || next.players[h].status != Active { return Ok(quiet); }
        if p.money < space.def.rent {
          var o := GoBankrupt(next, i, next.players[h].id, space.def.rent, BankruptcyRent);
          return Ok(o);
        }
        var owner := next.players[h].id;
        PayOver(next, i, h, space.def.rent);
        return Ok(Outcome([RentPaid(p.id, owner, space.def.id, space.def.rent)], false, false));
    }
  }

  /** Moves player i by the dice total, paying one bonus for each time the loop is closed. */
  method MoveToken(cfg: ValidConfig, next: GameState, i: nat, dice: Dice) returns (facts: seq<Fact>)
    requires i < next.players.Length && 0 <= next.players[i].position < next.spaces.Length
    modifies next.players
    ensures next.Value() == Moved(cfg, old(next.Value()), i, dice.d1 + dice.d2)
    ensures facts == MoveFacts(cfg, old(next.Value()), i, dice)
    ensures old(Seated(next.players[..])) ==> Seated(next.players[..])
  {
    var p, n, total := next.players[i], next.spaces.Length, dice.d1 + dice.d2;
    var to, passes := (p.position + total) % n, (p.position + total) / n;
    WalkIsDivMod(p.position, total, n);
    GoBonusIsProduct(cfg, passes);
    next.players[i] := p.(position := to);
    facts := [DiceRolled(p.id, dice.d1, dice.d2, next.spaces[p.position].def.id, next.spaces[to].def.id, passes > 0)];
    if passes > 0 {
      var bonus := cfg.rules.passingGoBonus * passes;
      next.players[i] := next.players[i].(money := p.money + bonus);
      facts := facts + [BankTransfer(p.id, bonus, ToPlayer, if to == 0 then LandGo else PassGo)];
    }
  }

  /** Looks at the victory conditions and hands over the finished state. */
  method Finish(cfg: ValidConfig, next: GameState, facts: seq<Fact>) returns (reply: Reply)
    requires Seated(next.players[..])
    modifies next`phase, next`winner, next`endReason
    ensures reply.Accepted? && reply.next == next
    ensures Answers(reply, Ok(Closing(cfg, old(next.Value()), facts)))
  {
    hide Evaluate;
    var end := EvaluateMatchEnd(cfg, next);
    reply := Accepted(next, facts + end);
  }

  /** How the turn goes on after a landing that left its holder solvent. */
  method Settle(next: GameState, buyDecision: bool, streak: int, extra: bool)
    modifies next`turn
    ensures next.turn == SettleTurn(old(next.turn), buyDecision, streak, extra)
  {
    if buyDecision {
      next.turn := next.turn.(phase := AwaitBuyDecision, streak := streak, award := extra);
    } else if extra {
      next.turn := next.turn.(phase := AwaitRoll, streak := streak, award := false);
    } else {
      next.turn := next.turn.(phase := TurnOver, streak := 0, award := false);
    }
  }

  method RollOn(cfg: ValidConfig, next: GameState, i: nat, dice: Dice) returns (reply: Reply)
    requires Seated(next.players[..])
    requires i < next.players.Length && 0 <= next.players[i].position < next.spaces.Length
    modifies next, next.players, next.spaces
    ensures Answers(reply, RollOf(cfg, old(next.Value()), i, dice))
    ensures next.players == old(next.players) && next.spaces == old(next.spaces)
    ensures reply.Accepted? ==> reply.next == next
  {
    hide Closing, ResolveLanding, Moved, MoveFacts, Seated, SettleTurn;
    var streak, extra := next.turn.streak, false;
    if dice.d1 == dice.d2 && cfg.rules.doublesExtraRoll {
      streak := streak + 1;
      extra := streak < cfg.rules.maxDoublesStreak;
    } else {
      streak := 0;
    }
    assert (streak, extra) == Streak(cfg, next.turn.streak, dice);
    var facts := MoveToken(cfg, next, i, dice);
    var landing := Land(next, i, next.players[i].position);
    if landing.Err? { return Refused(landing.error); }
    facts := facts + landing.value.facts;
    if !landing.value.bankrupt {
      Settle(next, landing.value.buyDecision, streak, extra);
    }
    reply := Finish(cfg, next, facts);
  }

  /** Movement, landing, turn flow and victory in one transition, whatever the dice. */
  method Roll(cfg: ValidConfig, state: GameState, actor: PlayerId, dice: Dice) returns (reply: Reply)
    requires Seated(state.players[..])
    ensures Answers(reply, DoRoll(cfg, state.Value(), actor, dice))
    ensures reply.Accepted? ==> fresh(reply.next.Storage())
  {
    hide RollOf;
    var err := RequireTurn(state, actor, AwaitRoll);
    if err.Some? { return Refused(err.value); }
    var next := state.Clone();
    var i := next.PlayerIndex(actor);
    reply := RollOn(cfg, next, i, dice);
  }

  method CloseDecision(next: GameState)
    modifies next`turn
    ensures next.turn == AfterDecision(old(next.turn))
  {
    if next.turn.award {
      next.turn := next.turn.(phase := AwaitRoll);
    } else {
      next.turn := next.turn.(phase := TurnOver);
    }
    next.turn := next.turn.(award := false);
  }

  method TakeDeed(next: GameState, i: nat, at: nat)
    requires i < next.players.Length && at < next.spaces.Length
    modifies next.players, next.spaces
    ensures var was, sp := old(next.Value()), old(next.spaces[at]);
            next.Value() == Pay(was, i, sp.def.price).(spaces := was.spaces[at := sp.(owned := true, owner := was.players[i].id)])
    ensures old(Seated(next.players[..])) ==> Seated(next.players[..])
  {
    next.players[i] := next.players[i].(money := next.players[i].money - next.spaces[at].def.price);
    next.spaces[at] := next.spaces[at].(owned := true, owner := next.players[i].id);
  }

  method Buy(cfg: ValidConfig, state: GameState, actor: PlayerId) returns (reply: Reply)
    requires Seated(state.players[..])
    ensures Answers(reply, DoBuy(cfg, state.Value(), actor))
    ensures reply.Accepted? ==> fresh(reply.next.Storage())
  {
    hide Closing, Pay, IndexOf, TurnError;
    var err := RequireTurn(state, actor, AwaitBuyDecision);
    if err.Some? { return Refused(err.value); }
    MayAct(state.Value(), actor, AwaitBuyDecision);
    var next := state.Clone();
    var i := next.PlayerIndex(actor);
    var at := next.players[i].position;
    var space := next.spaces[at];
    if space.def.kind != Property || space.owned { return Refused(ErrNotPermitted); }
    if next.players[i].money < space.def.price { return Refused(ErrNotPermitted); }
    TakeDeed(next, i, at);
    CloseDecision(next);
    reply := Finish(cfg, next, [PropertyBought(actor, space.def.id, space.def.price)]);
  }

  method Decline(cfg: ValidConfig, state: GameState, actor: PlayerId) returns (reply: Reply)
    requires Seated(state.players[..])
    ensures Answers(reply, DoDecline(cfg, state.Value(), actor))
    ensures reply.Accepted? ==> fresh(reply.next.Storage())
  {
    hide Closing;
    var err := RequireTurn(state, actor, AwaitBuyDecision);
    if err.Some? { return Refused(err.value); }
    var next := state.Clone();
    var i := next.PlayerIndex(actor);
    var space := next.spaces[next.players[i].position];
    if space.def.kind != Property || space.owned { return Refused(ErrNotPermitted); }
    CloseDecision(next);
    reply := Finish(cfg, next, [BuyDeclined(actor, space.def.id)]);
  }

  method EndTurn(cfg: ValidConfig, state: GameState, actor: PlayerId) returns (reply: Reply)
    requires Seated(state.players[..])
    ensures Answers(reply, DoEndTurn(cfg, state.Value(), actor))
    ensures reply.Accepted? ==> fresh(reply.next.Storage())
  {
    var err := RequireTurn(state, actor, TurnOver);
    if err.Some? { return Refused(err.value); }
    var next := state.Clone();
    var advanced := PassTurn(next, state.turn.seat);
    reply := Finish(cfg, next, [advanced]);
  }

  // ---- facts about the loops -------------------------------------------------

  lemma {:induction false} MayAct(s: State, actor: PlayerId, phase: TurnPhase)
    requires TurnError(s, actor, phase) == None
    ensures Has(s.players, actor) && 0 <= s.players[IndexOf(s.players, actor)].position < |s.spaces|
  {
  }

  lemma {:induction false} SeatsListed(out: seq<Player>, ps: seq<Player>)
    requires ListsActive(out, ps)
    ensures SeatSet(out) == ActiveSeats(ps)
    ensures forall k :: 0 <= k < |out| ==> out[k].seat in ActiveSeats(ps)
    ensures forall s :: s in ActiveSeats(ps) ==> exists k :: 0 <= k < |out| && out[k].seat == s
  {
    assert ActiveSeats(ps) == SeatSet(out) by {
      forall s | s in ActiveSeats(ps) ensures s in SeatSet(out) {
        var i :| 0 <= i < |ps| && IsActive(ps[i]) && ps[i].seat == s;
        assert ps[i] in out;
      }
      forall s | s in SeatSet(out) ensures s in ActiveSeats(ps) {
        var k :| 0 <= k < |out| && out[k].seat == s;
        assert out[k] in out;
        var i :| 0 <= i < |ps| && ps[i] == out[k];
      }
    }
  }

  lemma {:induction false} SameCount(ps: seq<Player>, qs: seq<Player>)
    requires multiset(ps) == multiset(qs)
    ensures |ps| == |qs|
  {
    assert |multiset(ps)| == |ps|;
  }

  ghost function SeatSet(ps: seq<Player>): set<nat> { set k | 0 <= k < |ps| :: ps[k].seat }

  /** The first listed seat above `from` is the least one. */
  lemma {:induction false} NextAbove(out: seq<Player>, ps: seq<Player>, from: nat, k: nat)
    requires ListsActive(out, ps) && k < |out| && from < out[k].seat
    requires forall j :: 0 <= j < k ==> out[j].seat <= from
    ensures Above(ActiveSeats(ps), from) != {} && Least(Above(ActiveSeats(ps), from)) == out[k].seat
  {
    SeatsListed(out, ps);
    assert IsLeast(out[k].seat, Above(ActiveSeats(ps), from));
  }

  /** If no listed seat is above `from`, the turn goes round to the first one. */
  lemma {:induction false} NoneAbove(out: seq<Player>, ps: seq<Player>, from: nat)
    requires ListsActive(out, ps) && forall k :: 0 <= k < |out| ==> out[k].seat <= from
    ensures Above(ActiveSeats(ps), from) == {}
    ensures out != [] ==> ActiveSeats(ps) != {} && Least(ActiveSeats(ps)) == out[0].seat
  {
    SeatsListed(out, ps);
    if out != [] { assert IsLeast(out[0].seat, ActiveSeats(ps)); }
  }

  lemma {:induction false} TargetMissed(cfg: ValidConfig, s: State, active: seq<Player>)
    requires ActiveInOrder(active, s.players)
    requires forall j :: 0 <= j < |active| ==> WorthOf(s, active[j]) < cfg.victory.targetWealth
    ensures !TargetReached(cfg, s)
  {
    forall i | 0 <= i < |s.players| && IsActive(s.players[i]) ensures Worth(s, i) < cfg.victory.targetWealth {
      assert s.players[i] in active;
      var j :| 0 <= j < |active| && active[j] == s.players[i];
    }
  }
}
