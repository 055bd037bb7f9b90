/** The turn over whole runs: fair rotation, bounded turns, bounded matches. */
module Turns {
  import opened Config
  import opened Domain
  import opened Seats
  import opened Rules
  import opened Invariant
  import opened Runs

  // ---- one step --------------------------------------------------------------

  /** Someone leaves: the turn stays where it is, or passes on if it was theirs. */
  ghost predicate Departed(s: State, t: State, seat: nat) {
    && ActiveSeats(t.players) == ActiveSeats(s.players) - {seat}
    && seat in ActiveSeats(s.players)
    && if seat == s.turn.seat then TurnPassed(s, t) else t.turn == s.turn
  }

  ghost predicate Untouched(s: State, t: State) {
    t.turn == s.turn && ActiveSeats(t.players) == ActiveSeats(s.players)
  }

  function RollsIn(action: Action): int { if action == Roll then 1 else 0 }

  /** How a running match that keeps running changes in one accepted action. */
  ghost predicate TurnStep(cfg: ValidConfig, s: State, t: State, input: Input) {
    if IsBoardAction(input.action) then Progress(cfg, s, t, RollsIn(input.action))
    else Untouched(s, t) || exists seat :: Departed(s, t, seat)
  }

  lemma {:induction false} BoardStep(cfg: ValidConfig, s: State, input: Input)
    requires Inv(cfg, s) && IsBoardAction(input.action) && Accepted(cfg, s, input)
    ensures s.phase == Playing
    ensures var t := Step(cfg, s, input).next;
            t.phase == Ended || (t.phase == Playing && TurnStep(cfg, s, t, input) &&
                                 (cfg.victory.kind == RoundLimit ==> t.turn.round <= cfg.victory.roundLimit))
  {
    hide Inv, RollOf, Core, TurnOk;
    var x, facts := BoardMid(cfg, s, input.actor, input.action, input.dice);
  }

  lemma {:induction false} LeftAs(cfg: ValidConfig, s: State, input: Input)
    requires s.phase == Playing && input.action == Leave && Has(s.players, input.actor)
    ensures Step(cfg, s, input).next == LeaveMatch(s, IndexOf(s.players, input.actor)).next.(tick := s.tick + 1)
  {
    hide LeaveMatch;
  }

  lemma {:induction false} LeftTurn(s: State, i: nat)
    requires s.phase == Playing && i < |s.players|
    ensures var t := LeaveMatch(s, i).next;
            && (t.phase == Ended || t.phase == Playing)
            && t.players == (if IsActive(s.players[i]) then s.players[i := s.players[i].(status := Eliminated)] else s.players)
            && (t.phase == Playing ==>
                  t.turn == if s.players[i].seat == s.turn.seat
                            then TurnAfter(ActiveSeats(t.players), s.turn.seat, s.turn.round) else s.turn)
  {
    hide ActiveSeats, Actives, NextTurn, Release, OwnedIds;
  }

  lemma {:induction false} LeftMoves(s: State, i: nat, tick: nat)
    requires s.phase == Playing && i < |s.players| && Seated(s.players) && s.turn.seat in ActiveSeats(s.players)
    ensures var t := LeaveMatch(s, i).next.(tick := tick);
            t.phase == Ended
            || (t.phase == Playing && if IsActive(s.players[i]) then Departed(s, t, s.players[i].seat) else Untouched(s, t))
  {
    LeftTurn(s, i);
    HolderOf(s.players, i);
    EliminateSeat(s.players, i);
    hide LeaveMatch, ActiveSeats, Seated, NextTurn;
  }

  lemma {:induction false} LeaveStep(cfg: ValidConfig, s: State, input: Input)
    requires Inv(cfg, s) && s.phase == Playing && input.action == Leave && Has(s.players, input.actor)
    ensures var t := Step(cfg, s, input).next; t.phase == Ended || (t.phase == Playing && TurnStep(cfg, s, t, input))
    ensures var i := IndexOf(s.players, input.actor);
            var t := Step(cfg, s, input).next;
            t.phase == Playing && IsActive(s.players[i]) ==> Departed(s, t, s.players[i].seat)
  {
    hide Inv, Step, LeaveMatch, Departed, Untouched;
    var i := IndexOf(s.players, input.actor);
    InPlay(cfg, s);
    LeftAs(cfg, s, input);
    LeftMoves(s, i, s.tick + 1);
  }

  lemma {:induction false} StepTurn(cfg: ValidConfig, s: State, input: Input)
    requires Inv(cfg, s) && s.phase == Playing && Accepted(cfg, s, input)
    ensures var t := Step(cfg, s, input).next; t.phase == Ended || (t.phase == Playing && TurnStep(cfg, s, t, input))
    ensures Inv(cfg, Step(cfg, s, input).next)
  {
    StepInv(cfg, s, input);
    hide Inv, TurnStep, Step, DoRoll, DoBuy, DoDecline, DoEndTurn, LeaveMatch;
    if IsBoardAction(input.action) {
      BoardStep(cfg, s, input);
    } else {
      LeaveStep(cfg, s, input);
    }
  }
}
