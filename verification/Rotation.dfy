/** Fair rotation: the turn only moves forward, and nobody who stays is ever skipped. */
module Rotation {
  import opened Config
  import opened Domain
  import opened Seats
  import opened Rules
  import opened Invariant
  import opened Runs
  import opened Turns

  predicate SameTurnHeld(s: State, t: State) {
    t.turn.seat == s.turn.seat && t.turn.round == s.turn.round
  }

  predicate Earlier(s: State, t: State) {
    s.turn.round < t.turn.round || (s.turn.round == t.turn.round && s.turn.seat < t.turn.seat)
  }

  /** The turn stands still, or moves strictly forward to the next player still active. */
  lemma {:induction false} StepMoves(cfg: ValidConfig, s: State, input: Input)
    requires Inv(cfg, s) && s.phase == Playing && Step(cfg, s, input).next.phase == Playing
    ensures var t := Step(cfg, s, input).next;
            && ActiveSeats(t.players) <= ActiveSeats(s.players)
            && ActiveSeats(t.players) != {}
            && (SameTurnHeld(s, t) || (Earlier(s, t) && TurnPassed(s, t)))
  {
    if Accepted(cfg, s, input) { StepTurn(cfg, s, input); }
    hide Step, Core, Inv;
    var t := Step(cfg, s, input).next;
    assert ActiveSeats(t.players) != {} by {
      StepInv(cfg, s, input);
      EnoughToPlay(cfg, t);
    }
  }

  lemma EnoughToPlay(cfg: ValidConfig, s: State)
    requires Inv(cfg, s) && s.phase == Playing
    ensures ActiveSeats(s.players) != {}
  {
  }

  /** Turns seat b has been given by the time the turn stands where it does. */
  function TurnsOf(b: nat, s: State): int {
    if s.turn.seat >= b then s.turn.round else s.turn.round - 1
  }

  predicate Begins(s: State, t: State, b: nat) { !SameTurnHeld(s, t) && t.turn.seat == b }

  lemma {:induction false} StepCounts(cfg: ValidConfig, s: State, input: Input, b: nat)
    requires Inv(cfg, s) && s.phase == Playing && Step(cfg, s, input).next.phase == Playing
    requires b in ActiveSeats(Step(cfg, s, input).next.players)
    ensures var t := Step(cfg, s, input).next;
            TurnsOf(b, t) == TurnsOf(b, s) + if Begins(s, t, b) then 1 else 0
  {
    StepMoves(cfg, s, input);
    hide Step, Inv;
  }

  /** Turns of seat b that begin during a run. */
  ghost function TurnsBegun(cfg: ValidConfig, s: State, inputs: seq<Input>, b: nat): nat {
    if inputs == [] then 0
    else
      var front := inputs[..|inputs| - 1];
      TurnsBegun(cfg, s, front, b)
      + if Begins(After(cfg, s, front), After(cfg, s, inputs), b) then 1 else 0
  }

  lemma {:induction false} PlayingBefore(cfg: ValidConfig, s: State, inputs: seq<Input>)
    requires Inv(cfg, s) && s.phase == Playing && inputs != [] && After(cfg, s, inputs).phase == Playing
    ensures Inv(cfg, After(cfg, s, inputs[..|inputs| - 1]))
    ensures After(cfg, s, inputs[..|inputs| - 1]).phase == Playing
    ensures After(cfg, s, inputs) == Step(cfg, After(cfg, s, inputs[..|inputs| - 1]), inputs[|inputs| - 1]).next
  {
    var front := inputs[..|inputs| - 1];
    RunInv(cfg, s, front);
    StaysStarted(cfg, s, front);
    hide Inv, Step;
  }

  /** A started match is playing or over, never a lobby again. */
  lemma {:induction false} StaysStarted(cfg: ValidConfig, s: State, inputs: seq<Input>)
    requires Inv(cfg, s) && s.phase == Playing
    ensures After(cfg, s, inputs).phase == Playing || After(cfg, s, inputs).phase == Ended
  {
    if inputs == [] {
    } else {
      var front := inputs[..|inputs| - 1];
      StaysStarted(cfg, s, front);
      RunInv(cfg, s, front);
      var t := After(cfg, s, front);
      hide Inv;
      if t.phase == Playing && Accepted(cfg, t, inputs[|inputs| - 1]) {
        hide Handle;
        StepTurn(cfg, t, inputs[|inputs| - 1]);
      } else if t.phase == Ended {
        EndedIsFinal(cfg, t, inputs[|inputs| - 1]);
      }
    }
  }

  /**
   Along any run, a seat that is still active at the end has been given exactly the turns that where the turn
   stands accounts for: it was reached every time the turn went by, and never twice in between.
   */
  lemma {:induction false} TurnsCounted(cfg: ValidConfig, s: State, inputs: seq<Input>, b: nat)
    requires Inv(cfg, s) && s.phase == Playing
    requires After(cfg, s, inputs).phase == Playing && b in ActiveSeats(After(cfg, s, inputs).players)
    ensures TurnsBegun(cfg, s, inputs, b) == TurnsOf(b, After(cfg, s, inputs)) - TurnsOf(b, s)
  {
    if inputs == [] {
    } else {
      PlayingBefore(cfg, s, inputs);
      var front, last := inputs[..|inputs| - 1], inputs[|inputs| - 1];
      var t := After(cfg, s, front);
      StepMoves(cfg, t, last);
      StepCounts(cfg, t, last, b);
      hide Inv, Step;
      TurnsCounted(cfg, s, front, b);
    }
  }

  /** From one turn of a to a later one, everyone who stays active is given exactly as many turns as a. */
  lemma {:induction false} FairRotation(cfg: ValidConfig, s: State, inputs: seq<Input>, a: nat, b: nat)
    requires Inv(cfg, s) && s.phase == Playing && After(cfg, s, inputs).phase == Playing
    requires s.turn.seat == a && After(cfg, s, inputs).turn.seat == a
    requires a in ActiveSeats(After(cfg, s, inputs).players) && b in ActiveSeats(After(cfg, s, inputs).players)
    ensures TurnsBegun(cfg, s, inputs, b) == TurnsBegun(cfg, s, inputs, a)
  {
    hide Inv;
    TurnsCounted(cfg, s, inputs, a);
    TurnsCounted(cfg, s, inputs, b);
  }

  /** Over a whole run the turn never moves back, so a seat has at most one turn in a round. */
  lemma {:induction false} TurnAdvances(cfg: ValidConfig, s: State, inputs: seq<Input>)
    requires Inv(cfg, s) && s.phase == Playing && After(cfg, s, inputs).phase == Playing
    ensures SameTurnHeld(s, After(cfg, s, inputs)) || Earlier(s, After(cfg, s, inputs))
    ensures forall b :: TurnsBegun(cfg, s, inputs, b) > 0 ==> Earlier(s, After(cfg, s, inputs))
  {
    if inputs == [] {
    } else {
      PlayingBefore(cfg, s, inputs);
      var front, last := inputs[..|inputs| - 1], inputs[|inputs| - 1];
      StepMoves(cfg, After(cfg, s, front), last);
      hide Inv, Step;
      TurnAdvances(cfg, s, front);
    }
  }
}
