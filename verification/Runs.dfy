/** Runs: any number of inputs by anyone, with any dice; refused inputs change nothing. */
module Runs {
  import opened Config
  import opened Domain
  import opened Rules
  import opened Invariant

  datatype Input = Input(actor: PlayerId, action: Action, dice: Dice)

  /** A match as created, with or without its board. */
  ghost predicate Initial(cfg: ValidConfig, s: State) {
    s == NewState([]) || s == NewState(NewBoard(cfg))
  }

  ghost predicate Accepted(cfg: ValidConfig, s: State, input: Input) {
    Apply(cfg, s, input.actor, input.action, input.dice).Ok?
  }

  ghost function Step(cfg: ValidConfig, s: State, input: Input): Transition {
    var r := Apply(cfg, s, input.actor, input.action, input.dice);
    if r.Ok? then r.value else Transition(s, [])
  }

  ghost function After(cfg: ValidConfig, s: State, inputs: seq<Input>): State {
    if inputs == [] then s
    else Step(cfg, After(cfg, s, inputs[..|inputs| - 1]), inputs[|inputs| - 1]).next
  }

  /** Everything a run has logged. */
  ghost function Log(cfg: ValidConfig, s: State, inputs: seq<Input>): seq<Fact> {
    if inputs == [] then []
    else
      var before := inputs[..|inputs| - 1];
      Log(cfg, s, before) + Step(cfg, After(cfg, s, before), inputs[|inputs| - 1]).facts
  }

  lemma InitialInv(cfg: ValidConfig, s: State)
    requires Initial(cfg, s)
    ensures Inv(cfg, s)
  {
  }

  lemma {:induction false} StepInv(cfg: ValidConfig, s: State, input: Input)
    requires Inv(cfg, s)
    ensures Inv(cfg, Step(cfg, s, input).next)
  {
    hide Core, LobbyOk, PlayingOk, Decided, RoundCapped;
    if Apply(cfg, s, input.actor, input.action, input.dice).Ok? {
      ApplyInv(cfg, s, input.actor, input.action, input.dice);
    }
  }

  /** Every state of every run satisfies the invariant. */
  lemma {:induction false} RunInv(cfg: ValidConfig, s: State, inputs: seq<Input>)
    requires Inv(cfg, s)
    ensures Inv(cfg, After(cfg, s, inputs))
  {
    hide Core, LobbyOk, PlayingOk, Decided, RoundCapped;
    if inputs == [] {
    } else {
      RunInv(cfg, s, inputs[..|inputs| - 1]);
      StepInv(cfg, After(cfg, s, inputs[..|inputs| - 1]), inputs[|inputs| - 1]);
    }
  }

  /** An ended match accepts nothing, so its winner is set once. */
  lemma EndedIsFinal(cfg: ValidConfig, s: State, input: Input)
    requires s.phase == Ended
    ensures Apply(cfg, s, input.actor, input.action, input.dice).Err?
    ensures Step(cfg, s, input).next == s
  {
  }
}
