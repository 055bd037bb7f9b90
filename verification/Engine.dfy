/** The engine: one action in, one new state and its stamped events out, or a refusal (engine.go, ruleset.go). */
module Engine {
  import opened Config
  import opened Domain
  import opened Seats
  import opened Rules
  import opened States
  import opened BoardRuleset
  import opened LifecycleRuleset

  datatype Applied = Rejected(error: Error) | Applied(next: GameState, events: seq<Event>)

  /** The outcome is the specified one, every event carrying the new state's tick. */
  ghost predicate Realizes(a: Applied, spec: Result<Transition>)
    reads if a.Applied? then {a.next, a.next.players, a.next.spaces} else {}
  {
    match a
    case Rejected(error) => spec == Err(error)
    case Applied(next, events) =>
      spec.Ok? && spec.value.next == next.Value() && events == Stamped(spec.value.facts, spec.value.next.tick)
  }

  class MatchEngine {
    const cfg: ValidConfig

    constructor (cfg: ValidConfig)
      ensures this.cfg == cfg
    {
      this.cfg := cfg;
    }

    method Handle(state: GameState, actor: PlayerId, action: Action, dice: Dice) returns (reply: Reply)
      requires Seated(state.players[..])
      ensures Answers(reply, Rules.Handle(cfg, state.Value(), actor, action, dice))
      ensures reply.Accepted? ==> fresh(reply.next.Storage())
    {
      hide Answers, DoJoin, DoLeave, DoReady, DoStart, DoRoll, DoBuy, DoDecline, DoEndTurn;
      match action {
        case Join(name) => reply := LifecycleRuleset.Join(cfg, state, name);
        case Leave => reply := LifecycleRuleset.Leave(state, actor);
        case Ready(ready) => reply := SetReady(state, actor, ready);
        case Start => reply := LifecycleRuleset.Start(cfg, state, actor);
        case Roll => reply := BoardRuleset.Roll(cfg, state, actor, dice);
        case Buy => reply := BoardRuleset.Buy(cfg, state, actor);
        case Decline => reply := BoardRuleset.Decline(cfg, state, actor);
        case EndTurn => reply := BoardRuleset.EndTurn(cfg, state, actor);
      }
    }

    /** Atomic and non-aliasing: the input is never written, and the result shares no storage with it. */
    method Apply(state: GameState, actor: PlayerId, action: Action, dice: Dice) returns (a: Applied)
      requires Seated(state.players[..])
      ensures Realizes(a, Rules.Apply(cfg, state.Value(), actor, action, dice))
      ensures unchanged(state, state.players, state.spaces)
      ensures a.Applied? ==> fresh(a.next.Storage()) && a.next.tick == state.tick + 1 && a.events != []
    {
      hide Rules.Handle;
      var reply := Handle(state, actor, action, dice);
      if reply.Refused? { return Rejected(reply.error); }
      var next, facts := reply.next, reply.facts;
      next.tick := state.tick + 1;
      var events := new Event[|facts|](k requires 0 <= k < |facts| => Event(0, facts[k]));
      for k := 0 to events.Length
        invariant forall j :: 0 <= j < k ==> events[j] == Event(next.tick, facts[j])
        invariant forall j :: k <= j < events.Length ==> events[j].fact == facts[j]
        modifies events
      {
        events[k] := events[k].(tick := next.tick);
      }
      AcceptedExplains(cfg, state.Value(), actor, action, dice);
      assert events[..] == Stamped(facts, next.tick);
      a := Applied(next, events[..]);
    }
  }

  /** Only a valid configuration makes an engine. */
  method NewEngine(c: GameConfig) returns (e: Option<MatchEngine>)
    ensures e.Some? <==> Valid(c)
    ensures e.Some? ==> e.value.cfg == c
  {
    var issues := Validate(c);
    if issues != [] { return None; }
    var engine := new MatchEngine(c);
    return Some(engine);
  }

  /** Every accepted action says so in at least one event, and advances the tick by exactly one. */
  lemma {:induction false} AcceptedExplains(cfg: ValidConfig, s: State, actor: PlayerId, action: Action, dice: Dice)
    requires Apply(cfg, s, actor, action, dice).Ok?
    ensures var t := Apply(cfg, s, actor, action, dice).value; t.facts != [] && t.next.tick == s.tick + 1
  {
    hide ResolveLanding, Evaluate, Moved, TurnError, EndIfShort, AdvanceFrom;
  }
}
