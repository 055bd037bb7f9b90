/** The legality projection tells a client exactly what the engine would accept (legality.go). */
module Legality {
  import opened Config
  import opened Domain
  import opened Seats
  import opened Rules
  import opened Invariant

  /** The space the player stands on is a property nobody owns. */
  predicate OnOffer(s: State, p: Player) {
    0 <= p.position < |s.spaces| && s.spaces[p.position].def.kind == Property && !s.spaces[p.position].owned
  }

  function BoardActions(s: State, p: Player): seq<ActionType> {
    if !IsActive(p) || p.seat != s.turn.seat || !(0 <= p.position < |s.spaces|) then []
    else match s.turn.phase
      case NoTurn => []
      case AwaitRoll => [TRoll]
      case AwaitBuyDecision =>
        if !OnOffer(s, p) then []
        else [TDecline] + if p.money >= s.spaces[p.position].def.price then [TBuy] else []
      case TurnOver => [TEndTurn]
  }

  ghost function LegalActions(cfg: ValidConfig, s: State, actor: PlayerId): seq<ActionType> {
    if actor == NoPlayer || !Has(s.players, actor) then []
    else
      var p := s.players[IndexOf(s.players, actor)];
      match s.phase
      case Lobby => [TLeave, TReady] + if p.isHost && CanStart(cfg, s) then [TStart] else []
      case Playing => [TLeave] + BoardActions(s, p)
      case Ended => []
      case Interrupted => []
  }

  ghost predicate Accepts(cfg: ValidConfig, s: State, actor: PlayerId, action: Action, dice: Dice) {
    Apply(cfg, s, actor, action, dice).Ok?
  }

  /** Some payload of this type is accepted, whatever the dice. */
  ghost predicate AcceptsType(cfg: ValidConfig, s: State, actor: PlayerId, t: ActionType) {
    exists a :: TypeOf(a) == t && forall d: Dice :: Accepts(cfg, s, actor, a, d)
  }

  /** No payload of this type is accepted under any dice. */
  ghost predicate RefusesType(cfg: ValidConfig, s: State, actor: PlayerId, t: ActionType) {
    forall a, d: Dice :: TypeOf(a) == t ==> !Accepts(cfg, s, actor, a, d)
  }

  /** A payload that would do for each type, if any does. */
  function Sample(s: State, actor: PlayerId, t: ActionType): Action {
    match t
    case TJoin => Join("")
    case TLeave => Leave
    case TReady => Ready(Has(s.players, actor) && !s.players[IndexOf(s.players, actor)].ready)
    case TStart => Start
    case TRoll => Roll
    case TBuy => Buy
    case TDecline => Decline
    case TEndTurn => EndTurn
  }

  lemma LobbyRosterOk(cfg: ValidConfig, s: State)
    requires Inv(cfg, s) && s.phase == Lobby
    ensures Seated(s.players) && OneHost(s.players)
  {
  }

  lemma {:induction false} StartLegal(cfg: ValidConfig, s: State, actor: PlayerId, d: Dice)
    requires Inv(cfg, s) && s.phase == Lobby
    ensures Accepts(cfg, s, actor, Start, d) <==> TStart in LegalActions(cfg, s, actor)
  {
    hide Inv, Least, NewBoard;
    LobbyRosterOk(cfg, s);
    var i, h := IndexOf(s.players, actor), HostIndex(s.players);
    if i < |s.players| && s.players[i].isHost { assert h == i; }
    if h < |s.players| && s.players[h].id == actor { IndexUnique(s.players, h); }
    hide ActiveSeats, Seated, OneHost;
  }

  lemma {:induction false} LeaveLegal(cfg: ValidConfig, s: State, actor: PlayerId, d: Dice)
    requires Inv(cfg, s)
    ensures Accepts(cfg, s, actor, Leave, d) <==> TLeave in LegalActions(cfg, s, actor)
  {
    hide Core, LobbyOk, PlayingOk, LeaveLobby, LeaveMatch, CanStart;
    NobodyUnnamed(cfg, s);
  }

  /** The empty id is nobody's. */
  lemma NobodyUnnamed(cfg: ValidConfig, s: State)
    requires Inv(cfg, s)
    ensures !Has(s.players, NoPlayer)
  {
  }

  lemma {:induction false} ReadyLegal(cfg: ValidConfig, s: State, actor: PlayerId, ready: bool, d: Dice)
    requires Inv(cfg, s)
    ensures Accepts(cfg, s, actor, Ready(ready), d) ==> TReady in LegalActions(cfg, s, actor)
    ensures TReady in LegalActions(cfg, s, actor) && Ready(ready) == Sample(s, actor, TReady) ==>
              Accepts(cfg, s, actor, Ready(ready), d)
  {
    hide Inv, CanStart;
    NobodyUnnamed(cfg, s);
  }

  lemma {:induction false} RollAccepted(cfg: ValidConfig, s: State, actor: PlayerId, d: Dice)
    requires Inv(cfg, s)
    ensures Accepts(cfg, s, actor, Roll, d) <==> TurnError(s, actor, AwaitRoll) == None
  {
    hide Inv, Mid, Progress, Closing, RollOf, TurnError;
    if TurnError(s, actor, AwaitRoll) == None {
      var x, facts := RollTaken(cfg, s, actor, d);
    }
  }

  lemma {:induction false} DecisionLegal(cfg: ValidConfig, s: State, actor: PlayerId, d: Dice)
    requires Inv(cfg, s)
    ensures Accepts(cfg, s, actor, Buy, d) <==> TBuy in LegalActions(cfg, s, actor)
    ensures Accepts(cfg, s, actor, Decline, d) <==> TDecline in LegalActions(cfg, s, actor)
  {
    hide Inv, Closing, CanStart, Evaluate, AdvanceFrom, Pay;
    NobodyUnnamed(cfg, s);
    TurnShown(cfg, s);
  }

  lemma {:induction false} RollLegal(cfg: ValidConfig, s: State, actor: PlayerId, d: Dice)
    requires Inv(cfg, s)
    ensures Accepts(cfg, s, actor, Roll, d) <==> TRoll in LegalActions(cfg, s, actor)
  {
    hide Inv, Accepts, CanStart;
    NobodyUnnamed(cfg, s);
    TurnShown(cfg, s);
    RollAccepted(cfg, s, actor, d);
  }

  lemma {:induction false} EndTurnLegal(cfg: ValidConfig, s: State, actor: PlayerId, d: Dice)
    requires Inv(cfg, s)
    ensures Accepts(cfg, s, actor, EndTurn, d) <==> TEndTurn in LegalActions(cfg, s, actor)
  {
    hide Inv, Closing, CanStart, Evaluate, AdvanceFrom, Pay;
    NobodyUnnamed(cfg, s);
    TurnShown(cfg, s);
  }

  /** In play there is a board and a turn. */
  lemma TurnShown(cfg: ValidConfig, s: State)
    requires Inv(cfg, s)
    ensures s.phase == Playing ==> s.turn.phase != NoTurn && s.spaces != []
  {
  }

  /** One payload of one action: advertised exactly if accepted, for readiness if it is the toggle. */
  lemma {:induction false} ActionLegal(cfg: ValidConfig, s: State, actor: PlayerId, a: Action, d: Dice)
    requires Inv(cfg, s) && !a.Join?
    ensures Accepts(cfg, s, actor, a, d) ==> TypeOf(a) in LegalActions(cfg, s, actor)
    ensures TypeOf(a) in LegalActions(cfg, s, actor) && a == Sample(s, actor, TypeOf(a)) ==> Accepts(cfg, s, actor, a, d)
  {
    hide Inv, Accepts, LegalActions;
    match a
    case Leave => LeaveLegal(cfg, s, actor, d);
    case Ready(ready) => ReadyLegal(cfg, s, actor, ready, d);
    case Start => if s.phase == Lobby { StartLegal(cfg, s, actor, d); } else { NoStart(cfg, s, actor, d); }
    case Roll => RollLegal(cfg, s, actor, d);
    case Buy => DecisionLegal(cfg, s, actor, d);
    case Decline => DecisionLegal(cfg, s, actor, d);
    case EndTurn => EndTurnLegal(cfg, s, actor, d);
  }

  lemma NoStart(cfg: ValidConfig, s: State, actor: PlayerId, d: Dice)
    requires s.phase != Lobby
    ensures !Accepts(cfg, s, actor, Start, d) && TStart !in LegalActions(cfg, s, actor)
  {
  }

  /** In every reachable state the advertised types are exactly the accepted ones. */
  lemma {:induction false} LegalityExact(cfg: ValidConfig, s: State, actor: PlayerId, t: ActionType)
    requires Inv(cfg, s) && t != TJoin
    ensures t in LegalActions(cfg, s, actor) ==> AcceptsType(cfg, s, actor, t)
    ensures t !in LegalActions(cfg, s, actor) ==> RefusesType(cfg, s, actor, t)
  {
    hide LegalActions, Accepts, Inv;
    var sample := Sample(s, actor, t);
    assert TypeOf(sample) == t;
    forall a, d: Dice | TypeOf(a) == t
      ensures Accepts(cfg, s, actor, a, d) ==> t in LegalActions(cfg, s, actor)
      ensures t in LegalActions(cfg, s, actor) && a == sample ==> Accepts(cfg, s, actor, a, d)
    {
      ActionLegal(cfg, s, actor, a, d);
    }
  }

  /** A turn is never stuck: its holder has a legal board action, and a pending purchase can be paid for. */
  lemma {:induction false} NeverStuck(cfg: ValidConfig, s: State) returns (holder: PlayerId)
    requires Inv(cfg, s) && s.phase == Playing
    ensures Has(s.players, holder) && s.players[IndexOf(s.players, holder)].seat == s.turn.seat
    ensures match s.turn.phase
            case NoTurn => false
            case AwaitRoll => TRoll in LegalActions(cfg, s, holder)
            case AwaitBuyDecision => TBuy in LegalActions(cfg, s, holder) && TDecline in LegalActions(cfg, s, holder)
            case TurnOver => TEndTurn in LegalActions(cfg, s, holder)
  {
    var i :| 0 <= i < |s.players| && IsActive(s.players[i]) && s.players[i].seat == s.turn.seat;
    holder := s.players[i].id;
    IndexUnique(s.players, i);
    assert PlayerOk(cfg, s, s.players[i]);
  }
}
