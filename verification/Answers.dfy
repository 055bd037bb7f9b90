/** Who is answered what: exactly which inputs are accepted, and the reason of every refusal (board_ruleset.go, lifecycle.go). */
module Answers {
  import opened Config
  import opened Domain
  import opened Seats
  import opened Rules
  import opened Invariant
  import opened Runs
  import opened Legality
  import opened Effects

  /** A join is for a lobby with room, under a name of one to 32 characters. */
  lemma {:induction false} JoinAnswers(cfg: ValidConfig, s: State, actor: PlayerId, name: string, dice: Dice)
    ensures match Apply(cfg, s, actor, Join(name), dice)
            case Ok(_) => s.phase == Lobby && 1 <= |name| <= 32 && |s.players| < cfg.maxPlayers
            case Err(e) =>
              || (e == ErrAlreadyStarted && s.phase == Playing)
              || (e == ErrOutOfPhase && (s.phase == Ended || s.phase == Interrupted))
              || (e == ErrInvalidName && s.phase == Lobby && !(1 <= |name| <= 32))
              || (e == ErrGameFull && s.phase == Lobby && 1 <= |name| <= 32 && |s.players| >= cfg.maxPlayers)
  {
  }

  lemma {:induction false} SitsAt(s: State, id: PlayerId)
    ensures Sits(s, id) <==> IndexOf(s.players, id) < |s.players|
  {
    if IndexOf(s.players, id) < |s.players| { assert s.players[IndexOf(s.players, id)].id == id; }
  }

  /** A toggle is for a seated player of a lobby who is not as they ask to be. */
  lemma {:induction false} ReadyAnswers(cfg: ValidConfig, s: State, actor: PlayerId, ready: bool, dice: Dice)
    ensures match Apply(cfg, s, actor, Ready(ready), dice)
            case Ok(_) => s.phase == Lobby && Sits(s, actor)
            case Err(e) =>
              || (e == ErrOutOfPhase && s.phase != Lobby)
              || (e == ErrPlayerNotInGame && s.phase == Lobby && !Sits(s, actor))
              || (e == ErrNoChange && s.phase == Lobby && Sits(s, actor)
                  && exists j :: 0 <= j < |s.players| && s.players[j].id == actor && s.players[j].ready == ready)
  {
    SitsAt(s, actor);
    hide Sits;
  }

  /** A departure is for a seated player of a match that is not over. */
  lemma {:induction false} LeaveAnswers(cfg: ValidConfig, s: State, actor: PlayerId, dice: Dice)
    ensures match Apply(cfg, s, actor, Leave, dice)
            case Ok(_) => (s.phase == Lobby || s.phase == Playing) && Sits(s, actor)
            case Err(e) =>
              || (e == ErrOutOfPhase && (s.phase == Ended || s.phase == Interrupted))
              || (e == ErrPlayerNotInGame && (s.phase == Lobby || s.phase == Playing) && !Sits(s, actor))
  {
    SitsAt(s, actor);
    hide Sits, LeaveLobby, LeaveMatch;
  }

  ghost predicate Hosts(s: State, id: PlayerId) {
    exists j :: 0 <= j < |s.players| && s.players[j].isHost && s.players[j].id == id
  }

  ghost predicate AllReady(s: State) { forall j :: 0 <= j < |s.players| ==> s.players[j].ready }

  /** A start is for the host of a lobby, once there are enough players and every one of them is ready. */
  lemma {:induction false} StartAnswers(cfg: ValidConfig, s: State, actor: PlayerId, dice: Dice)
    requires Inv(cfg, s)
    ensures match Apply(cfg, s, actor, Start, dice)
            case Ok(_) => s.phase == Lobby && Hosts(s, actor) && cfg.minPlayers <= |s.players| && AllReady(s)
            case Err(e) =>
              || (e == ErrOutOfPhase && s.phase != Lobby)
              || (e == ErrNotPermitted && s.phase == Lobby && !Hosts(s, actor))
              || (e == ErrNotEnoughPlayers && s.phase == Lobby && Hosts(s, actor) && |s.players| < cfg.minPlayers)
              || (e == ErrNotAllReady && s.phase == Lobby && Hosts(s, actor) && cfg.minPlayers <= |s.players| && !AllReady(s))
  {
    if s.phase == Lobby {
      AllWait(cfg, s);
      AllCounted(s.players);
      OneHostIs(s.players);
    }
    hide Inv, Actives, ActiveSeats, Seated, OneHost, Least, NewBoard, HostIndex;
  }

  lemma {:induction false} AllCounted(ps: seq<Player>)
    requires forall j :: 0 <= j < |ps| ==> IsActive(ps[j])
    ensures |Actives(ps)| == |ps|
  {
    if ps == [] {
    } else {
      AllCounted(ps[..|ps| - 1]);
    }
  }

  lemma {:induction false} OneHostIs(ps: seq<Player>)
    requires OneHost(ps)
    ensures var h := HostIndex(ps);
            forall j :: 0 <= j < |ps| && ps[j].isHost ==> j == h
  {
    forall j | 0 <= j < |ps| && ps[j].isHost ensures j == HostIndex(ps) {
      assert HostIndex(ps) <= j;
    }
  }

  /** The stage of a turn an action belongs to. */
  function StageOf(action: Action): TurnPhase {
    match action
    case Roll => AwaitRoll
    case Buy => AwaitBuyDecision
    case Decline => AwaitBuyDecision
    case EndTurn => TurnOver
    case _ => NoTurn
  }

  /** What stands in the way of a board action, in order, in any state whatever. */
  lemma {:induction false} TurnAnswers(s: State, actor: PlayerId, phase: TurnPhase)
    ensures var a := IndexOf(s.players, actor);
            var sound := s.phase == Playing && s.turn.phase != NoTurn && s.spaces != [];
            var mine := sound && a < |s.players| && s.players[a].status == Active;
            match TurnError(s, actor, phase)
            case None =>
              mine && 0 <= s.players[a].position < |s.spaces| && s.players[a].seat == s.turn.seat && s.turn.phase == phase
            case Some(e) =>
              || (e == ErrOutOfPhase && s.phase != Playing)
              || (e == ErrCorrupt && s.phase == Playing && !sound)
              || (e == ErrPlayerNotInGame && sound && !Sits(s, actor))
              || (e == ErrNotPermitted && sound && a < |s.players| && s.players[a].status != Active)
              || (e == ErrCorrupt && mine && !(0 <= s.players[a].position < |s.spaces|))
              || (e == ErrNotYourTurn && mine && 0 <= s.players[a].position < |s.spaces| && s.players[a].seat != s.turn.seat)
              || (e == ErrOutOfPhase && mine && 0 <= s.players[a].position < |s.spaces| && s.players[a].seat == s.turn.seat
                  && s.turn.phase != phase)
  {
    SitsAt(s, actor);
    hide Sits;
  }

  /** A board action is refused first for what stands in its way; a purchase or its refusal then for there being no offer. */
  lemma {:induction false} OfferAnswers(cfg: ValidConfig, s: State, actor: PlayerId, action: Action, dice: Dice)
    requires IsBoardAction(action)
    ensures var err, a := TurnError(s, actor, StageOf(action)), IndexOf(s.players, actor);
            var r := Apply(cfg, s, actor, action, dice);
            && (err.Some? ==> r == Err(err.value))
            && (err == None ==>
                  && a < |s.players| && 0 <= s.players[a].position < |s.spaces|
                  && var sp := s.spaces[s.players[a].position];
                     var open := sp.def.kind == Property && !sp.owned;
                  && (action == Buy ==> r.Ok? || r == Err(ErrNotPermitted))
                  && (action == Buy ==> (r.Ok? <==> open && sp.def.price <= s.players[a].money))
                  && (action == Decline ==> r.Ok? || r == Err(ErrNotPermitted))
                  && (action == Decline ==> (r.Ok? <==> open))
                  && (action == EndTurn ==> r.Ok?))
  {
    hide RollOf, Evaluate, NextTurn, Pay;
  }

  /** A board action is for the active holder of the turn, at its own stage; nothing else ever stands in its way. */
  lemma {:induction false} BoardAnswers(cfg: ValidConfig, s: State, actor: PlayerId, action: Action, dice: Dice)
    requires Inv(cfg, s) && IsBoardAction(action)
    ensures var a := IndexOf(s.players, actor);
            var mine := s.phase == Playing && a < |s.players|;
            match Apply(cfg, s, actor, action, dice)
            case Ok(_) => mine && IsActive(s.players[a]) && s.players[a].seat == s.turn.seat && s.turn.phase == StageOf(action)
            case Err(e) =>
              || (e == ErrOutOfPhase && s.phase != Playing)
              || (e == ErrPlayerNotInGame && s.phase == Playing && !Sits(s, actor))
              || (e == ErrNotPermitted && mine && !IsActive(s.players[a]))
              || (e == ErrNotYourTurn && mine && IsActive(s.players[a]) && s.players[a].seat != s.turn.seat)
              || (e == ErrOutOfPhase && mine && IsActive(s.players[a]) && s.players[a].seat == s.turn.seat
                  && s.turn.phase != StageOf(action))
  {
    SitsAt(s, actor);
    TurnAnswers(s, actor, StageOf(action));
    OfferAnswers(cfg, s, actor, action, dice);
    if s.phase == Playing { TurnSound(cfg, s, actor); }
    if TurnError(s, actor, StageOf(action)) == None {
      match action {
        case Roll => RollGoesThrough(cfg, s, actor, dice);
        case EndTurn =>
        case _ => OfferStands(cfg, s, actor);
      }
    }
    hide Sits, Inv, Apply, TurnError, IndexOf;
  }

  lemma {:induction false} TurnSound(cfg: ValidConfig, s: State, actor: PlayerId)
    requires Inv(cfg, s) && s.phase == Playing
    ensures s.turn.phase != NoTurn && s.spaces != []
    ensures var a := IndexOf(s.players, actor); a < |s.players| ==> 0 <= s.players[a].position < |s.spaces|
  {
    var a := IndexOf(s.players, actor);
    if a < |s.players| { assert PlayerOk(cfg, s, s.players[a]); }
  }

  lemma {:induction false} RollTakes(cfg: ValidConfig, s: State, actor: PlayerId, dice: Dice)
    requires Inv(cfg, s) && TurnError(s, actor, AwaitRoll) == None
    ensures RollOf(cfg, s, IndexOf(s.players, actor), dice).Ok?
  {
    var x, facts := RollTaken(cfg, s, actor, dice);
    hide RollOf, Inv, Closing;
  }

  lemma {:induction false} RollGoesThrough(cfg: ValidConfig, s: State, actor: PlayerId, dice: Dice)
    requires Inv(cfg, s) && TurnError(s, actor, AwaitRoll) == None
    ensures Apply(cfg, s, actor, Roll, dice).Ok?
  {
    HolderLands(cfg, s, actor);
    RollTakes(cfg, s, actor, dice);
    hide RollOf, Inv, TurnError;
  }

  lemma {:induction false} OfferStands(cfg: ValidConfig, s: State, actor: PlayerId)
    requires Inv(cfg, s) && TurnError(s, actor, AwaitBuyDecision) == None
    ensures var a := IndexOf(s.players, actor);
            && a < |s.players| && 0 <= s.players[a].position < |s.spaces|
            && var sp := s.spaces[s.players[a].position];
               sp.def.kind == Property && !sp.owned && sp.def.price <= s.players[a].money
  {
    HolderFound(cfg, s, actor, AwaitBuyDecision);
  }

  /** No input to a reachable state finds it corrupt. */
  lemma {:induction false} NeverCorrupt(cfg: ValidConfig, s: State, inputs: seq<Input>, i: Input)
    requires Initial(cfg, s)
    ensures Apply(cfg, After(cfg, s, inputs), i.actor, i.action, i.dice) != Err(ErrCorrupt)
  {
    InitialInv(cfg, s);
    RunInv(cfg, s, inputs);
    var t := After(cfg, s, inputs);
    hide Inv, Apply;
    match i.action {
      case Join(name) => JoinAnswers(cfg, t, i.actor, name, i.dice);
      case Leave => LeaveAnswers(cfg, t, i.actor, i.dice);
      case Ready(ready) => ReadyAnswers(cfg, t, i.actor, ready, i.dice);
      case Start => StartAnswers(cfg, t, i.actor, i.dice);
      case _ => BoardAnswers(cfg, t, i.actor, i.action, i.dice);
    }
  }

  // ---- states no run reaches ---------------------------------------------------------------

  /** A landing off the board or on an unknown kind of space is corrupt; any other goes through. */
  lemma {:induction false} LandingAnswers(s: State, i: nat, to: int)
    requires i < |s.players|
    ensures match ResolveLanding(s, i, to)
            case Ok(_) => 0 <= to < |s.spaces| && s.spaces[to].def.kind != UnknownKind
            case Err(e) => e == ErrCorrupt && !(0 <= to < |s.spaces| && s.spaces[to].def.kind != UnknownKind)
  {
    hide Bankrupt, Pay;
  }

  /** Where nobody sits who could be paid, nothing is owed; and where nobody is titled, a purchase is offered who can pay. */
  lemma {:induction false} NobodyToPay(s: State, i: nat, to: int)
    requires i < |s.players| && 0 <= to < |s.spaces| && s.spaces[to].def.kind == Property
    ensures var sp := s.spaces[to];
            var o := IndexOf(s.players, sp.owner);
            && (sp.owned && (o == |s.players| || s.players[o].status != Active) ==>
                  ResolveLanding(s, i, to) == Ok(Landing(s, [], false, false)))
            && (!sp.owned ==> ResolveLanding(s, i, to) == Ok(Landing(s, [], sp.def.price <= s.players[i].money, false)))
  {
    hide Bankrupt, Pay;
  }

  /** A last player gone leaves the turn where it is; a running match without anybody ends without a winner. */
  lemma {:induction false} NobodyLeft(s: State, i: nat, creditor: PlayerId, owed: int, cause: Cause)
    requires i < |s.players| && forall j :: 0 <= j < |s.players| && j != i ==> s.players[j].status != Active
    ensures var l := Bankrupt(s, i, creditor, owed, cause);
            && l.next.turn == s.turn && |l.facts| == 2
            && (s.phase == Playing ==>
                  EndIfShort(l.next) == Transition(l.next.(phase := Ended, winner := None, endReason := ByShortage),
                                                   [GameEnded(None, ByShortage)]))
  {
    var out := Eliminate(s, i);
    NobodyActive(out.players);
    hide ActiveSeats, Actives, NextTurn, OwnedIds;
  }

  lemma {:induction false} NobodyActive(ps: seq<Player>)
    requires forall j :: 0 <= j < |ps| ==> ps[j].status != Active
    ensures ActiveSeats(ps) == {} && Actives(ps) == []
  {
    ActivesSit(ps);
    hide Actives;
  }

  /** A start, on any roster: the first host's, and then as many active players as the table takes, all ready. */
  lemma {:induction false} StartOnAny(cfg: ValidConfig, s: State, actor: PlayerId, dice: Dice)
    ensures var h, n := HostIndex(s.players), |Actives(s.players)|;
            var hosted := s.phase == Lobby && h < |s.players| && s.players[h].id == actor;
            var ready := forall j :: 0 <= j < |s.players| && s.players[j].status == Active ==> s.players[j].ready;
            match Apply(cfg, s, actor, Start, dice)
            case Ok(_) => hosted && cfg.minPlayers <= n <= cfg.maxPlayers && ready
            case Err(e) =>
              || (e == ErrOutOfPhase && s.phase != Lobby)
              || (e == ErrNotPermitted && s.phase == Lobby && !hosted)
              || (e == ErrGameFull && hosted && n > cfg.maxPlayers)
              || (e == ErrNotEnoughPlayers && hosted && n < cfg.minPlayers)
              || (e == ErrNotAllReady && hosted && cfg.minPlayers <= n <= cfg.maxPlayers && !ready)
  {
    hide Actives, ActiveSeats, Least, NewBoard, HostIndex;
  }

  // ---- the order of what is advertised ---------------------------------------------------

  /** The fixed order in which action types are advertised. */
  function Place(t: ActionType): nat {
    match t
    case TLeave => 0
    case TReady => 1
    case TStart => 2
    case TRoll => 3
    case TDecline => 4
    case TBuy => 5
    case TEndTurn => 6
    case TJoin => 7
  }

  /** What is advertised is advertised once each, in the fixed order. */
  lemma {:induction false} LegalInOrder(cfg: ValidConfig, s: State, actor: PlayerId)
    ensures var legal := LegalActions(cfg, s, actor);
            forall j, k :: 0 <= j < k < |legal| ==> Place(legal[j]) < Place(legal[k])
  {
    hide CanStart;
  }
}
