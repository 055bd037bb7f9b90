/**
 What every action does to a match, as functions on values. The classes of module `Engine` work in place
 and are proved to compute exactly these functions; every theorem about the match is a lemma about them.
 */
module Rules {
  import opened Config
  import opened Domain
  import opened Seats

  datatype Transition = Transition(next: State, facts: seq<Fact>)

  // ---- valuation -------------------------------------------------------------

  predicate OwnedBy(sp: Space, id: PlayerId) { sp.owned && sp.owner == id }

  /** Purchase price of everything `id` owns. */
  function Holdings(spaces: seq<Space>, id: PlayerId): int {
    if spaces == [] then 0
    else Holdings(spaces[..|spaces| - 1], id)
         + if OwnedBy(spaces[|spaces| - 1], id) then spaces[|spaces| - 1].def.price else 0
  }

  function Worth(s: State, i: nat): int
    requires i < |s.players|
  {
    s.players[i].money + Holdings(s.spaces, s.players[i].id)
  }

  /** i is worth more than j, or as much from a seat no higher. */
  predicate Beats(s: State, i: nat, j: nat)
    requires i < |s.players| && j < |s.players|
  {
    Worth(s, i) > Worth(s, j) || (Worth(s, i) == Worth(s, j) && s.players[i].seat <= s.players[j].seat)
  }

  ghost predicate IsRichest(s: State, i: nat) {
    && i < |s.players| && IsActive(s.players[i])
    && forall j :: 0 <= j < |s.players| && IsActive(s.players[j]) ==> Beats(s, i, j)
  }

  lemma {:induction false} RichestBelow(s: State, n: nat) returns (best: int)
    requires n <= |s.players|
    ensures best == -1 ==> forall j :: 0 <= j < n ==> !IsActive(s.players[j])
    ensures best != -1 ==> 0 <= best < n && IsActive(s.players[best])
    ensures best != -1 ==> forall j :: 0 <= j < n && IsActive(s.players[j]) ==> Beats(s, best, j)
  {
    if n == 0 {
      best := -1;
    } else {
      best := RichestBelow(s, n - 1);
      if IsActive(s.players[n - 1]) && (best == -1 || !Beats(s, best, n - 1)) {
        best := n - 1;
      }
    }
  }

  lemma {:induction false} RichestExists(s: State) returns (i: nat)
    requires ActiveSeats(s.players) != {}
    ensures IsRichest(s, i)
  {
    var best := RichestBelow(s, |s.players|);
    var seat :| seat in ActiveSeats(s.players);
    var k :| 0 <= k < |s.players| && IsActive(s.players[k]) && s.players[k].seat == seat;
    i := best;
  }

  /** The active player of highest worth, ties to the lowest seat. */
  ghost function Richest(s: State): (i: nat)
    requires ActiveSeats(s.players) != {}
    ensures IsRichest(s, i)
  {
    assert exists i: nat :: IsRichest(s, i) by { var i := RichestExists(s); }
    var i: nat :| IsRichest(s, i);
    i
  }

  lemma {:induction false} RichestUnique(s: State, i: nat, j: nat)
    requires Seated(s.players) && IsRichest(s, i) && IsRichest(s, j)
    ensures i == j
  {
    assert Beats(s, i, j) && Beats(s, j, i);
  }

  // ---- elimination and the turn --------------------------------------

  function Freed(sp: Space): Space { sp.(owned := false, owner := NoPlayer, level := 0) }

  function Release(spaces: seq<Space>, id: PlayerId): (r: seq<Space>)
    ensures |r| == |spaces|
    ensures forall i :: 0 <= i < |spaces| ==> r[i] == if OwnedBy(spaces[i], id) then Freed(spaces[i]) else spaces[i]
  {
    seq(|spaces|, i requires 0 <= i < |spaces| => if OwnedBy(spaces[i], id) then Freed(spaces[i]) else spaces[i])
  }

  /** The spaces `id` owns, in board order. */
  function Properties(spaces: seq<Space>, id: PlayerId): seq<Space> {
    if spaces == [] then []
    else Properties(spaces[..|spaces| - 1], id)
         + if OwnedBy(spaces[|spaces| - 1], id) then [spaces[|spaces| - 1]] else []
  }

  /** Their ids. */
  function OwnedIds(spaces: seq<Space>, id: PlayerId): seq<string> {
    if spaces == [] then []
    else OwnedIds(spaces[..|spaces| - 1], id)
         + if OwnedBy(spaces[|spaces| - 1], id) then [spaces[|spaces| - 1].def.id] else []
  }

  function Eliminate(s: State, i: nat): State
    requires i < |s.players|
  {
    s.(spaces := Release(s.spaces, s.players[i].id), players := s.players[i := s.players[i].(status := Eliminated)])
  }

  /** A fresh turn for the next active seat after `from`. */
  ghost function TurnAfter(active: set<nat>, from: nat, round: int): Turn {
    var r := NextTurn(active, from, round);
    Turn(r.0, AwaitRoll, r.1, 0, false)
  }

  ghost function AdvanceFrom(s: State, from: nat): State {
    s.(turn := TurnAfter(ActiveSeats(s.players), from, s.turn.round))
  }

  function Advanced(s: State): Fact { TurnAdvanced(s.turn.seat, s.turn.round) }

  // ---- the end of a match ----------------------------------------------------

  function EndMatch(s: State, winner: Option<PlayerId>, reason: EndReason): Transition {
    Transition(s.(phase := Ended, winner := winner, endReason := reason), [GameEnded(winner, reason)])
  }

  /** Fewer than two active players end a playing match. */
  ghost function EndIfShort(s: State): Transition {
    var active := Actives(s.players);
    if s.phase != Playing || |active| >= 2 then Transition(s, [])
    else if active != [] then EndMatch(s, Some(active[0].id), ByLastStanding)
    else EndMatch(s, None, ByShortage)
  }

  ghost predicate TargetReached(cfg: ValidConfig, s: State) {
    exists i :: 0 <= i < |s.players| && IsActive(s.players[i]) && Worth(s, i) >= cfg.victory.targetWealth
  }

  /** The victory conditions, in their order of priority. */
  ghost function Evaluate(cfg: ValidConfig, s: State): Transition {
    ActivesSit(s.players);
    if s.phase != Playing then Transition(s, [])
    else if |Actives(s.players)| < 2 then EndIfShort(s)
    else if cfg.victory.kind == TargetWealth && TargetReached(cfg, s) then
      EndMatch(s, Some(s.players[Richest(s)].id), ByTargetWealth)
    else if cfg.victory.kind == RoundLimit && s.turn.round > cfg.victory.roundLimit then
      EndMatch(s, Some(s.players[Richest(s)].id), ByRoundLimit)
    else Transition(s, [])
  }

  ghost function Closing(cfg: ValidConfig, s: State, facts: seq<Fact>): Transition {
    var end := Evaluate(cfg, s);
    Transition(end.next, facts + end.facts)
  }

  // ---- the board actions -----------------------------------------------------

  /** Shared preconditions of every board action. */
  function TurnError(s: State, actor: PlayerId, phase: TurnPhase): Option<Error> {
    if s.phase != Playing then Some(ErrOutOfPhase)
    else if s.turn.phase == NoTurn then Some(ErrCorrupt)
    else if s.spaces == [] then Some(ErrCorrupt)
    else if !Has(s.players, actor) then Some(ErrPlayerNotInGame)
    else
      var p := s.players[IndexOf(s.players, actor)];
      if !IsActive(p) then Some(ErrNotPermitted)
      else if !(0 <= p.position < |s.spaces|) then Some(ErrCorrupt)
      else if p.seat != s.turn.seat then Some(ErrNotYourTurn)
      else if s.turn.phase != phase then Some(ErrOutOfPhase)
      else None
  }

  function Pay(s: State, i: nat, amount: int): State
    requires i < |s.players|
  {
    s.(players := s.players[i := s.players[i].(money := s.players[i].money - amount)])
  }

  datatype Landing = Landing(next: State, facts: seq<Fact>, buyDecision: bool, bankrupt: bool)

  ghost function Bankrupt(s: State, i: nat, creditor: PlayerId, owed: int, cause: Cause): Landing
    requires i < |s.players|
  {
    var id := s.players[i].id;
    var out := Eliminate(s, i);
    var facts := [PlayerBankrupt(id, cause, creditor, owed, OwnedIds(s.spaces, id)), PlayerEliminated(id, cause)];
    if ActiveSeats(out.players) == {} then Landing(out, facts, false, true)
    else
      var next := AdvanceFrom(out, s.players[i].seat);
      Landing(next, facts + [Advanced(next)], false, true)
  }

  /** The effect of the space player i now stands on. */
  ghost function ResolveLanding(s: State, i: nat, to: int): Result<Landing>
    requires i < |s.players|
  {
    if !(0 <= to < |s.spaces|) then Err(ErrCorrupt)
    else
      var space := s.spaces[to];
      var p := s.players[i];
      match space.def.kind
      case Go => Ok(Landing(s, [], false, false))
      case Neutral => Ok(Landing(s, [], false, false))
      case UnknownKind => Err(ErrCorrupt)
      case Tax =>
        if p.money < space.def.amount then Ok(Bankrupt(s, i, NoPlayer, space.def.amount, BankruptcyTax))
        else Ok(Landing(Pay(s, i, space.def.amount), [BankTransfer(p.id, space.def.amount, ToBank, TaxDue)], false, false))
      case Property =>
        if !space.owned then Ok(Landing(s, [], p.money >= space.def.price, false))
        else if space.owner == p.id then Ok(Landing(s, [], false, false))
        else
          var o := IndexOf(s.players, space.owner);
          if o == |s.players| || !IsActive(s.players[o]) then Ok(Landing(s, [], false, false))
          else if p.money < space.def.rent then
            Ok(Bankrupt(s, i, space.owner, space.def.rent, BankruptcyRent))
          else
            Ok(Landing(Pay(Pay(s, i, space.def.rent), o, -space.def.rent),
                       [RentPaid(p.id, space.owner, space.def.id, space.def.rent)], false, false))
  }

  /** Streak after this roll, and whether it earns another. */
  function Streak(cfg: ValidConfig, before: int, dice: Dice): (int, bool) {
    if dice.d1 == dice.d2 && cfg.rules.doublesExtraRoll then (before + 1, before + 1 < cfg.rules.maxDoublesStreak)
    else (0, false)
  }

  function SettleTurn(t: Turn, buyDecision: bool, streak: int, extra: bool): Turn {
    if buyDecision then t.(phase := AwaitBuyDecision, streak := streak, award := extra)
    else if extra then t.(phase := AwaitRoll, streak := streak, award := false)
    else t.(phase := TurnOver, streak := 0, award := false)
  }

  /** A bankruptcy has already passed the turn on; any other landing decides how the turn continues. */
  function Settled(cfg: ValidConfig, l: Landing, streak: (int, bool)): State {
    if l.bankrupt then l.next else l.next.(turn := SettleTurn(l.next.turn, l.buyDecision, streak.0, streak.1))
  }

  /** Where `total` single steps lead on a loop of n spaces, and how often they cross into space 0. */
  function Walk(pos: int, total: nat, n: int): (int, nat) {
    if total == 0 then (pos, 0)
    else
      var before := Walk(pos, total - 1, n);
      if before.0 + 1 >= n then (0, before.1 + 1) else (before.0 + 1, before.1)
  }

  /** One bonus for every crossing. */
  function GoBonus(cfg: ValidConfig, passes: nat): int {
    if passes == 0 then 0 else GoBonus(cfg, passes - 1) + cfg.rules.passingGoBonus
  }

  /** Player i on its destination, with the bonus for every crossing of space 0. */
  function Moved(cfg: ValidConfig, s: State, i: nat, total: nat): State
    requires i < |s.players|
  {
    var p := s.players[i];
    var w := Walk(p.position, total, |s.spaces|);
    s.(players := s.players[i := p.(position := w.0, money := p.money + GoBonus(cfg, w.1))])
  }

  function SpaceId(s: State, at: int): string { if 0 <= at < |s.spaces| then s.spaces[at].def.id else "" }

  function MoveFacts(cfg: ValidConfig, s: State, i: nat, dice: Dice): seq<Fact>
    requires i < |s.players|
  {
    var p := s.players[i];
    var w := Walk(p.position, dice.d1 + dice.d2, |s.spaces|);
    [DiceRolled(p.id, dice.d1, dice.d2, SpaceId(s, p.position), SpaceId(s, w.0), w.1 > 0)]
    + if w.1 > 0 then
        [BankTransfer(p.id, GoBonus(cfg, w.1), ToPlayer, if w.0 == 0 then LandGo else PassGo)]
      else []
  }

  /** Player i rolls: movement, landing and turn settlement in one transition. */
  ghost function RollOf(cfg: ValidConfig, s: State, i: nat, dice: Dice): Result<Transition>
    requires i < |s.players|
  {
    var moved := Moved(cfg, s, i, dice.d1 + dice.d2);
    var landing := ResolveLanding(moved, i, moved.players[i].position);
    if landing.Err? then Err(landing.error)
    else
      Ok(Closing(cfg, Settled(cfg, landing.value, Streak(cfg, s.turn.streak, dice)),
                 MoveFacts(cfg, s, i, dice) + landing.value.facts))
  }

  ghost function DoRoll(cfg: ValidConfig, s: State, actor: PlayerId, dice: Dice): Result<Transition>
  {
    var err := TurnError(s, actor, AwaitRoll);
    if err.Some? then Err(err.value) else RollOf(cfg, s, IndexOf(s.players, actor), dice)
  }

  function AfterDecision(t: Turn): Turn {
    t.(phase := if t.award then AwaitRoll else TurnOver, award := false)
  }

  ghost function DoBuy(cfg: ValidConfig, s: State, actor: PlayerId): Result<Transition> {
    var err := TurnError(s, actor, AwaitBuyDecision);
    if err.Some? then Err(err.value)
    else
      var i := IndexOf(s.players, actor);
      var at := s.players[i].position;
      var space := s.spaces[at];
      if space.def.kind != Property || space.owned then Err(ErrNotPermitted)
      else if s.players[i].money < space.def.price then Err(ErrNotPermitted)
      else
        var paid := Pay(s, i, space.def.price);
        var next := paid.(spaces := s.spaces[at := space.(owned := true, owner := actor)], turn := AfterDecision(s.turn));
        Ok(Closing(cfg, next, [PropertyBought(actor, space.def.id, space.def.price)]))
  }

  ghost function DoDecline(cfg: ValidConfig, s: State, actor: PlayerId): Result<Transition> {
    var err := TurnError(s, actor, AwaitBuyDecision);
    if err.Some? then Err(err.value)
    else
      var space := s.spaces[s.players[IndexOf(s.players, actor)].position];
      if space.def.kind != Property || space.owned then Err(ErrNotPermitted)
      else Ok(Closing(cfg, s.(turn := AfterDecision(s.turn)), [BuyDeclined(actor, space.def.id)]))
  }

  ghost function DoEndTurn(cfg: ValidConfig, s: State, actor: PlayerId): Result<Transition> {
    var err := TurnError(s, actor, TurnOver);
    if err.Some? then Err(err.value)
    else
      var next := AdvanceFrom(s, s.turn.seat);
      Ok(Closing(cfg, next, [Advanced(next)]))
  }

  // ---- the lifecycle actions -------------------------------------------------

  ghost function DoJoin(cfg: ValidConfig, s: State, name: string): Result<Transition> {
    if s.phase == Playing then Err(ErrAlreadyStarted)
    else if s.phase != Lobby then Err(ErrOutOfPhase)
    else if !NameOk(name) then Err(ErrInvalidName)
    else if |s.players| >= cfg.maxPlayers then Err(ErrGameFull)
    else
      var seat := FreeSeat(s.players);
      var p := Player(Pl(seat), name, seat, cfg.startingMoney, Active, false, s.players == [], 0);
      Ok(Transition(s.(players := s.players + [p]), [PlayerJoined(p.id, name, seat, p.money)]))
  }

  function Without(ps: seq<Player>, id: PlayerId): seq<Player> {
    if ps == [] then []
    else Without(ps[..|ps| - 1], id) + if ps[|ps| - 1].id == id then [] else [ps[|ps| - 1]]
  }

  function InsertBySeat(ps: seq<Player>, p: Player): seq<Player> {
    if ps == [] then [p]
    else if ps[|ps| - 1].seat <= p.seat then ps + [p]
    else InsertBySeat(ps[..|ps| - 1], p) + [ps[|ps| - 1]]
  }

  /** The players in seat order. */
  function BySeat(ps: seq<Player>): seq<Player> {
    if ps == [] then [] else InsertBySeat(BySeat(ps[..|ps| - 1]), ps[|ps| - 1])
  }

  /** Lobby departure: the seat is freed, and a departing host is succeeded by the lowest seat. */
  function LeaveLobby(s: State, actor: PlayerId): State {
    var i := IndexOf(s.players, actor);
    var remaining := Without(s.players, actor);
    if i < |s.players| && s.players[i].isHost && remaining != [] then
      var sorted := BySeat(remaining);
      if sorted == [] then s.(players := sorted)
      else s.(players := sorted[0 := sorted[0].(isHost := true)])
    else s.(players := remaining)
  }

  /** A departing player is eliminated unless they already were. */
  function Out(s: State, i: nat): State
    requires i < |s.players|
  {
    if IsActive(s.players[i]) then Eliminate(s, i) else s
  }

  function GoneFacts(s: State, i: nat): seq<Fact>
    requires i < |s.players|
  {
    var p := s.players[i];
    if IsActive(p) then
      [PlayerBankrupt(p.id, VoluntaryLeave, NoPlayer, 0, OwnedIds(s.spaces, p.id)), PlayerEliminated(p.id, VoluntaryLeave)]
    else []
  }

  /** Mid-match departure of player i: elimination, then the end of the match or of their turn. */
  ghost function LeaveMatch(s: State, i: nat): Transition
    requires i < |s.players|
  {
    var p := s.players[i];
    var end := EndIfShort(Out(s, i));
    var facts := [PlayerLeft(p.id)] + GoneFacts(s, i) + end.facts;
    if end.next.phase == Playing && p.seat == end.next.turn.seat then
      var next := AdvanceFrom(end.next, p.seat);
      Transition(next, facts + [Advanced(next)])
    else
      Transition(end.next, facts)
  }

  ghost function DoLeave(s: State, actor: PlayerId): Result<Transition> {
    if s.phase == Ended || s.phase == Interrupted then Err(ErrOutOfPhase)
    else if !Has(s.players, actor) then Err(ErrPlayerNotInGame)
    else if s.phase == Lobby then Ok(Transition(LeaveLobby(s, actor), [PlayerLeft(actor)]))
    else Ok(LeaveMatch(s, IndexOf(s.players, actor)))
  }

  function DoReady(s: State, actor: PlayerId, ready: bool): Result<Transition> {
    if s.phase != Lobby then Err(ErrOutOfPhase)
    else if !Has(s.players, actor) then Err(ErrPlayerNotInGame)
    else
      var i := IndexOf(s.players, actor);
      if s.players[i].ready == ready then Err(ErrNoChange)
      else Ok(Transition(s.(players := s.players[i := s.players[i].(ready := ready)]), [ReadyChanged(actor, ready)]))
  }

  /** Index of the first host, or |ps|. */
  function HostIndex(ps: seq<Player>): (i: nat)
    ensures i <= |ps|
    ensures i < |ps| ==> ps[i].isHost
    ensures forall k :: 0 <= k < i ==> !ps[k].isHost
  {
    if ps == [] then 0 else if ps[0].isHost then 0 else 1 + HostIndex(ps[1..])
  }

  ghost predicate CanStart(cfg: ValidConfig, s: State) {
    && s.phase == Lobby
    && cfg.minPlayers <= |Actives(s.players)| <= cfg.maxPlayers
    && forall i :: 0 <= i < |s.players| && IsActive(s.players[i]) ==> s.players[i].ready
  }

  /** The pristine board of a configuration. */
  function NewBoard(cfg: ValidConfig): (spaces: seq<Space>)
    ensures |spaces| == |cfg.board|
    ensures forall i :: 0 <= i < |spaces| ==> spaces[i] == Space(cfg.board[i], false, NoPlayer, 0)
  {
    seq(|cfg.board|, i requires 0 <= i < |cfg.board| => Space(cfg.board[i], false, NoPlayer, 0))
  }

  ghost function DoStart(cfg: ValidConfig, s: State, actor: PlayerId): Result<Transition>
  {
    if s.phase != Lobby then Err(ErrOutOfPhase)
    else
      var h := HostIndex(s.players);
      var active := Actives(s.players);
      if h == |s.players| || s.players[h].id != actor then Err(ErrNotPermitted)
      else if |active| > cfg.maxPlayers then Err(ErrGameFull)
      else if |active| < cfg.minPlayers then Err(ErrNotEnoughPlayers)
      else if !CanStart(cfg, s) then Err(ErrNotAllReady)
      else
        ActivesSit(s.players);
        var board := if s.spaces == [] then NewBoard(cfg) else s.spaces;
        var first := Turn(Least(ActiveSeats(s.players)), AwaitRoll, 1, 0, false);
        Ok(Transition(s.(phase := Playing, spaces := board, turn := first), [GameStarted]))
  }

  // ---- the engine ------------------------------------------------------------

  ghost function Handle(cfg: ValidConfig, s: State, actor: PlayerId, action: Action, dice: Dice): Result<Transition>
  {
    match action
    case Join(name) => DoJoin(cfg, s, name)
    case Leave => DoLeave(s, actor)
    case Ready(ready) => DoReady(s, actor, ready)
    case Start => DoStart(cfg, s, actor)
    case Roll => DoRoll(cfg, s, actor, dice)
    case Buy => DoBuy(cfg, s, actor)
    case Decline => DoDecline(cfg, s, actor)
    case EndTurn => DoEndTurn(cfg, s, actor)
  }

  /** One accepted action advances the tick by exactly one. */
  ghost function Apply(cfg: ValidConfig, s: State, actor: PlayerId, action: Action, dice: Dice): Result<Transition>
  {
    var r := Handle(cfg, s, actor, action, dice);
    if r.Err? then r else Ok(r.value.(next := r.value.next.(tick := s.tick + 1)))
  }

  function NewState(spaces: seq<Space>): State {
    State(Lobby, 0, [], spaces, Turn(0, NoTurn, 0, 0, false), None, NoReason)
  }

  function Stamped(facts: seq<Fact>, tick: nat): (r: seq<Event>)
    ensures |r| == |facts|
    ensures forall i :: 0 <= i < |facts| ==> r[i] == Event(tick, facts[i])
  {
    seq(|facts|, i requires 0 <= i < |facts| => Event(tick, facts[i]))
  }
}
