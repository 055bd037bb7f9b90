/** What every reachable state satisfies, and the proof that every action keeps it. */
module Invariant {
  import opened Config
  import opened Domain
  import opened Seats
  import opened Rules
  import opened Roster

  // ---- the invariant ---------------------------------------------------------

  ghost predicate OnBoard(s: State, p: Player) {
    0 <= p.position && if s.spaces == [] then p.position == 0 else p.position < |s.spaces|
  }

  ghost predicate PlayerOk(cfg: ValidConfig, s: State, p: Player) {
    p.seat < cfg.maxPlayers && 0 <= p.money && p.status != Disconnected && OnBoard(s, p)
  }

  ghost predicate OneHost(ps: seq<Player>) {
    && (ps != [] ==> exists i :: 0 <= i < |ps| && ps[i].isHost)
    && forall i, j :: 0 <= i < j < |ps| ==> !(ps[i].isHost && ps[j].isHost)
  }

  ghost predicate RosterOk(cfg: ValidConfig, s: State) {
    && Seated(s.players) && OneHost(s.players)
    && |s.players| <= cfg.maxPlayers
    && forall i :: 0 <= i < |s.players| ==> PlayerOk(cfg, s, s.players[i])
  }

  /** The runtime board is the configured one. */
  ghost predicate BoardBuilt(cfg: ValidConfig, s: State) {
    |s.spaces| == |cfg.board| && forall k :: 0 <= k < |s.spaces| ==> s.spaces[k].def == cfg.board[k]
  }

  /** Every owned space is a property of an active player. */
  ghost predicate DeedOk(active: set<nat>, sp: Space) {
    && sp.level == 0
    && if sp.owned then sp.def.kind == Property && sp.owner.Pl? && sp.owner.seat in active
       else sp.owner == NoPlayer
  }

  ghost predicate DeedsOk(s: State) {
    forall k :: 0 <= k < |s.spaces| ==> DeedOk(ActiveSeats(s.players), s.spaces[k])
  }

  ghost predicate Core(cfg: ValidConfig, s: State) {
    match s.phase
    case Lobby => RosterOk(cfg, s) && (s.spaces == [] || BoardBuilt(cfg, s)) && DeedsOk(s)
    case _ => RosterOk(cfg, s) && BoardBuilt(cfg, s) && DeedsOk(s)
  }

  ghost predicate Undecided(s: State) { s.winner == None && s.endReason == NoReason }

  predicate Waiting(cfg: ValidConfig, p: Player) {
    IsActive(p) && p.money == cfg.startingMoney && p.position == 0
  }

  ghost predicate LobbyOk(cfg: ValidConfig, s: State) {
    && Undecided(s)
    && s.turn == Turn(0, NoTurn, 0, 0, false)
    && (forall i :: 0 <= i < |s.players| ==> Waiting(cfg, s.players[i]))
    && forall k :: 0 <= k < |s.spaces| ==> !s.spaces[k].owned
  }

  /** A roll may follow only while the doubles streak is below its cap. */
  predicate StreakRoom(cfg: ValidConfig, t: Turn) {
    if cfg.rules.doublesExtraRoll then 0 <= t.streak < cfg.rules.maxDoublesStreak else t.streak == 0
  }

  /** The seat holder stands on an unowned property they can afford. */
  ghost predicate BuyOffered(s: State) {
    forall i :: 0 <= i < |s.players| && s.players[i].seat == s.turn.seat ==>
      && 0 <= s.players[i].position < |s.spaces|
      && s.spaces[s.players[i].position].def.kind == Property
      && !s.spaces[s.players[i].position].owned
      && s.spaces[s.players[i].position].def.price <= s.players[i].money
  }

  ghost predicate TurnOk(cfg: ValidConfig, s: State) {
    && s.turn.seat in ActiveSeats(s.players)
    && 1 <= s.turn.round
    && match s.turn.phase
       case NoTurn => false
       case AwaitRoll => !s.turn.award && StreakRoom(cfg, s.turn)
       case AwaitBuyDecision => BuyOffered(s) && (s.turn.award ==> StreakRoom(cfg, s.turn))
       case TurnOver => !s.turn.award
  }

  ghost predicate RoundCapped(cfg: ValidConfig, s: State) {
    cfg.victory.kind == RoundLimit ==> s.turn.round <= cfg.victory.roundLimit + 1
  }

  /** The one round past the limit is entered only by a departure, and only to its first roll. */
  ghost predicate RoundOpen(cfg: ValidConfig, s: State) {
    cfg.victory.kind == RoundLimit ==>
      && s.turn.round <= cfg.victory.roundLimit + 1
      && (s.turn.round == cfg.victory.roundLimit + 1 ==>
            s.turn.phase == AwaitRoll && IsLeast(s.turn.seat, ActiveSeats(s.players)))
  }

  ghost predicate PlayingOk(cfg: ValidConfig, s: State) {
    && Undecided(s)
    && 2 <= |ActiveSeats(s.players)|
    && TurnOk(cfg, s)
    && RoundOpen(cfg, s)
    && (cfg.victory.kind == TargetWealth ==> !TargetReached(cfg, s))
  }

  /** The winner is the richest active player, ties to the lowest seat, and the reason is a true one. */
  ghost predicate Decided(cfg: ValidConfig, s: State) {
    exists i: nat :: IsRichest(s, i) && s.winner == Some(s.players[i].id) &&
      match s.endReason
      case NoReason => false
      case ByShortage => false
      case ByLastStanding => ActiveSeats(s.players) == {s.players[i].seat}
      case ByTargetWealth => cfg.victory.kind == TargetWealth && Worth(s, i) >= cfg.victory.targetWealth
      case ByRoundLimit => cfg.victory.kind == RoundLimit && s.turn.round == cfg.victory.roundLimit + 1
  }

  ghost predicate Inv(cfg: ValidConfig, s: State) {
    match s.phase
    case Lobby => Core(cfg, s) && LobbyOk(cfg, s)
    case Playing => Core(cfg, s) && PlayingOk(cfg, s)
    case Ended => Core(cfg, s) && RoundCapped(cfg, s) && Decided(cfg, s)
    case Interrupted => false
  }

  /** A playing state whose victory conditions have not been looked at yet. */
  ghost predicate Mid(cfg: ValidConfig, s: State) {
    match s.phase
    case Playing => Core(cfg, s) && Undecided(s) && TurnOk(cfg, s) && RoundCapped(cfg, s)
    case _ => false
  }

  // ---- single updates --------------------------------------------------------

  /** Changing a player's balance, position or readiness moves nobody. */
  lemma {:induction false} Tweak(ps: seq<Player>, i: nat, p: Player)
    requires i < |ps| && p.seat == ps[i].seat && p.id == ps[i].id && p.status == ps[i].status
    ensures SameSeats(ps, ps[i := p])
    ensures ActiveSeats(ps[i := p]) == ActiveSeats(ps)
    ensures Seated(ps) ==> Seated(ps[i := p])
    ensures p.isHost == ps[i].isHost && OneHost(ps) ==> OneHost(ps[i := p])
  {
    var qs := ps[i := p];
    SameActiveSeats(ps, qs);
    if OneHost(ps) && p.isHost == ps[i].isHost {
      if ps != [] {
        var h :| 0 <= h < |ps| && ps[h].isHost;
        assert qs[h].isHost;
      }
    }
  }

  lemma {:induction false} TweakCore(cfg: ValidConfig, s: State, i: nat, p: Player)
    requires Core(cfg, s) && i < |s.players|
    requires p.seat == s.players[i].seat && p.id == s.players[i].id && p.status == s.players[i].status
    requires p.isHost == s.players[i].isHost && 0 <= p.money && OnBoard(s, p)
    ensures Core(cfg, s.(players := s.players[i := p]))
    ensures ActiveSeats(s.players[i := p]) == ActiveSeats(s.players)
  {
    Tweak(s.players, i, p);
  }

  lemma {:induction false} EliminateCore(cfg: ValidConfig, s: State, i: nat)
    requires Core(cfg, s) && i < |s.players|
    ensures Core(cfg, Eliminate(s, i))
    ensures ActiveSeats(Eliminate(s, i).players) == ActiveSeats(s.players) - {s.players[i].seat}
  {
    EliminateSeat(s.players, i);
    EliminateRoster(cfg, s, i);
    EliminateDeeds(s, i);
    hide RosterOk, DeedsOk, ActiveSeats, Eliminate;
    EliminateFrame(s, i);
  }

  lemma EliminateFrame(s: State, i: nat)
    requires i < |s.players|
    ensures var t := Eliminate(s, i);
            && t.phase == s.phase && |t.spaces| == |s.spaces|
            && forall k :: 0 <= k < |s.spaces| ==> t.spaces[k].def == s.spaces[k].def
  {
  }

  lemma {:induction false} EliminateRoster(cfg: ValidConfig, s: State, i: nat)
    requires RosterOk(cfg, s) && i < |s.players|
    ensures RosterOk(cfg, Eliminate(s, i))
  {
    var t := Eliminate(s, i);
    OneHostStays(s.players, i, t.players[i]);
    forall k | 0 <= k < |t.players| ensures PlayerOk(cfg, t, t.players[k]) {
      assert PlayerOk(cfg, s, s.players[k]);
    }
    hide OneHost;
  }

  lemma {:induction false} OneHostStays(ps: seq<Player>, i: nat, p: Player)
    requires OneHost(ps) && i < |ps| && p.isHost == ps[i].isHost
    ensures OneHost(ps[i := p])
  {
    var h :| 0 <= h < |ps| && ps[h].isHost;
    assert ps[i := p][h].isHost;
  }

  lemma {:induction false} EliminateDeeds(s: State, i: nat)
    requires Seated(s.players) && DeedsOk(s) && i < |s.players|
    ensures DeedsOk(Eliminate(s, i))
  {
    var t := Eliminate(s, i);
    EliminateSeat(s.players, i);
    forall k | 0 <= k < |t.spaces| ensures DeedOk(ActiveSeats(t.players), t.spaces[k]) {
      assert DeedOk(ActiveSeats(s.players), s.spaces[k]);
    }
  }

  lemma {:induction false} SingleSeat(active: set<nat>, seat: nat)
    requires seat in active && |active| < 2
    ensures active == {seat}
  {
    assert |active - {seat}| == |active| - 1;
  }

  /** The turn and the outcome are no part of the roster, the board or the deeds. */
  lemma {:induction false} CoreFrame(cfg: ValidConfig, s: State, t: State)
    requires Core(cfg, s) && t.players == s.players && t.spaces == s.spaces
    requires t.phase == s.phase || s.spaces != []
    ensures Core(cfg, t)
  {
    assert forall p :: OnBoard(s, p) == OnBoard(t, p);
  }

  lemma {:induction false} PayCore(cfg: ValidConfig, s: State, i: nat, amount: int)
    requires Core(cfg, s) && i < |s.players| && amount <= s.players[i].money
    ensures Core(cfg, Pay(s, i, amount)) && SameSeats(s.players, Pay(s, i, amount).players)
    ensures ActiveSeats(Pay(s, i, amount).players) == ActiveSeats(s.players)
  {
    var p := s.players[i].(money := s.players[i].money - amount);
    assert PlayerOk(cfg, s, s.players[i]);
    TweakCore(cfg, s, i, p);
    Tweak(s.players, i, p);
  }

  // ---- victory ---------------------------------------------------------------

  lemma {:induction false} LastStandingDecides(cfg: ValidConfig, s: State)
    requires Core(cfg, s) && ActiveSeats(s.players) != {} && |ActiveSeats(s.players)| < 2
    ensures Decided(cfg, s.(phase := Ended, winner := Some(Pl(Least(ActiveSeats(s.players)))), endReason := ByLastStanding))
  {
    var seat := Least(ActiveSeats(s.players));
    SingleSeat(ActiveSeats(s.players), seat);
    var i :| 0 <= i < |s.players| && IsActive(s.players[i]) && s.players[i].seat == seat;
    var e := s.(phase := Ended, winner := Some(Pl(seat)), endReason := ByLastStanding);
    forall j | 0 <= j < |e.players| && IsActive(e.players[j]) ensures Beats(e, i, j) {
      assert e.players[j].seat in ActiveSeats(s.players);
      assert j == i;
    }
    assert IsRichest(e, i);
  }

  lemma {:induction false} RichestDecides(cfg: ValidConfig, s: State, reason: EndReason)
    requires Core(cfg, s) && ActiveSeats(s.players) != {}
    requires (reason == ByTargetWealth && cfg.victory.kind == TargetWealth && TargetReached(cfg, s))
             || (reason == ByRoundLimit && cfg.victory.kind == RoundLimit && s.turn.round == cfg.victory.roundLimit + 1)
    ensures Decided(cfg, EndMatch(s, Some(s.players[Richest(s)].id), reason).next)
  {
    var i := Richest(s);
    var e := EndMatch(s, Some(s.players[i].id), reason).next;
    assert forall j :: 0 <= j < |s.players| ==> Worth(e, j) == Worth(s, j);
    assert IsRichest(e, i);
    if reason == ByTargetWealth {
      var j :| 0 <= j < |s.players| && IsActive(s.players[j]) && Worth(s, j) >= cfg.victory.targetWealth;
      assert Beats(s, i, j);
    }
  }

  lemma {:induction false} EndingCore(cfg: ValidConfig, s: State)
    requires Core(cfg, s) && s.spaces != []
    ensures forall t: State :: t.players == s.players && t.spaces == s.spaces && t.phase == Ended ==> Core(cfg, t)
  {
    forall t: State | t.players == s.players && t.spaces == s.spaces && t.phase == Ended ensures Core(cfg, t) {
      CoreFrame(cfg, s, t);
    }
  }

  /** Looking at the victory conditions turns any consistent playing state into a reachable one. */
  lemma {:induction false} EvaluateInv(cfg: ValidConfig, s: State)
    requires Mid(cfg, s)
    ensures Inv(cfg, Evaluate(cfg, s).next)
  {
    assert Seated(s.players) && s.spaces != [];
    SoleActive(s.players);
    EndingCore(cfg, s);
    hide ActiveSeats, Actives, Least, Seated, Core, Decided;
    if |ActiveSeats(s.players)| < 2 {
      LastStandingDecides(cfg, s);
    } else if cfg.victory.kind == TargetWealth && TargetReached(cfg, s) {
      RichestDecides(cfg, s, ByTargetWealth);
    } else if cfg.victory.kind == RoundLimit && s.turn.round > cfg.victory.roundLimit {
      RichestDecides(cfg, s, ByRoundLimit);
    }
  }

  // ---- the board actions -----------------------------------------------------

  lemma AdvanceMid(cfg: ValidConfig, s: State, from: nat)
    requires s.phase == Playing && Core(cfg, s) && Undecided(s) && 1 <= s.turn.round
    requires ActiveSeats(s.players) != {}
    requires cfg.victory.kind == RoundLimit ==>
               s.turn.round <= cfg.victory.roundLimit + if Above(ActiveSeats(s.players), from) == {} then 0 else 1
    ensures Mid(cfg, AdvanceFrom(s, from))
  {
  }

  /** The seat holder of a playing state, as every board action finds them. */
  lemma {:induction false} HolderFound(cfg: ValidConfig, s: State, actor: PlayerId, phase: TurnPhase)
    requires Inv(cfg, s) && TurnError(s, actor, phase) == None
    ensures s.phase == Playing && s.turn.phase == phase
    ensures var i := IndexOf(s.players, actor);
            i < |s.players| && s.players[i].id == actor == Pl(s.turn.seat) && s.players[i].seat == s.turn.seat
            && IsActive(s.players[i]) && 0 <= s.players[i].position < |s.spaces|
  {
  }

  lemma {:induction false} WalkInBounds(pos: int, total: nat, n: int)
    requires 0 <= pos < n
    ensures 0 <= Walk(pos, total, n).0 < n
  {
    if total > 0 { WalkInBounds(pos, total - 1, n); }
  }

  lemma {:induction false} GoBonusNonNegative(cfg: ValidConfig, passes: nat)
    ensures 0 <= GoBonus(cfg, passes)
  {
    if passes > 0 { GoBonusNonNegative(cfg, passes - 1); }
  }

  lemma {:induction false} MovedCore(cfg: ValidConfig, s: State, i: nat, total: nat)
    requires Core(cfg, s) && i < |s.players| && s.spaces != []
    ensures Core(cfg, Moved(cfg, s, i, total))
    ensures ActiveSeats(Moved(cfg, s, i, total).players) == ActiveSeats(s.players)
  {
    var p := s.players[i];
    assert PlayerOk(cfg, s, p);
    WalkInBounds(p.position, total, |s.spaces|);
    GoBonusNonNegative(cfg, Walk(p.position, total, |s.spaces|).1);
    TweakCore(cfg, s, i, Moved(cfg, s, i, total).players[i]);
  }

  /** What a landing needs to know of the state it happens in. */
  ghost predicate Landable(cfg: ValidConfig, s: State, i: nat) {
    match s.phase
    case Playing =>
      && Core(cfg, s) && Undecided(s) && s.spaces != []
      && i < |s.players| && IsActive(s.players[i]) && s.players[i].seat == s.turn.seat
      && 1 <= s.turn.round && RoundOpen(cfg, s)
      && 2 <= |ActiveSeats(s.players)|
    case _ => false
  }

  // ---- how far a board action takes the turn ----------------------------------

  function StreakCap(cfg: ValidConfig): int {
    if cfg.rules.doublesExtraRoll then cfg.rules.maxDoublesStreak else 1
  }

  /** Rolls the turn can still see. */
  function RollsLeft(cfg: ValidConfig, t: Turn): int {
    match t.phase
    case AwaitRoll => StreakCap(cfg) - t.streak
    case AwaitBuyDecision => if t.award then StreakCap(cfg) - t.streak else 0
    case TurnOver => 0
    case NoTurn => 0
  }

  /** Board actions the turn can still see. */
  function ActionsLeft(cfg: ValidConfig, t: Turn): int {
    match t.phase
    case AwaitRoll => 2 * RollsLeft(cfg, t) + 1
    case AwaitBuyDecision => 2 * RollsLeft(cfg, t) + 2
    case TurnOver => 1
    case NoTurn => 0
  }

  /** The turn goes on with the same players and less of it left. */
  ghost predicate TurnGoesOn(cfg: ValidConfig, s: State, x: State, rolls: int) {
    && x.turn.seat == s.turn.seat && x.turn.round == s.turn.round
    && ActiveSeats(x.players) == ActiveSeats(s.players)
    && ActionsLeft(cfg, x.turn) < ActionsLeft(cfg, s.turn)
    && RollsLeft(cfg, x.turn) <= RollsLeft(cfg, s.turn) - rolls
  }

  /** The turn passes on to the next active seat. */
  ghost predicate TurnPassed(s: State, x: State) {
    x.turn == TurnAfter(ActiveSeats(x.players), s.turn.seat, s.turn.round)
  }

  ghost predicate HolderOut(s: State, x: State) {
    ActiveSeats(x.players) == ActiveSeats(s.players) - {s.turn.seat}
  }

  /** Every board action uses up part of the turn or passes it on, eliminating nobody but its holder. */
  ghost predicate Progress(cfg: ValidConfig, s: State, x: State, rolls: int) {
    || TurnGoesOn(cfg, s, x, rolls)
    || (TurnPassed(s, x) && (HolderOut(s, x) || ActiveSeats(x.players) == ActiveSeats(s.players)))
  }

  lemma {:induction false} BankruptMid(cfg: ValidConfig, s: State, i: nat, creditor: PlayerId, owed: int, cause: Cause)
    requires Landable(cfg, s, i)
    ensures Mid(cfg, Bankrupt(s, i, creditor, owed, cause).next)
    ensures HolderOut(s, Bankrupt(s, i, creditor, owed, cause).next)
    ensures TurnPassed(s, Bankrupt(s, i, creditor, owed, cause).next)
  {
    var active := ActiveSeats(s.players);
    EliminateCore(cfg, s, i);
    HolderOf(s.players, i);
    var out := Eliminate(s, i);
    assert |active - {s.turn.seat}| == |active| - 1;
    assert active - {s.turn.seat} != {};
    if cfg.victory.kind == RoundLimit && s.turn.round == cfg.victory.roundLimit + 1 {
      var other :| other in active - {s.turn.seat};
      assert other in Above(ActiveSeats(out.players), s.turn.seat);
    }
    AdvanceMid(cfg, out, s.turn.seat);
  }

  lemma {:induction false} Solvent(cfg: ValidConfig, s: State, i: nat)
    requires Core(cfg, s) && i < |s.players|
    ensures 0 <= s.players[i].money
  {
    assert PlayerOk(cfg, s, s.players[i]);
  }

  lemma {:induction false} RentCore(cfg: ValidConfig, s: State, i: nat, o: nat, rent: int)
    requires Core(cfg, s) && i < |s.players| && o < |s.players| && i != o && 0 <= rent <= s.players[i].money
    ensures var t := Pay(Pay(s, i, rent), o, -rent);
            Core(cfg, t) && SameSeats(s.players, t.players) && ActiveSeats(t.players) == ActiveSeats(s.players)
  {
    hide Core, ActiveSeats;
    Solvent(cfg, s, o);
    PayCore(cfg, s, i, rent);
    PayCore(cfg, Pay(s, i, rent), o, -rent);
  }

  /** Only the seat holder stands where the decision is about. */
  lemma OfferedToHolder(s: State, i: nat)
    requires Seated(s.players) && i < |s.players| && s.players[i].seat == s.turn.seat
    requires 0 <= s.players[i].position < |s.spaces|
    requires var sp := s.spaces[s.players[i].position];
             sp.def.kind == Property && !sp.owned && sp.def.price <= s.players[i].money
    ensures BuyOffered(s)
  {
  }

  /** A landing leaves a consistent state: the turn has moved on past a bankrupt, and is untouched otherwise. */
  ghost predicate LandingOk(cfg: ValidConfig, s: State, l: Landing) {
    if l.bankrupt then
      Mid(cfg, l.next) && HolderOut(s, l.next) && TurnPassed(s, l.next)
    else
      && Core(cfg, l.next) && SameSeats(s.players, l.next.players)
      && ActiveSeats(l.next.players) == ActiveSeats(s.players)
      && l.next == s.(players := l.next.players)
      && (l.buyDecision ==> BuyOffered(l.next))
  }

  lemma {:induction false} TaxLanding(cfg: ValidConfig, s: State, i: nat, amount: int, facts: seq<Fact>)
    requires Landable(cfg, s, i)
    ensures s.players[i].money < amount ==> LandingOk(cfg, s, Bankrupt(s, i, NoPlayer, amount, BankruptcyTax))
    ensures s.players[i].money >= amount ==>
              LandingOk(cfg, s, Landing(Pay(s, i, amount), facts, false, false))
  {
    if s.players[i].money < amount {
      BankruptMid(cfg, s, i, NoPlayer, amount, BankruptcyTax);
    } else {
      PayCore(cfg, s, i, amount);
    }
  }

  lemma {:induction false} RentLanding(cfg: ValidConfig, s: State, i: nat, o: nat, owner: PlayerId, rent: int, facts: seq<Fact>)
    requires Landable(cfg, s, i) && o < |s.players| && i != o && 0 <= rent
    ensures s.players[i].money < rent ==> LandingOk(cfg, s, Bankrupt(s, i, owner, rent, BankruptcyRent))
    ensures s.players[i].money >= rent ==>
              LandingOk(cfg, s, Landing(Pay(Pay(s, i, rent), o, -rent), facts, false, false))
  {
    if s.players[i].money < rent {
      BankruptMid(cfg, s, i, owner, rent, BankruptcyRent);
    } else {
      RentCore(cfg, s, i, o, rent);
    }
  }

  lemma {:induction false} QuietLanding(cfg: ValidConfig, s: State, i: nat)
    requires Landable(cfg, s, i)
    ensures LandingOk(cfg, s, Landing(s, [], false, false))
    ensures 0 <= s.players[i].position < |s.spaces| && SpaceOk(s.spaces[s.players[i].position].def)
    ensures var sp := s.spaces[s.players[i].position];
            sp.def.kind == Property && !sp.owned && sp.def.price <= s.players[i].money ==>
              LandingOk(cfg, s, Landing(s, [], true, false))
  {
    assert PlayerOk(cfg, s, s.players[i]);
    var sp := s.spaces[s.players[i].position];
    assert sp.def == cfg.board[s.players[i].position] && SpaceOk(sp.def);
    if sp.def.kind == Property && !sp.owned && sp.def.price <= s.players[i].money {
      OfferedToHolder(s, i);
    }
  }

  lemma {:induction false} LandingMid(cfg: ValidConfig, s: State, i: nat)
    requires i < |s.players| && Landable(cfg, s, i)
    ensures ResolveLanding(s, i, s.players[i].position).Ok?
    ensures LandingOk(cfg, s, ResolveLanding(s, i, s.players[i].position).value)
  {
    hide Landable, LandingOk, Bankrupt, Pay;
    QuietLanding(cfg, s, i);
    var p := s.players[i];
    var space := s.spaces[p.position];
    if space.def.kind == Tax {
      TaxLanding(cfg, s, i, space.def.amount, [BankTransfer(p.id, space.def.amount, ToBank, TaxDue)]);
    } else if space.def.kind == Property && space.owned && space.owner != p.id {
      var o := IndexOf(s.players, space.owner);
      if o < |s.players| {
        RentLanding(cfg, s, i, o, space.owner, space.def.rent,
                    [RentPaid(p.id, space.owner, space.def.id, space.def.rent)]);
      }
    }
  }

  lemma {:induction false} MovedLandable(cfg: ValidConfig, s: State, i: nat, total: nat)
    requires Landable(cfg, s, i)
    ensures Landable(cfg, Moved(cfg, s, i, total), i)
    ensures ActiveSeats(Moved(cfg, s, i, total).players) == ActiveSeats(s.players)
  {
    MovedCore(cfg, s, i, total);
  }

  lemma {:induction false} RollMid(cfg: ValidConfig, s: State, i: nat, dice: Dice) returns (x: State, facts: seq<Fact>)
    requires i < |s.players| && Landable(cfg, s, i) && s.turn.phase == AwaitRoll && StreakRoom(cfg, s.turn)
    ensures Mid(cfg, x) && RollOf(cfg, s, i, dice) == Ok(Closing(cfg, x, facts))
    ensures Progress(cfg, s, x, 1)
  {
    hide Closing, MoveFacts, Walk, GoBonus, IndexOf, ResolveLanding, Landable, Mid, Settled, Streak;
    var moved := Moved(cfg, s, i, dice.d1 + dice.d2);
    MovedLandable(cfg, s, i, dice.d1 + dice.d2);
    SettledMid(cfg, moved, i, dice);
    var landing := ResolveLanding(moved, i, moved.players[i].position).value;
    x, facts := Settled(cfg, landing, Streak(cfg, s.turn.streak, dice)), MoveFacts(cfg, s, i, dice) + landing.facts;
  }

  lemma {:induction false} SettledMid(cfg: ValidConfig, s: State, i: nat, dice: Dice)
    requires Landable(cfg, s, i) && s.turn.phase == AwaitRoll && StreakRoom(cfg, s.turn)
    ensures ResolveLanding(s, i, s.players[i].position).Ok?
    ensures var x := Settled(cfg, ResolveLanding(s, i, s.players[i].position).value, Streak(cfg, s.turn.streak, dice));
            Mid(cfg, x) && Progress(cfg, s, x, 1)
  {
    LandingMid(cfg, s, i);
    assert s.turn.seat in ActiveSeats(s.players) by { assert Seated(s.players); HolderOf(s.players, i); }
    hide ResolveLanding, Core, ActiveSeats, BuyOffered, SameSeats, NextTurn;
    var l := ResolveLanding(s, i, s.players[i].position).value;
    if !l.bankrupt {
      var (streak, extra) := Streak(cfg, s.turn.streak, dice);
      SettleMid(cfg, l.next, l.buyDecision, streak, extra);
    }
  }

  lemma {:induction false} SettleMid(cfg: ValidConfig, s: State, buyDecision: bool, streak: int, extra: bool)
    requires s.phase == Playing && Core(cfg, s) && Undecided(s) && RoundCapped(cfg, s) && s.spaces != []
    requires s.turn.seat in ActiveSeats(s.players) && 1 <= s.turn.round
    requires extra ==> StreakRoom(cfg, s.turn.(streak := streak))
    requires buyDecision ==> BuyOffered(s)
    ensures Mid(cfg, s.(turn := SettleTurn(s.turn, buyDecision, streak, extra)))
  {
    CoreFrame(cfg, s, s.(turn := SettleTurn(s.turn, buyDecision, streak, extra)));
  }

  lemma {:induction false} DeclineMid(cfg: ValidConfig, s: State, actor: PlayerId) returns (x: State, facts: seq<Fact>)
    requires Inv(cfg, s) && TurnError(s, actor, AwaitBuyDecision) == None
    ensures Mid(cfg, x) && DoDecline(cfg, s, actor) == Ok(Closing(cfg, x, facts))
    ensures Progress(cfg, s, x, 0)
  {
    HolderFound(cfg, s, actor, AwaitBuyDecision);
    x := s.(turn := AfterDecision(s.turn));
    facts := [BuyDeclined(actor, s.spaces[s.players[IndexOf(s.players, actor)].position].def.id)];
    CoreFrame(cfg, s, x);
    hide Closing;
  }

  lemma {:induction false} BuyMid(cfg: ValidConfig, s: State, actor: PlayerId) returns (x: State, facts: seq<Fact>)
    requires Inv(cfg, s) && TurnError(s, actor, AwaitBuyDecision) == None
    ensures Mid(cfg, x) && DoBuy(cfg, s, actor) == Ok(Closing(cfg, x, facts))
    ensures Progress(cfg, s, x, 0)
  {
    OfferMade(cfg, s, actor);
    hide Closing, Progress, Core, Inv, Mid, ActiveSeats, Seated;
    var i := IndexOf(s.players, actor);
    var p := s.players[i];
    var space := s.spaces[p.position];
    HolderOf(s.players, i);
    PayCore(cfg, s, i, space.def.price);
    var paid := Pay(s, i, space.def.price);
    DeedCore(cfg, paid, p.position, actor);
    x := paid.(spaces := s.spaces[p.position := space.(owned := true, owner := actor)], turn := AfterDecision(s.turn));
    facts := [PropertyBought(actor, space.def.id, space.def.price)];
    CoreFrame(cfg, paid.(spaces := x.spaces), x);
    DecisionProgress(cfg, s, x);
    DecidedMid(cfg, s, x);
  }

  /** What the buyer was offered: an unowned property they stand on and can pay for. */
  lemma {:induction false} OfferMade(cfg: ValidConfig, s: State, actor: PlayerId)
    requires Inv(cfg, s) && TurnError(s, actor, AwaitBuyDecision) == None
    ensures s.phase == Playing && s.turn.phase == AwaitBuyDecision && Core(cfg, s) && Seated(s.players)
    ensures s.turn.award ==> StreakRoom(cfg, s.turn)
    ensures var i := IndexOf(s.players, actor);
            && i < |s.players| && s.players[i].id == actor == Pl(s.players[i].seat) && IsActive(s.players[i])
            && 0 <= s.players[i].position < |s.spaces|
            && var sp := s.spaces[s.players[i].position];
              sp.def.kind == Property && !sp.owned && sp.def.price <= s.players[i].money
  {
    HolderFound(cfg, s, actor, AwaitBuyDecision);
  }

  /** A decision leaves the turn with its holder. */
  lemma {:induction false} DecidedMid(cfg: ValidConfig, s: State, x: State)
    requires Inv(cfg, s) && s.phase == Playing && s.turn.phase == AwaitBuyDecision && Core(cfg, x)
    requires x.turn == AfterDecision(s.turn) && ActiveSeats(x.players) == ActiveSeats(s.players)
    requires x.phase == s.phase && x.winner == s.winner && x.endReason == s.endReason
    ensures Mid(cfg, x)
  {
    hide Core;
  }

  lemma DecisionProgress(cfg: ValidConfig, s: State, x: State)
    requires s.turn.phase == AwaitBuyDecision && x.turn == AfterDecision(s.turn)
    requires s.turn.award ==> StreakRoom(cfg, s.turn)
    requires ActiveSeats(x.players) == ActiveSeats(s.players)
    ensures Progress(cfg, s, x, 0)
  {
  }

  lemma {:induction false} DeedCore(cfg: ValidConfig, s: State, at: nat, owner: PlayerId)
    requires Core(cfg, s) && at < |s.spaces| && s.spaces[at].def.kind == Property
    requires owner.Pl? && owner.seat in ActiveSeats(s.players)
    ensures Core(cfg, s.(spaces := s.spaces[at := s.spaces[at].(owned := true, owner := owner)]))
  {
    var t := s.(spaces := s.spaces[at := s.spaces[at].(owned := true, owner := owner)]);
    assert forall p :: OnBoard(s, p) == OnBoard(t, p);
  }

  lemma {:induction false} EndTurnMid(cfg: ValidConfig, s: State, actor: PlayerId) returns (x: State, facts: seq<Fact>)
    requires Inv(cfg, s) && TurnError(s, actor, TurnOver) == None
    ensures Mid(cfg, x) && DoEndTurn(cfg, s, actor) == Ok(Closing(cfg, x, facts))
    ensures Progress(cfg, s, x, 0)
  {
    HolderFound(cfg, s, actor, TurnOver);
    AdvanceMid(cfg, s, s.turn.seat);
    x := AdvanceFrom(s, s.turn.seat);
    facts := [Advanced(x)];
  }

  lemma {:induction false} HolderLands(cfg: ValidConfig, s: State, actor: PlayerId)
    requires Inv(cfg, s) && TurnError(s, actor, AwaitRoll) == None
    ensures IndexOf(s.players, actor) < |s.players| && Landable(cfg, s, IndexOf(s.players, actor))
    ensures s.turn.phase == AwaitRoll && StreakRoom(cfg, s.turn)
  {
    HolderFound(cfg, s, actor, AwaitRoll);
  }

  lemma {:induction false} RollTaken(cfg: ValidConfig, s: State, actor: PlayerId, dice: Dice) returns (x: State, facts: seq<Fact>)
    requires Inv(cfg, s) && TurnError(s, actor, AwaitRoll) == None
    ensures Mid(cfg, x) && DoRoll(cfg, s, actor, dice) == Ok(Closing(cfg, x, facts))
    ensures Progress(cfg, s, x, 1)
  {
    HolderLands(cfg, s, actor);
    hide Inv, Landable, Mid, Progress, RollOf, Closing, TurnError;
    x, facts := RollMid(cfg, s, IndexOf(s.players, actor), dice);
  }

  predicate IsBoardAction(action: Action) { action == Roll || action == Buy || action == Decline || action == EndTurn }

  /** An accepted board action is a consistent playing state with the victory conditions looked at. */
  lemma {:induction false} BoardMid(cfg: ValidConfig, s: State, actor: PlayerId, action: Action, dice: Dice)
    returns (x: State, facts: seq<Fact>)
    requires Inv(cfg, s) && IsBoardAction(action)
    requires Handle(cfg, s, actor, action, dice).Ok?
    ensures Mid(cfg, x) && Handle(cfg, s, actor, action, dice) == Ok(Closing(cfg, x, facts))
    ensures Progress(cfg, s, x, if action == Roll then 1 else 0)
  {
    hide Closing, RollOf, Mid, Progress, Inv;
    match action {
      case Roll => x, facts := RollTaken(cfg, s, actor, dice);
      case Buy => x, facts := BuyMid(cfg, s, actor);
      case Decline => x, facts := DeclineMid(cfg, s, actor);
      case EndTurn => x, facts := EndTurnMid(cfg, s, actor);
    }
  }

  // ---- the lifecycle actions -------------------------------------------------

  /** A lobby is determined by its roster; the board waits untouched. */
  lemma {:induction false} LobbyInv(cfg: ValidConfig, s: State, qs: seq<Player>)
    requires Inv(cfg, s) && s.phase == Lobby
    requires Seated(qs) && OneHost(qs) && |qs| <= cfg.maxPlayers
    requires forall i :: 0 <= i < |qs| ==> PlayerOk(cfg, s, qs[i]) && Waiting(cfg, qs[i])
    ensures Inv(cfg, s.(players := qs))
  {
    var t := s.(players := qs);
    forall k | 0 <= k < |s.spaces| ensures DeedOk(ActiveSeats(qs), s.spaces[k]) {
      assert DeedOk(ActiveSeats(s.players), s.spaces[k]);
    }
    assert forall p :: PlayerOk(cfg, t, p) == PlayerOk(cfg, s, p);
  }

  lemma {:induction false} JoinInv(cfg: ValidConfig, s: State, name: string)
    requires Inv(cfg, s) && DoJoin(cfg, s, name).Ok?
    ensures Inv(cfg, DoJoin(cfg, s, name).value.next)
  {
    var seat := FreeSeat(s.players);
    var p := Player(Pl(seat), name, seat, cfg.startingMoney, Active, false, s.players == [], 0);
    var qs := s.players + [p];
    assert forall i :: 0 <= i < |s.players| ==> s.players[i].seat != seat by {
      if i :| 0 <= i < |s.players| && s.players[i].seat == seat { assert Used(s.players, seat); }
    }
    assert OneHost(qs) by {
      if s.players == [] {
        assert qs[0].isHost;
      } else {
        var h :| 0 <= h < |s.players| && s.players[h].isHost;
        assert qs[h].isHost;
      }
    }
    forall i | 0 <= i < |qs| ensures PlayerOk(cfg, s, qs[i]) && Waiting(cfg, qs[i]) {
      if i < |s.players| { assert PlayerOk(cfg, s, s.players[i]) && Waiting(cfg, s.players[i]); }
    }
    LobbyInv(cfg, s, qs);
  }

  lemma {:induction false} ReadyInv(cfg: ValidConfig, s: State, actor: PlayerId, ready: bool)
    requires Inv(cfg, s) && DoReady(s, actor, ready).Ok?
    ensures Inv(cfg, DoReady(s, actor, ready).value.next)
  {
    var i := IndexOf(s.players, actor);
    var p := s.players[i].(ready := ready);
    Tweak(s.players, i, p);
    assert PlayerOk(cfg, s, s.players[i]) && Waiting(cfg, s.players[i]);
    LobbyInv(cfg, s, s.players[i := p]);
  }

  /** Everyone who stays is someone who was there. */
  ghost predicate DrawnFrom(qs: seq<Player>, ps: seq<Player>) {
    |qs| <= |ps| && DistinctSeats(qs) && forall q :: q in qs ==> q in ps
  }

  lemma {:induction false} DrawnOk(cfg: ValidConfig, s: State, qs: seq<Player>)
    requires Inv(cfg, s) && s.phase == Lobby && DrawnFrom(qs, s.players)
    ensures Seated(qs) && |qs| <= cfg.maxPlayers
    ensures forall i :: 0 <= i < |qs| ==> PlayerOk(cfg, s, qs[i]) && Waiting(cfg, qs[i])
    ensures forall i, j :: 0 <= i < j < |qs| ==> !(qs[i].isHost && qs[j].isHost)
  {
    forall i | 0 <= i < |qs| ensures qs[i].id == Pl(qs[i].seat) && PlayerOk(cfg, s, qs[i]) && Waiting(cfg, qs[i]) {
      assert qs[i] in s.players;
      var j :| 0 <= j < |s.players| && s.players[j] == qs[i];
      assert PlayerOk(cfg, s, s.players[j]) && Waiting(cfg, s.players[j]);
    }
    forall i, j | 0 <= i < j < |qs| ensures !(qs[i].isHost && qs[j].isHost) {
      assert qs[i] in s.players && qs[j] in s.players;
      var a :| 0 <= a < |s.players| && s.players[a] == qs[i];
      var b :| 0 <= b < |s.players| && s.players[b] == qs[j];
      assert a != b;
    }
  }

  lemma {:induction false} SuccessionInv(cfg: ValidConfig, s: State, remaining: seq<Player>)
    requires Inv(cfg, s) && s.phase == Lobby && DrawnFrom(remaining, s.players) && remaining != []
    requires forall k :: 0 <= k < |remaining| ==> !remaining[k].isHost
    ensures BySeat(remaining) != []
    ensures Inv(cfg, s.(players := BySeat(remaining)[0 := BySeat(remaining)[0].(isHost := true)]))
  {
    var sorted := BySeat(remaining);
    BySeatOrders(remaining);
    DrawnOk(cfg, s, sorted);
    var qs := sorted[0 := sorted[0].(isHost := true)];
    forall k | 0 < k < |qs| ensures !qs[k].isHost {
      assert sorted[k] in sorted;
    }
    assert qs[0].isHost;
    assert PlayerOk(cfg, s, sorted[0]) && Waiting(cfg, sorted[0]);
    LobbyInv(cfg, s, qs);
  }

  lemma LobbyRoster(cfg: ValidConfig, s: State)
    requires Inv(cfg, s) && s.phase == Lobby
    ensures Seated(s.players) && OneHost(s.players)
  {
  }

  lemma {:induction false} LeaveLobbyInv(cfg: ValidConfig, s: State, actor: PlayerId)
    requires Inv(cfg, s) && s.phase == Lobby && Has(s.players, actor)
    ensures Inv(cfg, LeaveLobby(s, actor))
  {
    LobbyRoster(cfg, s);
    hide Inv, Core, Waiting, PlayerOk, BySeat, Without, Seated;
    var i := IndexOf(s.players, actor);
    var remaining := Without(s.players, actor);
    WithoutKeeps(s.players, actor);
    hide OneHost, DistinctSeats;
    if s.players[i].isHost && remaining != [] {
      HostGone(s.players, i, remaining);
      SuccessionInv(cfg, s, remaining);
    } else {
      HostStays(cfg, s, i, remaining);
    }
  }

  /** Whoever leaves without hosting leaves the host in place. */
  lemma {:induction false} HostStays(cfg: ValidConfig, s: State, i: nat, remaining: seq<Player>)
    requires Inv(cfg, s) && s.phase == Lobby && DrawnFrom(remaining, s.players) && i < |s.players|
    requires forall q :: q in s.players && q.id != s.players[i].id ==> q in remaining
    requires remaining == [] || !s.players[i].isHost
    ensures Inv(cfg, s.(players := remaining))
  {
    LobbyRoster(cfg, s);
    DrawnOk(cfg, s, remaining);
    if remaining != [] {
      var h :| 0 <= h < |s.players| && s.players[h].isHost;
      assert s.players[h] in remaining;
    }
    hide Inv, Core, Waiting, PlayerOk, Seated;
    LobbyInv(cfg, s, remaining);
  }

  /** When the host leaves, nobody left is a host. */
  lemma {:induction false} HostGone(ps: seq<Player>, i: nat, qs: seq<Player>)
    requires OneHost(ps) && i < |ps| && ps[i].isHost
    requires forall q :: q in qs ==> q in ps && q.id != ps[i].id
    ensures forall k :: 0 <= k < |qs| ==> !qs[k].isHost
  {
    forall k | 0 <= k < |qs| ensures !qs[k].isHost {
      assert qs[k] in qs;
      var j :| 0 <= j < |ps| && ps[j] == qs[k];
      assert j != i;
    }
  }

  lemma {:induction false} StartInv(cfg: ValidConfig, s: State, actor: PlayerId)
    requires Inv(cfg, s) && DoStart(cfg, s, actor).Ok?
    ensures Inv(cfg, DoStart(cfg, s, actor).value.next)
  {
    var t := DoStart(cfg, s, actor).value.next;
    ActivesCounted(s.players);
    forall i | 0 <= i < |t.players| ensures PlayerOk(cfg, t, t.players[i]) {
      assert PlayerOk(cfg, s, s.players[i]) && Waiting(cfg, s.players[i]);
    }
    forall k | 0 <= k < |t.spaces| ensures DeedOk(ActiveSeats(t.players), t.spaces[k]) && !t.spaces[k].owned {
      if s.spaces != [] { assert DeedOk(ActiveSeats(s.players), s.spaces[k]); }
    }
    if cfg.victory.kind == TargetWealth {
      forall i | 0 <= i < |t.players| ensures Worth(t, i) < cfg.victory.targetWealth {
        assert Waiting(cfg, s.players[i]);
        NothingHeld(t.spaces, t.players[i].id);
      }
    }
  }

  lemma {:induction false} NothingHeld(spaces: seq<Space>, id: PlayerId)
    requires forall k :: 0 <= k < |spaces| ==> !OwnedBy(spaces[k], id)
    ensures Holdings(spaces, id) == 0
  {
    if spaces == [] {
    } else {
      NothingHeld(spaces[..|spaces| - 1], id);
    }
  }

  // ---- leaving a running match -----------------------------------------------

  /** Freed holdings are worth nothing to anyone, and everyone else's stay as they were. */
  lemma {:induction false} ReleaseWorth(spaces: seq<Space>, gone: PlayerId, id: PlayerId)
    requires gone != NoPlayer && id != NoPlayer
    ensures Holdings(Release(spaces, gone), id) == if id == gone then 0 else Holdings(spaces, id)
  {
    if spaces == [] {
    } else {
      var front := spaces[..|spaces| - 1];
      ReleaseWorth(front, gone, id);
      assert Release(spaces, gone)[..|spaces| - 1] == Release(front, gone);
    }
  }

  lemma {:induction false} EliminationEnriches(cfg: ValidConfig, s: State, i: nat)
    requires Core(cfg, s) && i < |s.players| && !TargetReached(cfg, s)
    ensures !TargetReached(cfg, Eliminate(s, i))
  {
    var t := Eliminate(s, i);
    forall j | 0 <= j < |t.players| && IsActive(t.players[j]) ensures Worth(t, j) < cfg.victory.targetWealth {
      assert j != i;
      ReleaseWorth(s.spaces, s.players[i].id, s.players[j].id);
    }
  }

  lemma {:induction false} BystanderLeaves(cfg: ValidConfig, s: State, i: nat)
    requires Inv(cfg, s) && s.phase == Playing && i < |s.players| && IsActive(s.players[i])
    requires s.players[i].seat != s.turn.seat && 2 <= |ActiveSeats(Eliminate(s, i).players)|
    ensures Inv(cfg, Eliminate(s, i))
  {
    EliminateCore(cfg, s, i);
    if cfg.victory.kind == TargetWealth { EliminationEnriches(cfg, s, i); }
  }

  lemma {:induction false} HolderLeaves(cfg: ValidConfig, s: State, i: nat)
    requires Inv(cfg, s) && s.phase == Playing && i < |s.players| && IsActive(s.players[i])
    requires s.players[i].seat == s.turn.seat && 2 <= |ActiveSeats(Eliminate(s, i).players)|
    ensures Inv(cfg, AdvanceFrom(Eliminate(s, i), s.turn.seat))
  {
    EliminateCore(cfg, s, i);
    var out := Eliminate(s, i);
    var active := ActiveSeats(out.players);
    if cfg.victory.kind == TargetWealth { EliminationEnriches(cfg, s, i); }
    if cfg.victory.kind == RoundLimit && s.turn.round == cfg.victory.roundLimit + 1 {
      assert Above(active, s.turn.seat) == active;
    }
    var t := AdvanceFrom(out, s.turn.seat);
    CoreFrame(cfg, out, t);
    assert forall j :: 0 <= j < |t.players| ==> Worth(t, j) == Worth(out, j);
  }

  lemma InPlay(cfg: ValidConfig, s: State)
    requires Inv(cfg, s) && s.phase == Playing
    ensures Core(cfg, s) && Seated(s.players) && 2 <= |ActiveSeats(s.players)| && s.turn.seat in ActiveSeats(s.players)
  {
  }

  /** One player left standing is a decided match. */
  lemma {:induction false} ShortInv(cfg: ValidConfig, s: State, out: State)
    requires Inv(cfg, s) && s.phase == Playing && Core(cfg, out)
    requires out == s.(players := out.players, spaces := out.spaces) && |ActiveSeats(out.players)| == 1
    ensures Inv(cfg, EndIfShort(out).next)
  {
    LastStandingDecides(cfg, out);
    SoleActive(out.players);
    var e := EndIfShort(out).next;
    EndedCore(cfg, out, e);
    hide Core, Decided, TurnOk, Least;
  }

  lemma {:induction false} EndedCore(cfg: ValidConfig, s: State, t: State)
    requires Core(cfg, s) && s.phase == Playing && t.players == s.players && t.spaces == s.spaces && t.phase == Ended
    ensures Core(cfg, t)
  {
    assert s.spaces != [];
    CoreFrame(cfg, s, t);
  }

  lemma {:induction false} LeaveMatchInv(cfg: ValidConfig, s: State, i: nat)
    requires Inv(cfg, s) && s.phase == Playing && i < |s.players|
    ensures Inv(cfg, LeaveMatch(s, i).next)
  {
    InPlay(cfg, s);
    HolderOf(s.players, i);
    hide Core, Inv, Seated;
    ActivesCounted(s.players);
    if IsActive(s.players[i]) {
      var out := Eliminate(s, i);
      EliminateCore(cfg, s, i);
      ActivesCounted(out.players);
      hide ActiveSeats;
      assert |ActiveSeats(s.players) - {s.players[i].seat}| == |ActiveSeats(s.players)| - 1;
      if |ActiveSeats(out.players)| < 2 {
        ShortInv(cfg, s, out);
      } else if s.players[i].seat == s.turn.seat {
        HolderLeaves(cfg, s, i);
      } else {
        BystanderLeaves(cfg, s, i);
      }
    }
  }

  // ---- every action, every run -----------------------------------------------

  lemma {:induction false} TickFrame(cfg: ValidConfig, s: State, tick: nat)
    requires Inv(cfg, s)
    ensures Inv(cfg, s.(tick := tick))
  {
    var t := s.(tick := tick);
    CoreFrame(cfg, s, t);
    assert forall j :: 0 <= j < |s.players| ==> Worth(t, j) == Worth(s, j);
    if s.phase == Ended {
      var i: nat :| IsRichest(s, i) && s.winner == Some(s.players[i].id);
      assert IsRichest(t, i);
      forall j: nat | IsRichest(s, j) ensures j == i { RichestUnique(s, i, j); }
    }
  }

  /** Every accepted action, with any dice, keeps the invariant. */
  lemma {:induction false} ApplyInv(cfg: ValidConfig, s: State, actor: PlayerId, action: Action, dice: Dice)
    requires Inv(cfg, s) && Apply(cfg, s, actor, action, dice).Ok?
    ensures Inv(cfg, Apply(cfg, s, actor, action, dice).value.next)
  {
    hide Core, LobbyOk, PlayingOk, Decided, RoundCapped, Mid, Evaluate, LeaveLobby, LeaveMatch, DoJoin, DoStart, DoReady;
    var next := Handle(cfg, s, actor, action, dice).value.next;
    assert Inv(cfg, next) by {
      match action {
        case Join(name) => JoinInv(cfg, s, name);
        case Leave =>
          if s.phase == Lobby { LeaveLobbyInv(cfg, s, actor); } else { LeaveMatchInv(cfg, s, IndexOf(s.players, actor)); }
        case Ready(ready) => ReadyInv(cfg, s, actor, ready);
        case Start => StartInv(cfg, s, actor);
        case _ =>
          var x, facts := BoardMid(cfg, s, actor, action, dice);
          EvaluateInv(cfg, x);
      }
    }
    TickFrame(cfg, next, s.tick + 1);
  }
}
