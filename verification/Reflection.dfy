/**
 Folding a transition into a view that already shows what came of it, or something later still: which of its effects
 such a state still has, and when folding them again changes nothing (game-store.ts).
 */
module Reflection {
  import opened Config
  import opened Domain
  import opened Seats
  import opened Rules
  import opened Invariant
  import opened Runs
  import opened Client
  import opened Simulation
  import opened Engine
  import opened Outcomes
  import opened Rotation

  // ---- folding what is already there moves nothing but money ----------------------

  /** The view shows t, but for the balances and the turn's inner stage. */
  ghost predicate ShowsButMoney(v: State, t: State) {
    && v.phase == t.phase && v.spaces == t.spaces && v.winner == t.winner && v.endReason == t.endReason
    && v.turn.seat == t.turn.seat && v.turn.round == t.turn.round
    && |v.players| == |t.players|
    && forall i :: 0 <= i < |t.players| ==> v.players[i] == t.players[i].(money := v.players[i].money)
  }

  ghost predicate IsOut(t: State, id: PlayerId) {
    forall i :: 0 <= i < |t.players| && t.players[i].id == id ==> t.players[i].status == Eliminated
  }

  /** What the event says, amounts apart, is how t already is. */
  ghost predicate Reflected(t: State, f: Fact) {
    match f
    case DiceRolled(id, _, _, _, to, _) =>
      0 <= FindSpace(t.spaces, to) &&
      forall i :: 0 <= i < |t.players| && t.players[i].id == id ==> t.players[i].position == FindSpace(t.spaces, to)
    case PropertyBought(id, space, _) =>
      var k := FindSpace(t.spaces, space); 0 <= k && t.spaces[k].owned && t.spaces[k].owner == id
    case BuyDeclined(_, _) => true
    case RentPaid(_, _, _, _) => true
    case BankTransfer(_, _, _, _) => true
    case PlayerLeft(id) => IsOut(t, id)
    case PlayerEliminated(id, _) => IsOut(t, id)
    case PlayerBankrupt(id, _, _, _, released) =>
      && IsOut(t, id)
      && forall k :: 0 <= k < |t.spaces| && Reverts(OmitEmpty(released), id, t.spaces[k]) ==>
           !t.spaces[k].owned && t.spaces[k].owner == NoPlayer
    case TurnAdvanced(seat, round) => t.turn.seat == seat && t.turn.round == round
    case GameEnded(winner, reason) => t.phase == Ended && t.winner == winner && t.endReason == reason
    case PlayerJoined(_, _, _, _) => false
    case ReadyChanged(_, _) => false
    case GameStarted => false
  }

  ghost predicate AllReflected(t: State, facts: seq<Fact>) { forall f :: f in facts ==> Reflected(t, f) }

  /** What a balance shown for `id` becomes on one more event, clamped as shown balances are. */
  function Refold(b: int, id: PlayerId, f: Fact): int {
    match f
    case PropertyBought(x, _, price) => if x == id then Max(0, b - price) else b
    case RentPaid(payer, payee, _, amount) =>
      var paid := if payer == id then Max(0, b - amount) else b;
      if payee == id then Max(0, paid + amount) else paid
    case BankTransfer(x, amount, direction, _) =>
      if x == id then Max(0, b + if direction == ToPlayer then amount else -amount) else b
    case _ => b
  }

  function RefoldAll(b: int, id: PlayerId, facts: seq<Fact>): int {
    if facts == [] then b else Refold(RefoldAll(b, id, facts[..|facts| - 1]), id, facts[|facts| - 1])
  }

  lemma {:induction false} ReducesMoneyOnly(v: State, t: State, f: Fact)
    requires ShowsButMoney(v, t) && Reflected(t, f)
    ensures var w := Reduce(v, f);
            && ShowsButMoney(w, t)
            && forall i :: 0 <= i < |t.players| ==> w.players[i].money == Refold(v.players[i].money, t.players[i].id, f)
  {
    assert forall i :: 0 <= i < |t.players| ==> v.players[i].id == t.players[i].id;
    BoardStands(v, t, f);
    hide Revert, Reverts, FindSpace;
  }

  /** An event t already reflects leaves the board shown as it is. */
  lemma BoardStands(v: State, t: State, f: Fact)
    requires ShowsButMoney(v, t) && Reflected(t, f)
    ensures Reduce(v, f).spaces == t.spaces
  {
  }

  lemma {:induction false} FoldsMoneyOnly(v: State, t: State, facts: seq<Fact>)
    requires ShowsButMoney(v, t) && AllReflected(t, facts)
    ensures var w := ReduceAll(v, facts);
            && ShowsButMoney(w, t)
            && forall i :: 0 <= i < |t.players| ==> w.players[i].money == RefoldAll(v.players[i].money, t.players[i].id, facts)
  {
    if facts == [] {
    } else {
      var front := facts[..|facts| - 1];
      FoldsMoneyOnly(v, t, front);
      assert facts[|facts| - 1] in facts;
      hide Reduce, Reflected;
      ReducesMoneyOnly(ReduceAll(v, front), t, facts[|facts| - 1]);
    }
  }

  /** Every balance shown survives the events being folded again. */
  ghost predicate BalancesStand(t: State, facts: seq<Fact>) {
    forall i :: 0 <= i < |t.players| ==> RefoldAll(t.players[i].money, t.players[i].id, facts) == t.players[i].money
  }

  lemma {:induction false} AgreesIfBalancesStand(v: State, t: State, facts: seq<Fact>)
    requires Agrees(v, t) && AllReflected(t, facts)
    ensures Agrees(ReduceAll(v, facts), t) <==> BalancesStand(t, facts)
  {
    FoldsMoneyOnly(v, t, facts);
    var w := ReduceAll(v, facts);
    hide ReduceAll, AllReflected;
    if BalancesStand(t, facts) {
      forall i | 0 <= i < |t.players| ensures w.players[i] == t.players[i] {
        assert w.players[i].money == t.players[i].money;
      }
      assert w.players == t.players;
    }
  }

  // ---- a view has what was folded into it --------------------------------------------

  /** Folding g may overwrite what folding f did. */
  predicate Undoes(g: Fact, f: Fact) {
    match g
    case PlayerJoined(_, _, _, _) => true
    case GameStarted => f.GameEnded?
    case DiceRolled(_, _, _, _, _, _) => f.DiceRolled?
    case PropertyBought(_, _, _) => f.PropertyBought? || f.PlayerBankrupt?
    case PlayerBankrupt(_, _, _, _, _) => f.PropertyBought?
    case TurnAdvanced(_, _) => f.TurnAdvanced?
    case GameEnded(_, _) => f.GameEnded?
    case _ => false
  }

  predicate NoneUndone(facts: seq<Fact>) {
    forall i, j :: 0 <= i < j < |facts| ==> !Undoes(facts[j], facts[i])
  }

  /** The space it names is on the board, and it is no event of the lobby. */
  predicate Placed(spaces: seq<Space>, f: Fact) {
    match f
    case DiceRolled(_, _, _, _, to, _) => 0 <= FindSpace(spaces, to)
    case PropertyBought(_, space, _) => 0 <= FindSpace(spaces, space)
    case PlayerJoined(_, _, _, _) => false
    case ReadyChanged(_, _) => false
    case GameStarted => false
    case _ => true
  }

  ghost predicate SameDefs(spaces: seq<Space>, others: seq<Space>) {
    |others| == |spaces| && forall k :: 0 <= k < |spaces| ==> others[k].def == spaces[k].def
  }

  lemma {:induction false} SameDefsFind(spaces: seq<Space>, others: seq<Space>, id: string)
    requires SameDefs(spaces, others)
    ensures FindSpace(others, id) == FindSpace(spaces, id)
  {
  }

  lemma ReducePlaces(v: State, f: Fact)
    ensures SameDefs(v.spaces, Reduce(v, f).spaces)
  {
  }

  lemma {:induction false} ReduceReflects(v: State, f: Fact)
    requires Placed(v.spaces, f)
    ensures Reflected(Reduce(v, f), f)
  {
    ReducePlaces(v, f);
    hide FindSpace;
    match f
    case DiceRolled(_, _, _, _, to, _) => SameDefsFind(v.spaces, Reduce(v, f).spaces, to);
    case PropertyBought(_, space, _) => SameDefsFind(v.spaces, Reduce(v, f).spaces, space);
    case _ =>
  }

  lemma {:induction false} ReduceKeepsReflected(v: State, f: Fact, g: Fact)
    requires Reflected(v, f) && !Undoes(g, f)
    ensures Reflected(Reduce(v, g), f)
  {
    if f.DiceRolled? {
      ReducePlaces(v, g);
      SameDefsFind(v.spaces, Reduce(v, g).spaces, f.toSpace);
      hide FindSpace, SameDefs;
    } else if f.PropertyBought? || f.PlayerBankrupt? {
      BoardKept(v, f, g);
    } else {
      hide FindSpace, Revert;
    }
  }

  lemma {:induction false} BoardKept(v: State, f: Fact, g: Fact)
    requires Reflected(v, f) && !Undoes(g, f) && (f.PropertyBought? || f.PlayerBankrupt?)
    ensures Reflected(Reduce(v, g), f)
  {
    if g.PlayerBankrupt? {
      assert f.PlayerBankrupt?;
      hide FindSpace;
    } else {
      SpacesKept(v, g);
      hide FindSpace, Revert, Reverts;
    }
  }

  lemma SpacesKept(v: State, g: Fact)
    requires !g.PlayerBankrupt? && !g.PropertyBought?
    ensures Reduce(v, g).spaces == v.spaces
  {
  }

  lemma {:induction false} FoldReflects(v: State, facts: seq<Fact>)
    requires NoneUndone(facts) && forall f :: f in facts ==> Placed(v.spaces, f)
    ensures AllReflected(ReduceAll(v, facts), facts) && SameDefs(v.spaces, ReduceAll(v, facts).spaces)
  {
    hide Reduce, Reflected, Placed, Undoes;
    if facts == [] {
    } else {
      var front, last := facts[..|facts| - 1], facts[|facts| - 1];
      FoldReflects(v, front);
      var w := ReduceAll(v, front);
      ReducePlaces(w, last);
      StaysPlaced(v.spaces, w.spaces, last);
      ReduceReflects(w, last);
      forall f | f in facts ensures Reflected(Reduce(w, last), f) {
        if f != last {
          var k :| 0 <= k < |facts| && facts[k] == f;
          assert front[k] == f;
          ReduceKeepsReflected(w, f, last);
        }
      }
    }
  }

  lemma {:induction false} StaysPlaced(spaces: seq<Space>, others: seq<Space>, f: Fact)
    requires SameDefs(spaces, others)
    ensures Placed(others, f) <==> Placed(spaces, f)
  {
    hide FindSpace, SameDefs;
    match f
    case DiceRolled(_, _, _, _, to, _) => SameDefsFind(spaces, others, to);
    case PropertyBought(_, space, _) => SameDefsFind(spaces, others, space);
    case _ =>
  }

  lemma AgreeReflected(u: State, w: State, f: Fact)
    requires Agrees(u, w)
    ensures Reflected(u, f) <==> Reflected(w, f)
  {
  }

  /**
   A view of w stays one of w under these events exactly if w has everything they say, and its balances survive their
   amounts.
   */
  lemma {:induction false} FoldsRight(v: State, w: State, facts: seq<Fact>)
    requires Agrees(v, w) && NoneUndone(facts) && forall f :: f in facts ==> Placed(w.spaces, f)
    ensures Agrees(ReduceAll(v, facts), w) <==> AllReflected(w, facts) && BalancesStand(w, facts)
  {
    hide ReduceAll, Reflected, Placed, BalancesStand;
    FoldReflects(v, facts);
    var u := ReduceAll(v, facts);
    if Agrees(u, w) {
      forall f | f in facts ensures Reflected(w, f) { AgreeReflected(u, w, f); }
    }
    if AllReflected(w, facts) { AgreesIfBalancesStand(v, w, facts); }
  }

  // ---- every transition of a running match is reflected in where it leads ------------

  /** Looking at the victory conditions undoes nothing, and says what it did. */
  lemma {:induction false} ClosingReflected(cfg: ValidConfig, s: State, facts: seq<Fact>)
    requires AllReflected(s, facts) && s.phase == Playing
    ensures AllReflected(Closing(cfg, s, facts).next, Closing(cfg, s, facts).facts)
  {
    var t := Evaluate(cfg, s).next;
    forall f | f in facts ensures Reflected(t, f) {
      assert Reflected(s, f);
    }
  }

  lemma {:induction false} GoneReflected(s: State, active: set<nat>, i: nat, cause: Cause, creditor: PlayerId, owed: int)
    requires Seated(s.players) && UniqueSpaces(s.spaces) && i < |s.players|
    requires forall k :: 0 <= k < |s.spaces| ==> DeedOk(active, s.spaces[k])
    ensures var id := s.players[i].id;
            AllReflected(Eliminate(s, i), [PlayerBankrupt(id, cause, creditor, owed, OwnedIds(s.spaces, id)),
                                           PlayerEliminated(id, cause)])
  {
    var id, out := s.players[i].id, Eliminate(s, i);
    OutAfter(s, i);
    RevertIsRelease(active, s.spaces, id);
    var released := OwnedIds(s.spaces, id);
    forall k | 0 <= k < |out.spaces| && Reverts(OmitEmpty(released), id, out.spaces[k])
      ensures !out.spaces[k].owned && out.spaces[k].owner == NoPlayer
    {
      assert DeedOk(active, s.spaces[k]);
      assert out.spaces[k] == Revert(s.spaces, id, OmitEmpty(released))[k];
    }
  }

  lemma {:induction false} OutAfter(s: State, i: nat)
    requires Seated(s.players) && i < |s.players|
    ensures IsOut(Eliminate(s, i), s.players[i].id)
  {
    forall j | 0 <= j < |s.players| && s.players[j].id == s.players[i].id ensures j == i {
      assert s.players[j].seat == s.players[i].seat;
    }
  }

  lemma {:induction false} BankruptReflected(cfg: ValidConfig, s: State, i: nat, creditor: PlayerId, owed: int, cause: Cause)
    requires Core(cfg, s) && i < |s.players|
    ensures var l := Bankrupt(s, i, creditor, owed, cause); AllReflected(l.next, l.facts)
  {
    SpacesUnique(cfg, s);
    assert Seated(s.players) && DeedsOk(s);
    GoneReflected(s, ActiveSeats(s.players), i, cause, creditor, owed);
    hide Core, NextTurn, OwnedIds;
    var l, out := Bankrupt(s, i, creditor, owed, cause), Eliminate(s, i);
    forall f | f in l.facts ensures Reflected(l.next, f) {
      if f == l.facts[0] { assert Reflected(out, l.facts[0]); }
    }
  }

  lemma {:induction false} LandingReflected(cfg: ValidConfig, s: State, i: nat)
    requires i < |s.players| && Landable(cfg, s, i) && ResolveLanding(s, i, s.players[i].position).Ok?
    ensures var l := ResolveLanding(s, i, s.players[i].position).value;
            AllReflected(l.next, l.facts) && (!l.bankrupt ==> forall x, f :: f in l.facts ==> Reflected(x, f))
  {
    StandsOnBoard(cfg, s, i);
    var space := s.spaces[s.players[i].position];
    assert Core(cfg, s);
    BankruptReflected(cfg, s, i, NoPlayer, space.def.amount, BankruptcyTax);
    BankruptReflected(cfg, s, i, space.owner, space.def.rent, BankruptcyRent);
    BankruptGoes(s, i, NoPlayer, space.def.amount, BankruptcyTax);
    BankruptGoes(s, i, space.owner, space.def.rent, BankruptcyRent);
    hide Landable, Core, Bankrupt, Pay;
  }

  lemma {:induction false} DiceReflected(t: State, i: nat, die1: int, die2: int, from: string, passed: bool)
    requires Seated(t.players) && UniqueSpaces(t.spaces) && i < |t.players| && 0 <= t.players[i].position < |t.spaces|
    ensures var p := t.players[i];
            Reflected(t, DiceRolled(p.id, die1, die2, from, t.spaces[p.position].def.id, passed))
  {
    FindUnique(t.spaces, t.players[i].position);
    forall j | 0 <= j < |t.players| && t.players[j].id == t.players[i].id ensures j == i {
      assert t.players[j].seat == t.players[i].seat;
    }
  }

  lemma SettledShows(cfg: ValidConfig, l: Landing, streak: (int, bool))
    requires AllReflected(l.next, l.facts) && (!l.bankrupt ==> forall x, f :: f in l.facts ==> Reflected(x, f))
    ensures var x := Settled(cfg, l, streak);
            AllReflected(x, l.facts) && x.players == l.next.players && x.spaces == l.next.spaces && x.phase == l.next.phase
  {
  }

  lemma {:induction false} RollReflected(cfg: ValidConfig, s: State, i: nat, dice: Dice)
    requires i < |s.players| && Landable(cfg, s, i)
    ensures RollOf(cfg, s, i, dice).Ok?
    ensures var r := RollOf(cfg, s, i, dice).value; AllReflected(r.next, r.facts)
  {
    hide Landable, ResolveLanding, Walk, MoveFacts, GoBonus, Reflected, Settled, Streak, LandingOk, Evaluate;
    var total := dice.d1 + dice.d2;
    var moved := Moved(cfg, s, i, total);
    MovedLandable(cfg, s, i, total);
    StandsOnBoard(cfg, moved, i);
    LandingMid(cfg, moved, i);
    var landing := ResolveLanding(moved, i, moved.players[i].position).value;
    LandingReflected(cfg, moved, i);
    LandingKeepsPlaces(moved, i, moved.players[i].position);
    SettledShows(cfg, landing, Streak(cfg, s.turn.streak, dice));
    var x := Settled(cfg, landing, Streak(cfg, s.turn.streak, dice));
    MovesReflected(cfg, s, x, i, dice);
    assert AllReflected(x, MoveFacts(cfg, s, i, dice) + landing.facts);
    ClosingReflected(cfg, x, MoveFacts(cfg, s, i, dice) + landing.facts);
  }

  lemma MoneyReflected(t: State, id: PlayerId, amount: int, why: BankReason)
    ensures Reflected(t, BankTransfer(id, amount, ToPlayer, why))
  {
  }

  lemma StillUnique(spaces: seq<Space>, others: seq<Space>)
    requires UniqueSpaces(spaces) && |others| == |spaces|
    requires forall k :: 0 <= k < |spaces| ==> others[k].def == spaces[k].def
    ensures UniqueSpaces(others)
  {
  }

  lemma SeatsStay(ps: seq<Player>, qs: seq<Player>)
    requires Seated(ps) && SameSeats(ps, qs)
    ensures Seated(qs)
  {
  }

  lemma {:induction false} MovesReflected(cfg: ValidConfig, s: State, x: State, i: nat, dice: Dice)
    requires i < |s.players| && Landable(cfg, s, i) && SameSeats(s.players, x.players)
    requires var moved := Moved(cfg, s, i, dice.d1 + dice.d2);
             0 <= moved.players[i].position < |s.spaces| && x.players[i].position == moved.players[i].position
    requires |x.spaces| == |s.spaces| && forall k :: 0 <= k < |s.spaces| ==> x.spaces[k].def == s.spaces[k].def
    ensures AllReflected(x, MoveFacts(cfg, s, i, dice))
  {
    assert Core(cfg, s) && Seated(s.players);
    hide Core, Landable, Walk, GoBonus, FindSpace, IsOut;
    SpacesUnique(cfg, s);
    StillUnique(s.spaces, x.spaces);
    SeatsStay(s.players, x.players);
    hide UniqueSpaces, Seated;
    var facts, w := MoveFacts(cfg, s, i, dice), Walk(s.players[i].position, dice.d1 + dice.d2, |s.spaces|);
    assert x.players[i].position == w.0 && x.players[i].id == s.players[i].id;
    hide SameSeats, Moved;
    DiceReflected(x, i, dice.d1, dice.d2, SpaceId(s, s.players[i].position), w.1 > 0);
    assert Reflected(x, facts[0]);
    hide Reflected;
    if w.1 > 0 { MoneyReflected(x, s.players[i].id, GoBonus(cfg, w.1), if w.0 == 0 then LandGo else PassGo); }
  }

  lemma {:induction false} TakenFound(spaces: seq<Space>, at: nat, owner: PlayerId)
    requires UniqueSpaces(spaces) && at < |spaces|
    ensures FindSpace(spaces[at := spaces[at].(owned := true, owner := owner)], spaces[at].def.id) == at
  {
    var taken := spaces[at := spaces[at].(owned := true, owner := owner)];
    assert forall k :: 0 <= k < |spaces| ==> taken[k].def == spaces[k].def;
    FindUnique(taken, at);
  }

  lemma {:induction false} BuyReflected(cfg: ValidConfig, s: State, actor: PlayerId)
    requires Inv(cfg, s) && DoBuy(cfg, s, actor).Ok?
    ensures var r := DoBuy(cfg, s, actor).value; AllReflected(r.next, r.facts)
  {
    SpacesUnique(cfg, s);
    hide Inv, Core, Closing, UniqueSpaces, FindSpace;
    var i := IndexOf(s.players, actor);
    var at := s.players[i].position;
    var x := Pay(s, i, s.spaces[at].def.price).(spaces := s.spaces[at := s.spaces[at].(owned := true, owner := actor)],
                                                 turn := AfterDecision(s.turn));
    TakenFound(s.spaces, at, actor);
    assert DoBuy(cfg, s, actor).value == Closing(cfg, x, [PropertyBought(actor, s.spaces[at].def.id, s.spaces[at].def.price)]);
    assert s.phase == Playing;
    hide DoBuy, TurnError, SameDefs;
    ClosingReflected(cfg, x, [PropertyBought(actor, s.spaces[at].def.id, s.spaces[at].def.price)]);
  }

  lemma {:induction false} QuietReflected(cfg: ValidConfig, s: State, actor: PlayerId)
    requires Inv(cfg, s)
    ensures DoDecline(cfg, s, actor).Ok? ==>
              var r := DoDecline(cfg, s, actor).value; AllReflected(r.next, r.facts)
    ensures DoEndTurn(cfg, s, actor).Ok? ==>
              var r := DoEndTurn(cfg, s, actor).value; AllReflected(r.next, r.facts)
  {
    hide Inv, Closing, NextTurn;
    if DoDecline(cfg, s, actor).Ok? {
      var space := s.spaces[s.players[IndexOf(s.players, actor)].position];
      ClosingReflected(cfg, s.(turn := AfterDecision(s.turn)), [BuyDeclined(actor, space.def.id)]);
    }
    if DoEndTurn(cfg, s, actor).Ok? {
      var x := AdvanceFrom(s, s.turn.seat);
      ClosingReflected(cfg, x, [Advanced(x)]);
    }
  }

  lemma {:induction false} LeaverGone(cfg: ValidConfig, s: State, i: nat)
    requires Inv(cfg, s) && s.phase == Playing && i < |s.players|
    ensures forall t: State :: t.players == Out(s, i).players ==> IsOut(t, s.players[i].id)
    ensures forall t: State, f ::
              t.players == Out(s, i).players && t.spaces == Out(s, i).spaces && f in GoneFacts(s, i) ==> Reflected(t, f)
  {
    SpacesUnique(cfg, s);
    assert Seated(s.players) && DeedsOk(s);
    assert PlayerOk(cfg, s, s.players[i]);
    GoneReflected(s, ActiveSeats(s.players), i, VoluntaryLeave, NoPlayer, 0);
    OutAfter(s, i);
    assert !IsActive(s.players[i]) ==> s.players == Eliminate(s, i).players;
    hide Inv, Core, OwnedIds, Seated, Release;
  }

  lemma {:induction false} LeaveReflected(cfg: ValidConfig, s: State, i: nat)
    requires Inv(cfg, s) && s.phase == Playing && i < |s.players|
    ensures var r := LeaveMatch(s, i); AllReflected(r.next, r.facts)
  {
    LeaverGone(cfg, s, i);
    hide Inv, Core, NextTurn, OwnedIds, Seated, Release, Actives, Out, GoneFacts, IsOut, FindSpace;
    var out, gone := Out(s, i), GoneFacts(s, i);
    var r := LeaveMatch(s, i);
    forall f | f in r.facts ensures Reflected(r.next, f) {
      if f in gone { assert Reflected(r.next, f); }
    }
  }

  /** In a running match, whatever an accepted action says is how its outcome is, amounts apart. */
  lemma {:induction false} TransitionReflected(cfg: ValidConfig, s: State, i: Input)
    requires Inv(cfg, s) && s.phase == Playing && Accepted(cfg, s, i)
    ensures var t := Apply(cfg, s, i.actor, i.action, i.dice).value; AllReflected(t.next, t.facts)
  {
    hide Core, PlayingOk, RollOf, DoBuy, LeaveMatch, DoDecline, DoEndTurn, Reflected, AllReflected, Landable;
    var at := IndexOf(s.players, i.actor);
    match i.action {
      case Roll =>
        HolderLands(cfg, s, i.actor);
        RollReflected(cfg, s, at, i.dice);
      case Buy => BuyReflected(cfg, s, i.actor);
      case Leave => LeaveReflected(cfg, s, at);
      case _ => QuietReflected(cfg, s, i.actor);
    }
    var r := Handle(cfg, s, i.actor, i.action, i.dice).value;
    TickReflected(r.next, r.facts, s.tick + 1);
  }

  lemma {:induction false} TickReflected(t: State, facts: seq<Fact>, tick: nat)
    requires AllReflected(t, facts)
    ensures AllReflected(t.(tick := tick), facts)
  {
    forall f | f in facts ensures Reflected(t.(tick := tick), f) {
      assert Reflected(t, f);
    }
  }

  /** Reflected events name spaces of the board. */
  lemma {:induction false} ReflectedPlaced(t: State, w: State, facts: seq<Fact>)
    requires AllReflected(t, facts) && SameDefs(t.spaces, w.spaces)
    ensures forall f :: f in facts ==> Placed(w.spaces, f)
  {
    hide SameDefs, FindSpace;
    forall f | f in facts ensures Placed(w.spaces, f) {
      assert Reflected(t, f);
      StaysPlaced(t.spaces, w.spaces, f);
    }
  }

  // ---- what later play leaves standing -------------------------------------------------

  /** Everyone keeps their seat, nobody comes back, the board stays as configured, and what is over stays over. */
  ghost predicate Kept(t: State, w: State) {
    && SameSeats(t.players, w.players) && SameDefs(t.spaces, w.spaces)
    && (forall i :: 0 <= i < |t.players| && t.players[i].status == Eliminated ==> w.players[i].status == Eliminated)
    && (t.phase == Ended ==> w == t)
  }

  lemma KeptChain(a: State, b: State, c: State)
    requires Kept(a, b) && Kept(b, c)
    ensures Kept(a, c)
  {
  }

  lemma EvaluateKeeps(cfg: ValidConfig, s: State)
    ensures var t := Evaluate(cfg, s).next;
            t.players == s.players && t.spaces == s.spaces && t.turn == s.turn && (t.phase == s.phase || t.phase == Ended)
  {
  }

  lemma {:induction false} LandingKept(s: State, i: nat, to: int)
    requires i < |s.players| && s.phase == Playing && ResolveLanding(s, i, to).Ok?
    ensures Kept(s, ResolveLanding(s, i, to).value.next)
  {
    forall creditor, owed, cause ensures Kept(s, Bankrupt(s, i, creditor, owed, cause).next) {
      BankruptKept(s, i, creditor, owed, cause);
    }
    hide Bankrupt;
  }

  lemma {:induction false} BankruptKept(s: State, i: nat, creditor: PlayerId, owed: int, cause: Cause)
    requires i < |s.players| && s.phase == Playing
    ensures Kept(s, Bankrupt(s, i, creditor, owed, cause).next)
  {
    hide NextTurn, OwnedIds, ActiveSeats;
  }

  lemma {:induction false} RollKept(cfg: ValidConfig, s: State, i: nat, dice: Dice)
    requires i < |s.players| && s.phase == Playing && RollOf(cfg, s, i, dice).Ok?
    ensures Kept(s, RollOf(cfg, s, i, dice).value.next)
  {
    hide ResolveLanding, Evaluate, Walk, MoveFacts, GoBonus;
    var moved := Moved(cfg, s, i, dice.d1 + dice.d2);
    assert Kept(s, moved);
    LandingKept(moved, i, moved.players[i].position);
    var l := ResolveLanding(moved, i, moved.players[i].position).value;
    KeptChain(s, moved, l.next);
    EvaluateKeeps(cfg, Settled(cfg, l, Streak(cfg, s.turn.streak, dice)));
  }

  lemma {:induction false} LeaveKept(s: State, i: nat)
    requires i < |s.players| && s.phase == Playing
    ensures Kept(s, LeaveMatch(s, i).next)
  {
    hide NextTurn, OwnedIds, Actives;
  }

  lemma {:induction false} StepKept(cfg: ValidConfig, s: State, i: Input)
    requires Inv(cfg, s) && s.phase == Playing
    ensures Kept(s, Step(cfg, s, i).next)
  {
    hide RollOf, LeaveMatch, Evaluate, NextTurn, Inv;
    if Accepted(cfg, s, i) {
      forall x ensures Evaluate(cfg, x).next.players == x.players && Evaluate(cfg, x).next.spaces == x.spaces {
        EvaluateKeeps(cfg, x);
      }
      var a := IndexOf(s.players, i.actor);
      match i.action {
        case Roll => RollKept(cfg, s, a, i.dice);
        case Leave => LeaveKept(s, a);
        case _ =>
      }
    }
  }

  lemma {:induction false} RunKept(cfg: ValidConfig, s: State, inputs: seq<Input>)
    requires Inv(cfg, s) && (s.phase == Playing || s.phase == Ended)
    ensures var w := After(cfg, s, inputs);
            Kept(s, w) && Inv(cfg, w) && (w.phase == Playing || w.phase == Ended) && s.tick <= w.tick
  {
    hide Inv, Step, Kept;
    if inputs == [] {
      KeptSelf(s);
    } else {
      var front, last := inputs[..|inputs| - 1], inputs[|inputs| - 1];
      RunKept(cfg, s, front);
      var t := After(cfg, s, front);
      StepInv(cfg, t, last);
      if t.phase == Ended {
        EndedIsFinal(cfg, t, last);
      } else {
        StepKept(cfg, t, last);
        KeptChain(s, t, Step(cfg, t, last).next);
        StaysStarted(cfg, t, [last]);
        OneInput(cfg, t, last);
        StepTicks(cfg, t, last);
      }
    }
  }

  lemma {:induction false} StepTicks(cfg: ValidConfig, s: State, i: Input)
    ensures Step(cfg, s, i).next.tick == s.tick + if Accepted(cfg, s, i) then 1 else 0
  {
    if Accepted(cfg, s, i) { AcceptedExplains(cfg, s, i.actor, i.action, i.dice); }
    hide Apply;
  }

  lemma {:induction false} OneInput(cfg: ValidConfig, s: State, i: Input)
    ensures After(cfg, s, [i]) == Step(cfg, s, i).next
  {
    hide Step;
    assert [i][..0] == [];
    assert After(cfg, s, []) == s;
  }

  lemma KeptSelf(s: State)
    ensures Kept(s, s)
  {
  }

  ghost predicate TurnHeld(t: State, w: State) { w.turn.seat == t.turn.seat && w.turn.round == t.turn.round }

  /** What the event did to t is still so in w. */
  ghost predicate Unmoved(f: Fact, t: State, w: State) {
    match f
    case DiceRolled(id, _, _, _, _, _) =>
      forall i :: 0 <= i < |t.players| && i < |w.players| && t.players[i].id == id ==>
        w.players[i].position == t.players[i].position
    case PropertyBought(id, space, _) =>
      var k := FindSpace(w.spaces, space); 0 <= k && w.spaces[k].owned && w.spaces[k].owner == id
    case PlayerBankrupt(id, _, _, _, released) =>
      forall k :: 0 <= k < |w.spaces| && Reverts(OmitEmpty(released), id, w.spaces[k]) ==>
        !w.spaces[k].owned && w.spaces[k].owner == NoPlayer
    case TurnAdvanced(_, _) => TurnHeld(t, w)
    case _ => true
  }

  lemma {:induction false} LaterReflected(t: State, w: State, f: Fact)
    requires Kept(t, w) && Reflected(t, f)
    ensures Reflected(w, f) <==> Unmoved(f, t, w)
  {
    hide FindSpace, SameDefs;
    match f
    case DiceRolled(_, _, _, _, to, _) => SameDefsFind(t.spaces, w.spaces, to);
    case _ =>
  }

  lemma {:induction false} AllLaterReflected(t: State, w: State, facts: seq<Fact>)
    requires Kept(t, w) && AllReflected(t, facts)
    ensures AllReflected(w, facts) <==> forall f :: f in facts ==> Unmoved(f, t, w)
  {
    hide Kept, Reflected, Unmoved;
    forall f | f in facts ensures Reflected(w, f) <==> Unmoved(f, t, w) { LaterReflected(t, w, f); }
  }

  /** What `id` owned on this board is nobody's on that one. */
  ghost predicate StillFree(spaces: seq<Space>, later: seq<Space>, id: PlayerId) {
    forall k :: 0 <= k < |spaces| && k < |later| && OwnedBy(spaces[k], id) ==> !later[k].owned
  }

  /** The named spaces are still free exactly if none that was given up has been bought since. */
  lemma {:induction false} FreedUnbought(spaces: seq<Space>, active: set<nat>, w: State, id: PlayerId)
    requires UniqueSpaces(spaces) && SameDefs(spaces, w.spaces)
    requires forall k :: 0 <= k < |w.spaces| ==> DeedOk(active, w.spaces[k])
    requires id.Pl? && id.seat !in active
    ensures (forall k :: 0 <= k < |w.spaces| && Reverts(OmitEmpty(OwnedIds(spaces, id)), id, w.spaces[k]) ==>
              !w.spaces[k].owned && w.spaces[k].owner == NoPlayer)
            <==> StillFree(spaces, w.spaces, id)
  {
    forall k | 0 <= k < |w.spaces|
      ensures !w.spaces[k].owned ==> w.spaces[k].owner == NoPlayer
      ensures w.spaces[k].owner != id
      ensures w.spaces[k].def.id in OwnedIds(spaces, id) <==> OwnedBy(spaces[k], id)
    {
      assert DeedOk(active, w.spaces[k]);
      NamedIfOwned(spaces, k, id);
    }
    hide OwnedIds, UniqueSpaces, DeedOk;
    if OwnedIds(spaces, id) == [] {
      forall k | 0 <= k < |spaces| ensures !OwnedBy(spaces[k], id) { assert spaces[k].def.id !in OwnedIds(spaces, id); }
    }
  }

  lemma {:induction false} NamedIfOwned(spaces: seq<Space>, k: nat, id: PlayerId)
    requires UniqueSpaces(spaces) && k < |spaces|
    ensures spaces[k].def.id in OwnedIds(spaces, id) <==> OwnedBy(spaces[k], id)
  {
    OwnedIdsAre(spaces, id, spaces[k].def.id);
    if j :| 0 <= j < |spaces| && OwnedBy(spaces[j], id) && spaces[j].def.id == spaces[k].def.id {
      assert j == k;
    }
  }

  // ---- what each action says ---------------------------------------------------------

  /** At most the end of the match. */
  predicate EndsOnly(facts: seq<Fact>) { |facts| <= 1 && forall f :: f in facts ==> f.GameEnded? }

  lemma EvaluateSays(cfg: ValidConfig, s: State)
    ensures EndsOnly(Evaluate(cfg, s).facts) && EndsOnly(EndIfShort(s).facts)
  {
  }

  /** One event, and perhaps the end of the match. */
  ghost predicate SaysOne(facts: seq<Fact>, f: Fact) {
    facts != [] && facts[0] == f && EndsOnly(facts[1..])
  }

  lemma {:induction false} DecisionSays(cfg: ValidConfig, s: State, i: Input)
    requires Inv(cfg, s) && s.phase == Playing && Accepted(cfg, s, i)
    ensures var t := Apply(cfg, s, i.actor, i.action, i.dice).value;
            && (i.action == EndTurn ==> SaysOne(t.facts, TurnAdvanced(t.next.turn.seat, t.next.turn.round)))
            && (i.action == Buy || i.action == Decline ==>
                  var a := IndexOf(s.players, i.actor);
                  && a < |s.players| && 0 <= s.players[a].position < |s.spaces|
                  && var def := s.spaces[s.players[a].position].def;
                     SaysOne(t.facts, if i.action == Buy then PropertyBought(i.actor, def.id, def.price)
                                      else BuyDeclined(i.actor, def.id)))
  {
    hide Inv, RollOf, LeaveMatch, Evaluate, NextTurn;
    forall x ensures EndsOnly(Evaluate(cfg, x).facts) && Evaluate(cfg, x).next.turn == x.turn {
      EvaluateSays(cfg, x);
      EvaluateKeeps(cfg, x);
    }
  }

  lemma {:induction false} OneApart(facts: seq<Fact>, f: Fact)
    requires SaysOne(facts, f) && !f.GameEnded? && !f.PlayerJoined? && !f.GameStarted?
    ensures NoneUndone(facts)
  {
    forall j | 0 < j < |facts| ensures facts[j].GameEnded? { assert facts[j] == facts[1..][j - 1]; }
  }

  lemma ApartConcat(x: seq<Fact>, y: seq<Fact>)
    requires NoneUndone(x) && NoneUndone(y)
    requires forall f, g :: f in x && g in y ==> !Undoes(g, f)
    ensures NoneUndone(x + y)
  {
  }

  /** A departure says who left, what that did to them, and then how the match or the turn goes on. */
  lemma {:induction false} LeaveSays(s: State, i: nat)
    requires i < |s.players| && s.phase == Playing
    ensures var r, p := LeaveMatch(s, i), s.players[i];
            && NoneUndone(r.facts)
            && forall f :: f in r.facts <==>
                 || f == PlayerLeft(p.id) || f in GoneFacts(s, i) || f in EndIfShort(Out(s, i)).facts
                 || (r.next.phase == Playing && p.seat == s.turn.seat && f == TurnAdvanced(r.next.turn.seat, r.next.turn.round))
  {
    var end := EndIfShort(Out(s, i));
    EndIfShortKeeps(Out(s, i));
    hide NextTurn, OwnedIds, EndIfShort, Release;
  }

  lemma EndIfShortKeeps(s: State)
    ensures var e := EndIfShort(s);
            && EndsOnly(e.facts) && e.next.players == s.players && e.next.spaces == s.spaces && e.next.turn == s.turn
            && (e.next.phase == Playing ==> e.facts == []) && (e.next.phase == s.phase || e.next.phase == Ended)
  {
  }

  /** What a landing can say: money paid, or an elimination with the turn passed on, or nothing. */
  lemma {:induction false} LandingSays(s: State, i: nat, to: int)
    requires i < |s.players| && ResolveLanding(s, i, to).Ok?
    ensures var l := ResolveLanding(s, i, to).value;
            if !l.bankrupt then |l.facts| <= 1 && forall f :: f in l.facts ==> f.RentPaid? || f.BankTransfer?
            else
              && NoneUndone(l.facts)
              && (forall f :: f in l.facts ==>
                    || (f.PlayerBankrupt? && f.id == s.players[i].id && f.released == OwnedIds(s.spaces, s.players[i].id))
                    || f.PlayerEliminated? || f == TurnAdvanced(l.next.turn.seat, l.next.turn.round))
              && (exists f :: f in l.facts && f.PlayerBankrupt?)
              && (ActiveSeats(l.next.players) != {} ==> TurnAdvanced(l.next.turn.seat, l.next.turn.round) in l.facts)
  {
    hide NextTurn, OwnedIds, Pay;
    var l := ResolveLanding(s, i, to).value;
    if l.bankrupt { assert l.facts[0] in l.facts && l.facts[0].PlayerBankrupt?; }
  }

  lemma {:induction false} RollApart(cfg: ValidConfig, s: State, i: nat, dice: Dice)
    requires i < |s.players| && RollOf(cfg, s, i, dice).Ok?
    ensures NoneUndone(RollOf(cfg, s, i, dice).value.facts)
  {
    hide ResolveLanding, Evaluate, Walk, GoBonus, Settled, OwnedIds, Streak;
    var moved := Moved(cfg, s, i, dice.d1 + dice.d2);
    var l := ResolveLanding(moved, i, moved.players[i].position).value;
    LandingSays(moved, i, moved.players[i].position);
    var x := Settled(cfg, l, Streak(cfg, s.turn.streak, dice));
    EvaluateSays(cfg, x);
    MovesApart(cfg, s, i, dice);
    hide MoveFacts, Moved, NoneUndone, EndsOnly;
    ThreeApart(MoveFacts(cfg, s, i, dice), l, Evaluate(cfg, x).facts);
  }

  lemma {:induction false} MovesApart(cfg: ValidConfig, s: State, i: nat, dice: Dice)
    requires i < |s.players|
    ensures var moves := MoveFacts(cfg, s, i, dice);
            NoneUndone(moves) && forall f :: f in moves ==> f.DiceRolled? || f.BankTransfer?
  {
    hide Walk, GoBonus;
  }

  lemma {:induction false} ThreeApart(moves: seq<Fact>, l: Landing, end: seq<Fact>)
    requires NoneUndone(moves) && (forall f :: f in moves ==> f.DiceRolled? || f.BankTransfer?) && EndsOnly(end)
    requires if !l.bankrupt then |l.facts| <= 1 && forall f :: f in l.facts ==> f.RentPaid? || f.BankTransfer?
             else NoneUndone(l.facts) && forall f :: f in l.facts ==> f.PlayerBankrupt? || f.PlayerEliminated? || f.TurnAdvanced?
    ensures NoneUndone(moves + l.facts + end)
  {
    ApartConcat(moves, l.facts);
    ApartConcat(moves + l.facts, end);
  }

  /** No event of a transition overwrites another. */
  lemma {:induction false} TransitionApart(cfg: ValidConfig, s: State, i: Input)
    requires Inv(cfg, s) && s.phase == Playing && Accepted(cfg, s, i)
    ensures NoneUndone(Apply(cfg, s, i.actor, i.action, i.dice).value.facts)
  {
    hide Inv, RollOf, LeaveMatch, Evaluate, NextTurn, NoneUndone, DoBuy, DoDecline, DoEndTurn;
    var a, t := IndexOf(s.players, i.actor), Apply(cfg, s, i.actor, i.action, i.dice).value;
    DecisionSays(cfg, s, i);
    match i.action {
      case Roll => RollApart(cfg, s, a, i.dice);
      case Leave => LeaveSays(s, a);
      case EndTurn => OneApart(t.facts, t.facts[0]);
      case Buy => OneApart(t.facts, t.facts[0]);
      case Decline => OneApart(t.facts, t.facts[0]);
      case _ =>
    }
  }
}
