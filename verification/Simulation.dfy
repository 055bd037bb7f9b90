/** The client's view follows the server through every transition of a running match. */
module Simulation {
  import opened Config
  import opened Domain
  import opened Seats
  import opened Rules
  import opened Invariant
  import opened Client

  /** Same phase, roster, board, outcome, seat to move and round; the turn's inner stage is not followed. */
  predicate Agrees(v: State, s: State) {
    && v.phase == s.phase && v.players == s.players && v.spaces == s.spaces
    && v.winner == s.winner && v.endReason == s.endReason
    && v.turn.seat == s.turn.seat && v.turn.round == s.turn.round
  }

  predicate Covers(ps: seq<Player>, id: PlayerId, delta: int) {
    forall i :: 0 <= i < |ps| && ps[i].id == id ==> 0 <= ps[i].money + delta
  }

  /** No balance is clamped, no fallback is taken and every named space is found. */
  predicate Exact(v: State, f: Fact) {
    match f
    case PropertyBought(id, space, price) => Covers(v.players, id, -price) && FindSpace(v.spaces, space) >= 0
    case RentPaid(payer, payee, _, amount) =>
      Covers(v.players, payer, -amount) && Covers(Adjust(v.players, payer, -amount), payee, amount)
    case BankTransfer(id, amount, direction, _) => Covers(v.players, id, if direction == ToPlayer then amount else -amount)
    case DiceRolled(_, _, _, _, to, _) => FindSpace(v.spaces, to) >= 0
    case PlayerBankrupt(id, _, _, _, released) =>
      released == [] ==> forall k :: 0 <= k < |v.spaces| ==> v.spaces[k].owner != id
    case PlayerJoined(_, _, _, _) => false
    case _ => true
  }

  predicate AllExact(v: State, facts: seq<Fact>) {
    facts != [] ==>
      var front := facts[..|facts| - 1];
      AllExact(v, front) && Exact(ReduceAll(v, front), facts[|facts| - 1])
  }

  /** Reducing these events takes a view to one that agrees with `t`, exactly. */
  predicate Follows(v: State, facts: seq<Fact>, t: State) {
    AllExact(v, facts) && Agrees(ReduceAll(v, facts), t)
  }

  lemma {:induction false} ReduceConcat(v: State, a: seq<Fact>, b: seq<Fact>)
    ensures ReduceAll(v, a + b) == ReduceAll(ReduceAll(v, a), b)
    ensures AllExact(v, a) && AllExact(ReduceAll(v, a), b) ==> AllExact(v, a + b)
  {
    if b == [] {
      assert a + b == a;
    } else {
      assert (a + b)[..|a + b| - 1] == a + b[..|b| - 1];
      ReduceConcat(v, a, b[..|b| - 1]);
    }
  }

  lemma {:induction false} Chain(v: State, a: seq<Fact>, s: State, b: seq<Fact>, t: State)
    requires Follows(v, a, s) && Follows(ReduceAll(v, a), b, t)
    ensures Follows(v, a + b, t)
  {
    ReduceConcat(v, a, b);
  }

  lemma {:induction false} One(v: State, f: Fact, t: State)
    requires Exact(v, f) && Agrees(Reduce(v, f), t)
    ensures Follows(v, [f], t)
  {
    assert [f][..0] == [];
    assert ReduceAll(v, [f][..0]) == v;
  }

  lemma Nothing(v: State, t: State)
    requires Agrees(v, t)
    ensures Follows(v, [], t)
  {
  }

  // ---- single events ---------------------------------------------------------

  lemma {:induction false} AdjustOne(ps: seq<Player>, i: nat, delta: int)
    requires Seated(ps) && i < |ps| && 0 <= ps[i].money + delta
    ensures Adjust(ps, ps[i].id, delta) == ps[i := ps[i].(money := ps[i].money + delta)]
    ensures Covers(ps, ps[i].id, delta)
  {
    forall k | 0 <= k < |ps| ensures ps[k].id == ps[i].id <==> k == i {
      if k != i { assert ps[k].seat != ps[i].seat; }
    }
  }

  lemma {:induction false} MarkOutOne(ps: seq<Player>, i: nat)
    requires Seated(ps) && i < |ps|
    ensures MarkOut(ps, ps[i].id) == ps[i := ps[i].(status := Eliminated)]
  {
    forall k | 0 <= k < |ps| ensures ps[k].id == ps[i].id <==> k == i {
      if k != i { assert ps[k].seat != ps[i].seat; }
    }
  }

  ghost predicate UniqueSpaces(spaces: seq<Space>) {
    forall j, k :: 0 <= j < k < |spaces| ==> spaces[j].def.id != spaces[k].def.id
  }

  lemma {:induction false} SpacesUnique(cfg: ValidConfig, s: State)
    requires Core(cfg, s)
    ensures UniqueSpaces(s.spaces)
  {
    forall j, k | 0 <= j < k < |s.spaces| ensures s.spaces[j].def.id != s.spaces[k].def.id {
      assert s.spaces[j].def == cfg.board[j] && s.spaces[k].def == cfg.board[k];
      assert UniqueIds(cfg.board);
    }
  }

  lemma {:induction false} FindUnique(spaces: seq<Space>, k: nat)
    requires UniqueSpaces(spaces) && k < |spaces|
    ensures FindSpace(spaces, spaces[k].def.id) == k
  {
    var j := FindSpace(spaces, spaces[k].def.id);
    assert j == k;
  }

  lemma {:induction false} OwnedIdsAre(spaces: seq<Space>, id: PlayerId, name: string)
    ensures name in OwnedIds(spaces, id) <==> exists k :: 0 <= k < |spaces| && OwnedBy(spaces[k], id) && spaces[k].def.id == name
  {
    if spaces == [] {
    } else {
      var front, last := spaces[..|spaces| - 1], spaces[|spaces| - 1];
      OwnedIdsAre(front, id, name);
      if k :| 0 <= k < |spaces| && OwnedBy(spaces[k], id) && spaces[k].def.id == name {
        if k < |front| { assert OwnedBy(front[k], id) && front[k].def.id == name; }
      }
      if k :| 0 <= k < |front| && OwnedBy(front[k], id) && front[k].def.id == name {
        assert OwnedBy(spaces[k], id) && spaces[k].def.id == name;
      }
    }
  }

  /** The released list names exactly the leaver's spaces, so both ways of reverting them agree. */
  lemma {:induction false} RevertIsRelease(active: set<nat>, spaces: seq<Space>, id: PlayerId)
    requires UniqueSpaces(spaces) && id != NoPlayer
    requires forall k :: 0 <= k < |spaces| ==> DeedOk(active, spaces[k])
    ensures Revert(spaces, id, OmitEmpty(OwnedIds(spaces, id))) == Release(spaces, id)
    ensures OwnedIds(spaces, id) == [] ==> forall k :: 0 <= k < |spaces| ==> spaces[k].owner != id
  {
    var released := OwnedIds(spaces, id);
    forall k | 0 <= k < |spaces|
      ensures Reverts(OmitEmpty(released), id, spaces[k]) <==> OwnedBy(spaces[k], id)
      ensures released == [] ==> spaces[k].owner != id
    {
      assert DeedOk(active, spaces[k]);
      OwnedIdsAre(spaces, id, spaces[k].def.id);
    }
    forall k | 0 <= k < |spaces|
      ensures Revert(spaces, id, OmitEmpty(released))[k] == Release(spaces, id)[k]
    {
      assert DeedOk(active, spaces[k]);
    }
  }

  // ---- the pieces of a transition --------------------------------------------

  lemma {:induction false} PayFollows(v: State, s: State, i: nat, amount: int, direction: Direction, why: BankReason)
    requires Agrees(v, s) && Seated(s.players) && i < |s.players|
    requires var delta := if direction == ToPlayer then amount else -amount; 0 <= s.players[i].money + delta
    ensures var delta := if direction == ToPlayer then amount else -amount;
            Follows(v, [BankTransfer(s.players[i].id, amount, direction, why)], Pay(s, i, -delta))
  {
    var delta := if direction == ToPlayer then amount else -amount;
    AdjustOne(s.players, i, delta);
    One(v, BankTransfer(s.players[i].id, amount, direction, why), Pay(s, i, -delta));
  }

  lemma {:induction false} RentFollows(v: State, s: State, i: nat, o: nat, rent: int, space: string)
    requires Agrees(v, s) && Seated(s.players) && i < |s.players| && o < |s.players| && i != o
    requires 0 <= rent <= s.players[i].money && 0 <= s.players[o].money
    ensures Follows(v, [RentPaid(s.players[i].id, s.players[o].id, space, rent)], Pay(Pay(s, i, rent), o, -rent))
  {
    AdjustOne(s.players, i, -rent);
    var paid := Pay(s, i, rent);
    Tweak(s.players, i, paid.players[i]);
    AdjustOne(paid.players, o, rent);
    One(v, RentPaid(s.players[i].id, s.players[o].id, space, rent), Pay(paid, o, -rent));
  }

  lemma {:induction false} GoneFollows(v: State, s: State, active: set<nat>, i: nat, cause: Cause, creditor: PlayerId, owed: int)
    requires Agrees(v, s) && Seated(s.players) && UniqueSpaces(s.spaces) && i < |s.players|
    requires forall k :: 0 <= k < |s.spaces| ==> DeedOk(active, s.spaces[k])
    ensures var id := s.players[i].id;
            Follows(v, [PlayerBankrupt(id, cause, creditor, owed, OwnedIds(s.spaces, id)), PlayerEliminated(id, cause)],
                    Eliminate(s, i))
  {
    var id := s.players[i].id;
    var f := PlayerBankrupt(id, cause, creditor, owed, OwnedIds(s.spaces, id));
    MarkOutOne(s.players, i);
    RevertIsRelease(active, s.spaces, id);
    var out := Eliminate(s, i);
    One(v, f, out);
    Outed(s.players, i);
    One(Reduce(v, f), PlayerEliminated(id, cause), out);
    assert ReduceAll(v, [f]) == Reduce(v, f) by { assert [f][..0] == []; }
    Chain(v, [f], out, [PlayerEliminated(id, cause)], out);
  }

  lemma {:induction false} Outed(ps: seq<Player>, i: nat)
    requires Seated(ps) && i < |ps|
    ensures var qs := ps[i := ps[i].(status := Eliminated)]; MarkOut(qs, ps[i].id) == qs
  {
    var qs := ps[i := ps[i].(status := Eliminated)];
    assert Seated(qs);
    MarkOutOne(qs, i);
  }

  lemma {:induction false} AdvanceFollows(v: State, s: State, from: nat)
    requires Agrees(v, s)
    ensures Follows(v, [Advanced(AdvanceFrom(s, from))], AdvanceFrom(s, from))
  {
    One(v, Advanced(AdvanceFrom(s, from)), AdvanceFrom(s, from));
  }

  lemma {:induction false} EndFollows(cfg: ValidConfig, v: State, s: State)
    requires Agrees(v, s)
    ensures Follows(v, Evaluate(cfg, s).facts, Evaluate(cfg, s).next)
    ensures Follows(v, EndIfShort(s).facts, EndIfShort(s).next)
  {
    var e := Evaluate(cfg, s);
    if e.facts == [] { Nothing(v, s); } else { One(v, e.facts[0], e.next); }
    var d := EndIfShort(s);
    if d.facts == [] { Nothing(v, s); } else { One(v, d.facts[0], d.next); }
  }

  lemma {:induction false} ClosingFollows(cfg: ValidConfig, v: State, facts: seq<Fact>, s: State)
    requires Follows(v, facts, s)
    ensures Follows(v, Closing(cfg, s, facts).facts, Closing(cfg, s, facts).next)
  {
    hide Evaluate, Follows;
    FollowsAgrees(v, facts, s);
    EndFollows(cfg, ReduceAll(v, facts), s);
    Chain(v, facts, s, Evaluate(cfg, s).facts, Evaluate(cfg, s).next);
  }

  lemma {:induction false} FollowsAgrees(v: State, facts: seq<Fact>, s: State)
    requires Follows(v, facts, s)
    ensures Agrees(ReduceAll(v, facts), s)
  {
  }

  lemma {:induction false} BankruptFollows(cfg: ValidConfig, v: State, s: State, i: nat, creditor: PlayerId, owed: int, cause: Cause)
    requires Agrees(v, s) && Core(cfg, s) && i < |s.players|
    ensures Follows(v, Bankrupt(s, i, creditor, owed, cause).facts, Bankrupt(s, i, creditor, owed, cause).next)
  {
    SpacesUnique(cfg, s);
    assert Seated(s.players) && DeedsOk(s);
    hide Core, Follows, Agrees, Eliminate, AdvanceFrom;
    var id := s.players[i].id;
    var gone := [PlayerBankrupt(id, cause, creditor, owed, OwnedIds(s.spaces, id)), PlayerEliminated(id, cause)];
    GoneFollows(v, s, ActiveSeats(s.players), i, cause, creditor, owed);
    var out := Eliminate(s, i);
    FollowsAgrees(v, gone, out);
    AdvanceFollows(ReduceAll(v, gone), out, s.players[i].seat);
    Chain(v, gone, out, [Advanced(AdvanceFrom(out, s.players[i].seat))], AdvanceFrom(out, s.players[i].seat));
  }

  lemma {:induction false} LandingFollows(cfg: ValidConfig, v: State, s: State, i: nat, to: nat)
    requires Agrees(v, s) && Core(cfg, s) && i < |s.players| && to < |s.spaces| && SpaceOk(s.spaces[to].def)
    requires ResolveLanding(s, i, to).Ok?
    ensures Follows(v, ResolveLanding(s, i, to).value.facts, ResolveLanding(s, i, to).value.next)
  {
    var def := s.spaces[to].def;
    var o := IndexOf(s.players, s.spaces[to].owner);
    var p := s.players[i];
    assert Seated(s.players);
    assert forall k :: 0 <= k < |s.players| ==> PlayerOk(cfg, s, s.players[k]);
    hide Core, Follows, Bankrupt, Pay;
    Nothing(v, s);
    if def.kind == Tax {
      if p.money < def.amount {
        BankruptFollows(cfg, v, s, i, NoPlayer, def.amount, BankruptcyTax);
      } else {
        PayFollows(v, s, i, def.amount, ToBank, TaxDue);
      }
    } else if def.kind == Property && s.spaces[to].owned && s.spaces[to].owner != p.id && o < |s.players| {
      if p.money < def.rent {
        BankruptFollows(cfg, v, s, i, s.spaces[to].owner, def.rent, BankruptcyRent);
      } else {
        RentFollows(v, s, i, o, def.rent, def.id);
      }
    }
  }

  lemma {:induction false} MoveOne(ps: seq<Player>, i: nat, pos: int)
    requires Seated(ps) && i < |ps|
    ensures Move(ps, ps[i].id, pos) == ps[i := ps[i].(position := pos)]
  {
    forall k | 0 <= k < |ps| ensures ps[k].id == ps[i].id <==> k == i {
      if k != i { assert ps[k].seat != ps[i].seat; }
    }
  }

  lemma {:induction false} DiceFollow(cfg: ValidConfig, v: State, s: State, i: nat, dice: Dice)
    requires Agrees(v, s) && Core(cfg, s) && i < |s.players| && s.spaces != []
    ensures var to := Walk(s.players[i].position, dice.d1 + dice.d2, |s.spaces|).0;
            Follows(v, MoveFacts(cfg, s, i, dice)[..1], s.(players := s.players[i := s.players[i].(position := to)]))
  {
    var p := s.players[i];
    assert PlayerOk(cfg, s, p);
    WalkInBounds(p.position, dice.d1 + dice.d2, |s.spaces|);
    var to := Walk(p.position, dice.d1 + dice.d2, |s.spaces|).0;
    SpacesUnique(cfg, s);
    FindUnique(s.spaces, to);
    MoveOne(s.players, i, to);
    var f := MoveFacts(cfg, s, i, dice)[0];
    assert MoveFacts(cfg, s, i, dice)[..1] == [f];
    One(v, f, s.(players := s.players[i := p.(position := to)]));
  }

  lemma {:induction false} MoveFollows(cfg: ValidConfig, v: State, s: State, i: nat, dice: Dice)
    requires Agrees(v, s) && Core(cfg, s) && i < |s.players| && s.spaces != []
    ensures Follows(v, MoveFacts(cfg, s, i, dice), Moved(cfg, s, i, dice.d1 + dice.d2))
  {
    hide Core, Walk, Follows, Agrees;
    DiceFollow(cfg, v, s, i, dice);
    var w := Walk(s.players[i].position, dice.d1 + dice.d2, |s.spaces|);
    var facts := MoveFacts(cfg, s, i, dice);
    var placed := s.(players := s.players[i := s.players[i].(position := w.0)]);
    FollowsAgrees(v, facts[..1], placed);
    if w.1 == 0 {
      assert facts[..1] == facts;
      assert placed == Moved(cfg, s, i, dice.d1 + dice.d2);
    } else {
      GoBonusNonNegative(cfg, w.1);
      StillSeated(cfg, s, i, w.0);
      var f := facts[1];
      PayFollows(ReduceAll(v, facts[..1]), placed, i, GoBonus(cfg, w.1), ToPlayer, f.why);
      assert facts == facts[..1] + [f];
      assert Pay(placed, i, -GoBonus(cfg, w.1)) == Moved(cfg, s, i, dice.d1 + dice.d2);
      Chain(v, facts[..1], placed, [f], Moved(cfg, s, i, dice.d1 + dice.d2));
    }
  }

  lemma {:induction false} StillSeated(cfg: ValidConfig, s: State, i: nat, pos: int)
    requires Core(cfg, s) && i < |s.players|
    ensures Seated(s.players[i := s.players[i].(position := pos)]) && 0 <= s.players[i].money
  {
    assert PlayerOk(cfg, s, s.players[i]);
  }

  lemma {:induction false} RollFollows(cfg: ValidConfig, v: State, s: State, i: nat, dice: Dice)
    requires Agrees(v, s) && Core(cfg, s) && i < |s.players| && s.spaces != [] && RollOf(cfg, s, i, dice).Ok?
    ensures Follows(v, RollOf(cfg, s, i, dice).value.facts, RollOf(cfg, s, i, dice).value.next)
  {
    hide Core, Follows, Agrees, ResolveLanding, Moved, MoveFacts, Settled, Streak, Closing, SpaceOk;
    var total := dice.d1 + dice.d2;
    var moved := Moved(cfg, s, i, total);
    var facts := MoveFacts(cfg, s, i, dice);
    MoveFollows(cfg, v, s, i, dice);
    FollowsAgrees(v, facts, moved);
    MovedCore(cfg, s, i, total);
    MovedTo(cfg, s, i, total);
    var l := ResolveLanding(moved, i, moved.players[i].position).value;
    LandingFollows(cfg, ReduceAll(v, facts), moved, i, moved.players[i].position);
    Chain(v, facts, moved, l.facts, l.next);
    SettledFollows(cfg, v, facts + l.facts, l, Streak(cfg, s.turn.streak, dice));
    ClosingFollows(cfg, v, facts + l.facts, Settled(cfg, l, Streak(cfg, s.turn.streak, dice)));
  }

  lemma {:induction false} MovedTo(cfg: ValidConfig, s: State, i: nat, total: nat)
    requires Core(cfg, s) && i < |s.players| && s.spaces != []
    ensures var m := Moved(cfg, s, i, total);
            |m.players| == |s.players| && 0 <= m.players[i].position < |m.spaces| && SpaceOk(m.spaces[m.players[i].position].def)
  {
    assert PlayerOk(cfg, s, s.players[i]);
    WalkInBounds(s.players[i].position, total, |s.spaces|);
    var to := Walk(s.players[i].position, total, |s.spaces|).0;
    assert s.spaces[to].def == cfg.board[to];
  }

  lemma SettledFollows(cfg: ValidConfig, v: State, facts: seq<Fact>, l: Landing, streak: (int, bool))
    requires Follows(v, facts, l.next)
    ensures Follows(v, facts, Settled(cfg, l, streak))
  {
  }

  lemma {:induction false} BuyFollows(cfg: ValidConfig, v: State, s: State, actor: PlayerId)
    requires Agrees(v, s) && Core(cfg, s) && DoBuy(cfg, s, actor).Ok?
    ensures Follows(v, DoBuy(cfg, s, actor).value.facts, DoBuy(cfg, s, actor).value.next)
  {
    var i := IndexOf(s.players, actor);
    var at := s.players[i].position;
    var space := s.spaces[at];
    SpacesUnique(cfg, s);
    FindUnique(s.spaces, at);
    AdjustOne(s.players, i, -space.def.price);
    var next := Pay(s, i, space.def.price).(spaces := s.spaces[at := space.(owned := true, owner := actor)], turn := AfterDecision(s.turn));
    One(v, PropertyBought(actor, space.def.id, space.def.price), next);
    hide Core, Follows, Closing, Agrees;
    ClosingFollows(cfg, v, [PropertyBought(actor, space.def.id, space.def.price)], next);
  }

  lemma {:induction false} QuietFollows(cfg: ValidConfig, v: State, s: State, actor: PlayerId)
    requires Agrees(v, s)
    ensures DoDecline(cfg, s, actor).Ok? ==>
              Follows(v, DoDecline(cfg, s, actor).value.facts, DoDecline(cfg, s, actor).value.next)
    ensures DoEndTurn(cfg, s, actor).Ok? ==>
              Follows(v, DoEndTurn(cfg, s, actor).value.facts, DoEndTurn(cfg, s, actor).value.next)
  {
    hide Follows, Closing, Evaluate;
    if DoDecline(cfg, s, actor).Ok? {
      var f := BuyDeclined(actor, s.spaces[s.players[IndexOf(s.players, actor)].position].def.id);
      One(v, f, s.(turn := AfterDecision(s.turn)));
      ClosingFollows(cfg, v, [f], s.(turn := AfterDecision(s.turn)));
    }
    if DoEndTurn(cfg, s, actor).Ok? {
      AdvanceFollows(v, s, s.turn.seat);
      ClosingFollows(cfg, v, [Advanced(AdvanceFrom(s, s.turn.seat))], AdvanceFrom(s, s.turn.seat));
    }
  }

  /** A departing player is shown eliminated before the elimination is spelled out; nothing is lost by it. */
  lemma {:induction false} OutFollows(cfg: ValidConfig, v: State, s: State, i: nat)
    requires Agrees(v, s) && Core(cfg, s) && i < |s.players|
    ensures Follows(v, [PlayerLeft(s.players[i].id)] + GoneFacts(s, i), Out(s, i))
  {
    var p := s.players[i];
    var left := s.(players := s.players[i := p.(status := Eliminated)]);
    LeftFollows(v, s, i);
    var v1 := ReduceAll(v, [PlayerLeft(p.id)]);
    if IsActive(p) {
      SpacesUnique(cfg, s);
      assert Seated(left.players);
      assert Eliminate(left, i) == Eliminate(s, i);
      GoneFollows(v1, left, ActiveSeats(s.players), i, VoluntaryLeave, NoPlayer, 0);
    } else {
      assert PlayerOk(cfg, s, p);
      assert left.players == s.players;
      Nothing(v1, s);
    }
    hide Follows;
    Chain(v, [PlayerLeft(p.id)], left, GoneFacts(s, i), Out(s, i));
  }

  lemma {:induction false} LeaveFollows(cfg: ValidConfig, v: State, s: State, i: nat)
    requires Agrees(v, s) && Core(cfg, s) && i < |s.players|
    ensures Follows(v, LeaveMatch(s, i).facts, LeaveMatch(s, i).next)
  {
    hide Core, Follows, Agrees, EndIfShort, Eliminate, AdvanceFrom;
    var p := s.players[i];
    OutFollows(cfg, v, s, i);
    var facts := [PlayerLeft(p.id)] + GoneFacts(s, i);
    FollowsAgrees(v, facts, Out(s, i));
    var end := EndIfShort(Out(s, i));
    EndFollows(cfg, ReduceAll(v, facts), Out(s, i));
    Chain(v, facts, Out(s, i), end.facts, end.next);
    FollowsAgrees(v, facts + end.facts, end.next);
    AdvanceFollows(ReduceAll(v, facts + end.facts), end.next, p.seat);
    Chain(v, facts + end.facts, end.next, [Advanced(AdvanceFrom(end.next, p.seat))], AdvanceFrom(end.next, p.seat));
  }

  lemma {:induction false} LeftFollows(v: State, s: State, i: nat)
    requires Agrees(v, s) && Seated(s.players) && i < |s.players|
    ensures Follows(v, [PlayerLeft(s.players[i].id)], s.(players := s.players[i := s.players[i].(status := Eliminated)]))
    ensures Agrees(ReduceAll(v, [PlayerLeft(s.players[i].id)]), s.(players := s.players[i := s.players[i].(status := Eliminated)]))
  {
    MarkOutOne(s.players, i);
    One(v, PlayerLeft(s.players[i].id), s.(players := s.players[i := s.players[i].(status := Eliminated)]));
  }

  /**
   A view that agrees with the server before a transition of a running match agrees with it after folding
   the transition's events; on the way no balance is clamped and no fallback is taken.
   */
  lemma {:induction false} ClientFollows(cfg: ValidConfig, v: State, s: State, actor: PlayerId, action: Action, dice: Dice)
    requires Inv(cfg, s) && s.phase == Playing && Agrees(v, s)
    requires Apply(cfg, s, actor, action, dice).Ok?
    ensures Follows(v, Apply(cfg, s, actor, action, dice).value.facts, Apply(cfg, s, actor, action, dice).value.next)
  {
    hide Core, PlayingOk, Follows, RollOf, Closing, LeaveMatch;
    var r := Handle(cfg, s, actor, action, dice).value;
    match action {
      case Leave => LeaveFollows(cfg, v, s, IndexOf(s.players, actor));
      case Roll => RollFollows(cfg, v, s, IndexOf(s.players, actor), dice);
      case Buy => BuyFollows(cfg, v, s, actor);
      case Decline => QuietFollows(cfg, v, s, actor);
      case EndTurn => QuietFollows(cfg, v, s, actor);
      case _ =>
    }
    TickFollows(v, r.facts, r.next, s.tick + 1);
  }

  lemma TickFollows(v: State, facts: seq<Fact>, s: State, tick: nat)
    requires Follows(v, facts, s)
    ensures Follows(v, facts, s.(tick := tick))
  {
  }
}
