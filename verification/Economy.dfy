/** Where chips come from, and how many there can ever be. */
module Economy {
  import opened Config
  import opened Domain
  import opened Seats
  import opened Rules
  import opened Invariant
  import opened Runs

  const MAX_GAIN := 6_000_000
  const INT64_MAX := 0x7fff_ffff_ffff_ffff

  function TotalMoney(ps: seq<Player>): int {
    if ps == [] then 0 else TotalMoney(ps[..|ps| - 1]) + ps[|ps| - 1].money
  }

  /** Price of every owned space, whoever owns it. */
  function DeedValue(spaces: seq<Space>): int {
    if spaces == [] then 0
    else DeedValue(spaces[..|spaces| - 1]) + if spaces[|spaces| - 1].owned then spaces[|spaces| - 1].def.price else 0
  }

  function Wealth(s: State): int { TotalMoney(s.players) + DeedValue(s.spaces) }

  // ---- movement --------------------------------------------------------------

  /** Walking one space at a time arrives where division with remainder does. */
  lemma {:induction false} WalkIsDivMod(pos: int, total: nat, n: int)
    requires 0 <= pos < n
    ensures Walk(pos, total, n) == ((pos + total) % n, (pos + total) / n)
  {
    WalkCovers(pos, total, n);
    WalkInBounds(pos, total, n);
    var w := Walk(pos, total, n);
    DivModUnique(pos + total, n, w.1, w.0);
  }

  lemma {:induction false} MulAtLeast(d: int, n: int)
    requires 0 <= n
    ensures 1 <= d ==> n <= d * n
    ensures d <= -1 ==> d * n <= -n
    decreases if d < 0 then -d else d
  {
    if d > 1 {
      MulAtLeast(d - 1, n);
      assert d * n == (d - 1) * n + n;
    } else if d < -1 {
      MulAtLeast(d + 1, n);
      assert d * n == (d + 1) * n - n;
    }
  }

  lemma {:induction false} DivModUnique(x: int, n: int, q: int, r: int)
    requires 0 <= r < n && x == q * n + r
    ensures x / n == q && x % n == r
  {
    var p, m := x / n, x % n;
    assert x == p * n + m && 0 <= m < n;
    assert (p - q) * n == p * n - q * n;
    MulAtLeast(p - q, n);
  }

  lemma {:induction false} WalkCovers(pos: int, total: nat, n: int)
    requires 0 <= pos < n
    ensures Walk(pos, total, n).1 * n + Walk(pos, total, n).0 == pos + total
  {
    if total == 0 {
    } else {
      WalkCovers(pos, total - 1, n);
      WalkInBounds(pos, total - 1, n);
      OneMoreLap(Walk(pos, total - 1, n).1, n);
    }
  }

  lemma OneMoreLap(c: int, n: int)
    ensures (c + 1) * n == c * n + n
  {
  }

  /** Two dice cross space 0 at most six times, on the two-space board. */
  lemma {:induction false} CrossingsBounded(pos: int, total: nat, n: int)
    requires 0 <= pos < n && 2 <= n && total <= 12
    ensures Walk(pos, total, n).1 <= 6
  {
    WalkCovers(pos, total, n);
    WalkInBounds(pos, total, n);
    LapsAddUp(Walk(pos, total, n).1, n);
  }

  lemma {:induction false} LapsAddUp(c: int, n: int)
    requires 0 <= c && 2 <= n
    ensures 2 * c <= c * n
  {
    if c == 0 {
    } else {
      LapsAddUp(c - 1, n);
      OneMoreLap(c - 1, n);
    }
  }

  /** The crossings' bonuses, one by one, are the bonus times the crossings. */
  lemma {:induction false} GoBonusIsProduct(cfg: ValidConfig, passes: nat)
    ensures GoBonus(cfg, passes) == cfg.rules.passingGoBonus * passes
  {
    if passes > 0 { GoBonusIsProduct(cfg, passes - 1); }
  }

  lemma {:induction false} GoBonusBounded(cfg: ValidConfig, passes: nat)
    ensures 0 <= GoBonus(cfg, passes) <= passes * MAX_PASSING_GO_BONUS
  {
    if passes > 0 { GoBonusBounded(cfg, passes - 1); }
  }

  // ---- sums under updates ----------------------------------------------------

  lemma {:induction false} MoneyUpdate(ps: seq<Player>, i: nat, p: Player)
    requires i < |ps|
    ensures TotalMoney(ps[i := p]) == TotalMoney(ps) - ps[i].money + p.money
  {
    var front := ps[..|ps| - 1];
    if i < |ps| - 1 {
      assert ps[i := p][..|ps| - 1] == front[i := p];
      MoneyUpdate(front, i, p);
    } else {
      assert ps[i := p][..|ps| - 1] == front;
    }
  }

  lemma {:induction false} MoneyInsert(ps: seq<Player>, p: Player)
    ensures TotalMoney(InsertBySeat(ps, p)) == TotalMoney(ps) + p.money
  {
    if ps == [] {
    } else {
      var front, last := ps[..|ps| - 1], ps[|ps| - 1];
      if last.seat <= p.seat {
        assert (ps + [p])[..|ps|] == ps;
      } else {
        MoneyInsert(front, p);
        assert (InsertBySeat(front, p) + [last])[..|InsertBySeat(front, p)|] == InsertBySeat(front, p);
      }
    }
  }

  lemma {:induction false} MoneyBySeat(ps: seq<Player>)
    ensures TotalMoney(BySeat(ps)) == TotalMoney(ps)
  {
    if ps == [] {
    } else {
      MoneyBySeat(ps[..|ps| - 1]);
      MoneyInsert(BySeat(ps[..|ps| - 1]), ps[|ps| - 1]);
    }
  }

  lemma {:induction false} MoneyWithout(ps: seq<Player>, id: PlayerId)
    requires forall i :: 0 <= i < |ps| ==> 0 <= ps[i].money
    ensures TotalMoney(Without(ps, id)) <= TotalMoney(ps)
  {
    if ps == [] {
    } else {
      var front, last := ps[..|ps| - 1], ps[|ps| - 1];
      MoneyWithout(front, id);
      if last.id != id {
        assert Without(ps, id) == Without(front, id) + [last];
        assert Without(ps, id)[..|Without(front, id)|] == Without(front, id);
      } else {
        assert Without(ps, id) == Without(front, id);
      }
    }
  }

  lemma {:induction false} BalanceWithinTotal(ps: seq<Player>, i: nat)
    requires i < |ps| && forall k :: 0 <= k < |ps| ==> 0 <= ps[k].money
    ensures ps[i].money <= TotalMoney(ps) && 0 <= TotalMoney(ps)
  {
    var front := ps[..|ps| - 1];
    if i < |ps| - 1 {
      BalanceWithinTotal(front, i);
    } else if front != [] {
      BalanceWithinTotal(front, 0);
    }
  }

  /** Only properties are owned, and properties have prices. */
  ghost predicate Titled(spaces: seq<Space>) {
    forall k :: 0 <= k < |spaces| && spaces[k].owned ==> 0 <= spaces[k].def.price
  }

  lemma {:induction false} CoreTitled(cfg: ValidConfig, s: State)
    requires Core(cfg, s)
    ensures Titled(s.spaces)
    ensures forall i :: 0 <= i < |s.players| ==> 0 <= s.players[i].money
  {
    forall k | 0 <= k < |s.spaces| && s.spaces[k].owned ensures 0 <= s.spaces[k].def.price {
      assert DeedOk(ActiveSeats(s.players), s.spaces[k]);
      assert s.spaces[k].def == cfg.board[k] && SpaceOk(cfg.board[k]);
    }
    forall i | 0 <= i < |s.players| ensures 0 <= s.players[i].money {
      assert PlayerOk(cfg, s, s.players[i]);
    }
  }

  lemma {:induction false} DeedsReleased(spaces: seq<Space>, id: PlayerId)
    requires Titled(spaces)
    ensures DeedValue(Release(spaces, id)) == DeedValue(spaces) - Holdings(spaces, id)
    ensures 0 <= Holdings(spaces, id) <= DeedValue(spaces)
  {
    if spaces == [] {
    } else {
      var front := spaces[..|spaces| - 1];
      assert Release(spaces, id)[..|spaces| - 1] == Release(front, id);
      assert forall k :: 0 <= k < |front| ==> front[k] == spaces[k];
      DeedsReleased(front, id);
    }
  }

  lemma {:induction false} DeedBought(spaces: seq<Space>, at: nat, owner: PlayerId)
    requires at < |spaces| && !spaces[at].owned
    ensures DeedValue(spaces[at := spaces[at].(owned := true, owner := owner)]) == DeedValue(spaces) + spaces[at].def.price
  {
    var front := spaces[..|spaces| - 1];
    var bought := spaces[at := spaces[at].(owned := true, owner := owner)];
    if at < |spaces| - 1 {
      assert bought[..|spaces| - 1] == front[at := front[at].(owned := true, owner := owner)];
      DeedBought(front, at, owner);
    } else {
      assert bought[..|spaces| - 1] == front;
    }
  }

  // ---- every transition ------------------------------------------------------

  lemma {:induction false} EliminateWealth(s: State, i: nat)
    requires i < |s.players| && Titled(s.spaces)
    ensures Wealth(Eliminate(s, i)) <= Wealth(s)
  {
    MoneyUpdate(s.players, i, s.players[i].(status := Eliminated));
    DeedsReleased(s.spaces, s.players[i].id);
  }

  lemma {:induction false} BankruptWealth(s: State, i: nat, creditor: PlayerId, owed: int, cause: Cause)
    requires i < |s.players| && Titled(s.spaces)
    ensures Wealth(Bankrupt(s, i, creditor, owed, cause).next) <= Wealth(s)
  {
    EliminateWealth(s, i);
  }

  lemma {:induction false} PayWealth(s: State, i: nat, amount: int)
    requires i < |s.players|
    ensures Wealth(Pay(s, i, amount)) == Wealth(s) - amount
  {
    MoneyUpdate(s.players, i, s.players[i].(money := s.players[i].money - amount));
  }

  /** Landing never makes chips: rent moves them, tax and bankruptcy destroy them. */
  lemma {:induction false} LandingWealth(s: State, i: nat, to: nat)
    requires i < |s.players| && Titled(s.spaces) && to < |s.spaces| && SpaceOk(s.spaces[to].def)
    requires ResolveLanding(s, i, to).Ok?
    ensures Wealth(ResolveLanding(s, i, to).value.next) <= Wealth(s)
  {
    hide Wealth, Bankrupt, Pay, Eliminate;
    var def := s.spaces[to].def;
    var o := IndexOf(s.players, s.spaces[to].owner);
    if def.kind == Tax {
      BankruptWealth(s, i, NoPlayer, def.amount, BankruptcyTax);
      PayWealth(s, i, def.amount);
    } else if def.kind == Property && o < |s.players| {
      BankruptWealth(s, i, s.spaces[to].owner, def.rent, BankruptcyRent);
      PayWealth(s, i, def.rent);
      SamePlayers(s, i, def.rent);
      PayWealth(Pay(s, i, def.rent), o, -def.rent);
    }
  }

  lemma SamePlayers(s: State, i: nat, amount: int)
    requires i < |s.players|
    ensures |Pay(s, i, amount).players| == |s.players|
  {
  }

  lemma {:induction false} MovedWealth(cfg: ValidConfig, s: State, i: nat, total: nat)
    requires Core(cfg, s) && i < |s.players| && s.spaces != [] && total <= 12
    ensures Wealth(Moved(cfg, s, i, total)) <= Wealth(s) + MAX_GAIN
  {
    var p := s.players[i];
    assert PlayerOk(cfg, s, p);
    var w := Walk(p.position, total, |s.spaces|);
    CrossingsBounded(p.position, total, |s.spaces|);
    GoBonusBounded(cfg, w.1);
    MoneyUpdate(s.players, i, Moved(cfg, s, i, total).players[i]);
  }

  lemma EvaluateWealth(cfg: ValidConfig, s: State, facts: seq<Fact>)
    ensures Wealth(Closing(cfg, s, facts).next) == Wealth(s)
  {
  }

  lemma {:induction false} RollWealth(cfg: ValidConfig, s: State, i: nat, dice: Dice)
    requires i < |s.players| && Core(cfg, s) && s.spaces != [] && RollOf(cfg, s, i, dice).Ok?
    ensures Wealth(RollOf(cfg, s, i, dice).value.next) <= Wealth(s) + MAX_GAIN
  {
    hide Core, Wealth, ResolveLanding, Closing, MoveFacts, Settled, Streak, Walk, Titled, SpaceOk;
    var total := dice.d1 + dice.d2;
    MovedWealth(cfg, s, i, total);
    var moved := Moved(cfg, s, i, total);
    LandsOnSpace(cfg, s, i, total);
    LandingWealth(moved, i, moved.players[i].position);
    var l := ResolveLanding(moved, i, moved.players[i].position).value;
    EvaluateWealth(cfg, Settled(cfg, l, Streak(cfg, s.turn.streak, dice)), MoveFacts(cfg, s, i, dice) + l.facts);
    SettledWealth(cfg, l, Streak(cfg, s.turn.streak, dice));
  }

  lemma {:induction false} LandsOnSpace(cfg: ValidConfig, s: State, i: nat, total: nat)
    requires i < |s.players| && Core(cfg, s) && s.spaces != []
    ensures var m := Moved(cfg, s, i, total);
            Titled(m.spaces) && 0 <= m.players[i].position < |m.spaces| && SpaceOk(m.spaces[m.players[i].position].def)
  {
    CoreTitled(cfg, s);
    assert PlayerOk(cfg, s, s.players[i]);
    WalkInBounds(s.players[i].position, total, |s.spaces|);
    var to := Walk(s.players[i].position, total, |s.spaces|).0;
    assert s.spaces[to].def == cfg.board[to];
  }

  lemma SettledWealth(cfg: ValidConfig, l: Landing, streak: (int, bool))
    ensures Wealth(Settled(cfg, l, streak)) == Wealth(l.next)
  {
  }

  lemma {:induction false} BuyWealth(cfg: ValidConfig, s: State, actor: PlayerId)
    requires DoBuy(cfg, s, actor).Ok?
    ensures Wealth(DoBuy(cfg, s, actor).value.next) == Wealth(s)
  {
    var i := IndexOf(s.players, actor);
    var at := s.players[i].position;
    PayWealth(s, i, s.spaces[at].def.price);
    DeedBought(s.spaces, at, actor);
  }

  lemma {:induction false} LobbyWealth(cfg: ValidConfig, s: State, actor: PlayerId)
    requires Core(cfg, s) && Has(s.players, actor)
    ensures Wealth(LeaveLobby(s, actor)) <= Wealth(s)
  {
    CoreTitled(cfg, s);
    MoneyWithout(s.players, actor);
    var remaining := Without(s.players, actor);
    var sorted := BySeat(remaining);
    MoneyBySeat(remaining);
    if sorted != [] { MoneyUpdate(sorted, 0, sorted[0].(isHost := true)); }
  }

  lemma {:induction false} JoinWealth(cfg: ValidConfig, s: State, name: string)
    requires DoJoin(cfg, s, name).Ok?
    ensures Wealth(DoJoin(cfg, s, name).value.next) <= Wealth(s) + MAX_GAIN
  {
    var next := DoJoin(cfg, s, name).value.next;
    assert next.players[..|s.players|] == s.players;
  }

  lemma {:induction false} StartWealth(cfg: ValidConfig, s: State, actor: PlayerId)
    requires DoStart(cfg, s, actor).Ok?
    ensures Wealth(DoStart(cfg, s, actor).value.next) == Wealth(s)
  {
    if s.spaces == [] { NoDeeds(NewBoard(cfg)); }
  }

  lemma {:induction false} ReadyWealth(s: State, actor: PlayerId, ready: bool)
    requires DoReady(s, actor, ready).Ok?
    ensures Wealth(DoReady(s, actor, ready).value.next) == Wealth(s)
  {
    var i := IndexOf(s.players, actor);
    MoneyUpdate(s.players, i, s.players[i].(ready := ready));
  }

  lemma {:induction false} LeaveWealth(cfg: ValidConfig, s: State, actor: PlayerId)
    requires Inv(cfg, s) && DoLeave(s, actor).Ok?
    ensures Wealth(DoLeave(s, actor).value.next) <= Wealth(s)
  {
    hide Core, PlayingOk, Decided, BySeat, Without;
    if s.phase == Lobby {
      LobbyWealth(cfg, s, actor);
    } else {
      CoreTitled(cfg, s);
      EliminateWealth(s, IndexOf(s.players, actor));
    }
  }

  lemma {:induction false} LifecycleWealth(cfg: ValidConfig, s: State, actor: PlayerId, action: Action, dice: Dice)
    requires Inv(cfg, s) && !IsBoardAction(action) && Handle(cfg, s, actor, action, dice).Ok?
    ensures Wealth(Handle(cfg, s, actor, action, dice).value.next) <= Wealth(s) + MAX_GAIN
  {
    hide Inv, DoJoin, DoLeave, DoReady, DoStart, Wealth;
    match action {
      case Join(name) => JoinWealth(cfg, s, name);
      case Leave => LeaveWealth(cfg, s, actor);
      case Ready(ready) => ReadyWealth(s, actor, ready);
      case Start => StartWealth(cfg, s, actor);
      case _ =>
    }
  }

  lemma {:induction false} NoDeeds(spaces: seq<Space>)
    requires forall k :: 0 <= k < |spaces| ==> !spaces[k].owned
    ensures DeedValue(spaces) == 0
  {
    if spaces == [] {
    } else {
      NoDeeds(spaces[..|spaces| - 1]);
    }
  }

  lemma {:induction false} ApplyWealth(cfg: ValidConfig, s: State, actor: PlayerId, action: Action, dice: Dice)
    requires Inv(cfg, s) && Handle(cfg, s, actor, action, dice).Ok?
    ensures Wealth(Handle(cfg, s, actor, action, dice).value.next) <= Wealth(s) + MAX_GAIN
  {
    hide Inv, RollOf, Wealth, Landable;
    match action {
      case Roll =>
        HolderLands(cfg, s, actor);
        RollWealth(cfg, s, IndexOf(s.players, actor), dice);
      case Buy => BuyWealth(cfg, s, actor);
      case Decline =>
        DeclineWealth(cfg, s, actor);
      case EndTurn => EndTurnWealth(cfg, s, actor);
      case _ => LifecycleWealth(cfg, s, actor, action, dice);
    }
  }

  lemma DeclineWealth(cfg: ValidConfig, s: State, actor: PlayerId)
    requires DoDecline(cfg, s, actor).Ok?
    ensures Wealth(DoDecline(cfg, s, actor).value.next) == Wealth(s)
  {
  }

  lemma EndTurnWealth(cfg: ValidConfig, s: State, actor: PlayerId)
    requires DoEndTurn(cfg, s, actor).Ok?
    ensures Wealth(DoEndTurn(cfg, s, actor).value.next) == Wealth(s)
  {
  }

  // ---- every run -------------------------------------------------------------

  /** The chips and deeds in play never exceed six million per tick. */
  lemma {:induction false} WealthBounded(cfg: ValidConfig, s: State, inputs: seq<Input>)
    requires Initial(cfg, s)
    ensures Inv(cfg, After(cfg, s, inputs))
    ensures Wealth(After(cfg, s, inputs)) <= MAX_GAIN * After(cfg, s, inputs).tick
  {
    InitialInv(cfg, s);
    RunInv(cfg, s, inputs);
    if inputs == [] {
      NoDeeds(s.spaces);
    } else {
      var front, last := inputs[..|inputs| - 1], inputs[|inputs| - 1];
      WealthBounded(cfg, s, front);
      hide Inv, Initial, Wealth;
      StepWealth(cfg, After(cfg, s, front), last);
    }
  }

  lemma {:induction false} StepWealth(cfg: ValidConfig, s: State, input: Input)
    requires Inv(cfg, s)
    ensures Wealth(Step(cfg, s, input).next) <= Wealth(s) + MAX_GAIN * (Step(cfg, s, input).next.tick - s.tick)
  {
    hide Inv, Handle;
    if Apply(cfg, s, input.actor, input.action, input.dice).Ok? {
      ApplyWealth(cfg, s, input.actor, input.action, input.dice);
    }
  }

  /** Below tick 10^12 every balance and every net worth fits a signed 64-bit integer. */
  lemma {:induction false} NoOverflow(cfg: ValidConfig, s: State, inputs: seq<Input>, i: nat)
    requires Initial(cfg, s) && After(cfg, s, inputs).tick < 1_000_000_000_000
    requires i < |After(cfg, s, inputs).players|
    ensures var t := After(cfg, s, inputs);
            0 <= t.players[i].money <= Worth(t, i) && Worth(t, i) + MAX_GAIN <= INT64_MAX
  {
    WealthBounded(cfg, s, inputs);
    var t := After(cfg, s, inputs);
    CoreTitled(cfg, t);
    BalanceWithinTotal(t.players, i);
    DeedsReleased(t.spaces, t.players[i].id);
  }
}
