/**
 What every action comes to, told by what a player can check: balances, places, deeds, readiness, the turn and the log
 (board_ruleset.go, lifecycle.go).
 */
module Effects {
  import opened Config
  import opened Domain
  import opened Seats
  import opened Rules
  import opened Roster
  import opened Invariant
  import opened Runs
  import opened Economy
  import opened Outcomes

  predicate Sits(s: State, id: PlayerId) { exists i :: 0 <= i < |s.players| && s.players[i].id == id }

  /** Nobody but player a has changed. */
  predicate OthersSame(s: State, t: State, a: nat) {
    |t.players| == |s.players| && forall j :: 0 <= j < |s.players| && j != a ==> t.players[j] == s.players[j]
  }

  /** A fresh turn of the next of these seats after `from`: the least above it, or else the least of all, one round on. */
  ghost predicate NextInOrder(seats: set<nat>, from: nat, round: int, turn: Turn) {
    && turn.phase == AwaitRoll && turn.streak == 0 && !turn.award && turn.seat in seats
    && if exists x :: x in seats && from < x
       then from < turn.seat && turn.round == round && forall x :: x in seats && from < x ==> turn.seat <= x
       else turn.round == round + 1 && forall x :: x in seats ==> turn.seat <= x
  }

  lemma {:induction false} TurnAfterIsNext(seats: set<nat>, from: nat, round: int)
    requires seats != {}
    ensures NextInOrder(seats, from, round, TurnAfter(seats, from, round))
  {
    if x :| x in seats && from < x { assert x in Above(seats, from); }
  }

  // ---- a landing: what is due, to whom, and what becomes of who cannot pay ------------

  /** What standing on this space costs: a tax its amount, somebody else's property its rent, anything else nothing. */
  function DueAt(s: State, to: nat, id: PlayerId): int
    requires to < |s.spaces|
  {
    var sp := s.spaces[to];
    match sp.def.kind
    case Tax => sp.def.amount
    case Property => if sp.owned && sp.owner != id then sp.def.rent else 0
    case _ => 0
  }

  /** Whom it is owed to: the owner, or nobody. */
  function CreditorAt(s: State, to: nat, id: PlayerId): PlayerId
    requires to < |s.spaces|
  {
    var sp := s.spaces[to];
    if sp.def.kind == Property && sp.owned && sp.owner != id then sp.owner else NoPlayer
  }

  /** The spaces of whoever went out are free, and no other has changed. */
  ghost predicate GivenUp(spaces: seq<Space>, later: seq<Space>, id: PlayerId) {
    |later| == |spaces| &&
    forall k :: 0 <= k < |spaces| ==>
      later[k] == if spaces[k].owned && spaces[k].owner == id then Space(spaces[k].def, false, NoPlayer, 0) else spaces[k]
  }

  function CauseAt(s: State, to: nat): Cause
    requires to < |s.spaces|
  {
    if s.spaces[to].def.kind == Tax then BankruptcyTax else BankruptcyRent
  }

  /** An owned property is an active player's. */
  lemma {:induction false} OwnerSits(cfg: ValidConfig, s: State, k: nat)
    requires Core(cfg, s) && k < |s.spaces| && s.spaces[k].owned
    ensures var o := IndexOf(s.players, s.spaces[k].owner);
            o < |s.players| && IsActive(s.players[o]) && s.spaces[k].owner != NoPlayer
  {
    assert DeedOk(ActiveSeats(s.players), s.spaces[k]);
    var j :| 0 <= j < |s.players| && IsActive(s.players[j]) && s.players[j].seat == s.spaces[k].owner.seat;
    IndexUnique(s.players, j);
  }

  /** The three ways a landing goes: out, a rent paid to its owner, or whatever is due paid to nobody. */
  lemma {:induction false} LandingSplits(cfg: ValidConfig, s: State, i: nat)
    requires i < |s.players| && Landable(cfg, s, i) && 0 <= s.players[i].position < |s.spaces|
    requires ResolveLanding(s, i, s.players[i].position).Ok?
    ensures var l, p, to := ResolveLanding(s, i, s.players[i].position).value, s.players[i], s.players[i].position;
            var due, creditor := DueAt(s, to, p.id), CreditorAt(s, to, p.id);
            var o := IndexOf(s.players, creditor);
            && (p.money < due ==> l == Bankrupt(s, i, creditor, due, CauseAt(s, to)))
            && (p.money >= due ==> !l.bankrupt)
            && (p.money >= due && creditor == NoPlayer ==> l.next == if due == 0 then s else Pay(s, i, due))
            && (creditor != NoPlayer ==> o < |s.players| && o != i)
            && (p.money >= due && creditor != NoPlayer ==> l.next == Pay(Pay(s, i, due), o, -due))
  {
    var to := s.players[i].position;
    assert Core(cfg, s);
    if s.spaces[to].owned { OwnerSits(cfg, s, to); }
    QuietLanding(cfg, s, i);
    hide Landable, Core, Bankrupt, Pay, IndexOf, LandingOk;
  }

  /** Player i has paid what is due to whoever it is owed to, or is out and has paid nothing; nobody else has changed. */
  predicate Settles(ps: seq<Player>, later: seq<Player>, i: nat, due: int, creditor: PlayerId)
    requires i < |ps|
  {
    && |later| == |ps|
    && later[i] == ps[i].(money := if ps[i].money < due then ps[i].money else ps[i].money - due,
                          status := if ps[i].money < due then Eliminated else Active)
    && forall j :: 0 <= j < |ps| && j != i ==>
         later[j] == ps[j].(money := ps[j].money + if due <= ps[i].money && ps[j].id == creditor then due else 0)
  }

  lemma {:induction false} PaidOver(s: State, i: nat, due: int, creditor: PlayerId)
    requires i < |s.players| && IsActive(s.players[i]) && due <= s.players[i].money && Seated(s.players)
    requires var o := IndexOf(s.players, creditor); o < |s.players| && o != i
    ensures Settles(s.players, Pay(Pay(s, i, due), IndexOf(s.players, creditor), -due).players, i, due, creditor)
  {
    AloneWith(s.players, IndexOf(s.players, creditor));
    hide Seated;
  }

  lemma {:induction false} PaidAway(s: State, i: nat, due: int)
    requires i < |s.players| && IsActive(s.players[i]) && due <= s.players[i].money && Seated(s.players)
    ensures Settles(s.players, Pay(s, i, due).players, i, due, NoPlayer)
    ensures due == 0 ==> Settles(s.players, s.players, i, due, NoPlayer)
  {
    NobodysSeat(s.players);
    hide Seated;
  }

  lemma BankruptPays(s: State, i: nat, creditor: PlayerId, owed: int, cause: Cause)
    requires i < |s.players| && s.players[i].money < owed
    ensures var l := Bankrupt(s, i, creditor, owed, cause);
            l.bankrupt && Settles(s.players, l.next.players, i, owed, creditor)
  {
    hide NextTurn, OwnedIds, ActiveSeats;
  }

  lemma {:induction false} LandingPays(cfg: ValidConfig, s: State, i: nat)
    requires i < |s.players| && Landable(cfg, s, i) && 0 <= s.players[i].position < |s.spaces|
    requires ResolveLanding(s, i, s.players[i].position).Ok?
    ensures var l, p, to := ResolveLanding(s, i, s.players[i].position).value, s.players[i], s.players[i].position;
            var due, creditor := DueAt(s, to, p.id), CreditorAt(s, to, p.id);
            (l.bankrupt <==> p.money < due) && Settles(s.players, l.next.players, i, due, creditor)
  {
    var to, p := s.players[i].position, s.players[i];
    StandsOnBoard(cfg, s, i);
    assert Core(cfg, s) && Seated(s.players) && IsActive(p);
    hide Landable, Core, Seated, Bankrupt, IndexOf, DueAt, CreditorAt, ResolveLanding, Pay, Settles;
    LandingSplits(cfg, s, i);
    var due, creditor := DueAt(s, to, p.id), CreditorAt(s, to, p.id);
    if p.money < due {
      BankruptPays(s, i, creditor, due, CauseAt(s, to));
    } else if creditor != NoPlayer {
      PaidOver(s, i, due, creditor);
    } else {
      PaidAway(s, i, due);
    }
  }

  lemma {:induction false} AloneWith(ps: seq<Player>, i: nat)
    requires Seated(ps) && i < |ps|
    ensures forall j :: 0 <= j < |ps| ==> (ps[j].id == ps[i].id <==> j == i)
  {
    forall j | 0 <= j < |ps| && ps[j].id == ps[i].id ensures j == i { assert ps[j].seat == ps[i].seat; }
  }

  lemma NobodysSeat(ps: seq<Player>)
    requires Seated(ps)
    ensures forall j :: 0 <= j < |ps| ==> ps[j].id != NoPlayer
  {
  }

  lemma {:induction false} LandingLeaves(cfg: ValidConfig, s: State, i: nat)
    requires i < |s.players| && Landable(cfg, s, i) && 0 <= s.players[i].position < |s.spaces|
    requires ResolveLanding(s, i, s.players[i].position).Ok?
    ensures var l, p, to := ResolveLanding(s, i, s.players[i].position).value, s.players[i], s.players[i].position;
            && l.next == s.(players := l.next.players, spaces := l.next.spaces, turn := l.next.turn)
            && (l.bankrupt ==> GivenUp(s.spaces, l.next.spaces, p.id)
                               && NextInOrder(ActiveSeats(l.next.players), p.seat, s.turn.round, l.next.turn))
            && (!l.bankrupt ==> l.next.spaces == s.spaces && l.next.turn == s.turn && (l.buyDecision <==> CanAffordHere(s, i)))
  {
    var p, to := s.players[i], s.players[i].position;
    LeftOver(cfg, s, i);
    hide Landable, Core, NextTurn, OwnedIds, ActiveSeats, Seated, LandingOk, NextInOrder, Bankrupt, Pay;
    LandingOffers(cfg, s, i);
    forall creditor, owed, cause
      ensures var l := Bankrupt(s, i, creditor, owed, cause);
              && l.bankrupt && l.next == s.(players := l.next.players, spaces := l.next.spaces, turn := l.next.turn)
              && GivenUp(s.spaces, l.next.spaces, p.id)
              && NextInOrder(ActiveSeats(l.next.players), p.seat, s.turn.round, l.next.turn)
    {
      BankruptLeaves(s, i, creditor, owed, cause);
    }
    hide GivenUp;
    forall n: State, k: nat, amount | k < |n.players|
      ensures Pay(n, k, amount) == n.(players := Pay(n, k, amount).players) && |Pay(n, k, amount).players| == |n.players|
    {
      PayFrame(n, k, amount);
    }
  }

  lemma PayFrame(s: State, i: nat, amount: int)
    requires i < |s.players|
    ensures Pay(s, i, amount) == s.(players := Pay(s, i, amount).players) && |Pay(s, i, amount).players| == |s.players|
  {
  }

  lemma {:induction false} BankruptLeaves(s: State, i: nat, creditor: PlayerId, owed: int, cause: Cause)
    requires i < |s.players| && ActiveSeats(Eliminate(s, i).players) != {}
    ensures var l := Bankrupt(s, i, creditor, owed, cause);
            && l.bankrupt && l.next == s.(players := l.next.players, spaces := l.next.spaces, turn := l.next.turn)
            && GivenUp(s.spaces, l.next.spaces, s.players[i].id)
            && NextInOrder(ActiveSeats(l.next.players), s.players[i].seat, s.turn.round, l.next.turn)
  {
    hide NextTurn, OwnedIds, ActiveSeats, NextInOrder;
    TurnAfterIsNext(ActiveSeats(Eliminate(s, i).players), s.players[i].seat, s.turn.round);
  }

  lemma {:induction false} LeftOver(cfg: ValidConfig, s: State, i: nat)
    requires i < |s.players| && Landable(cfg, s, i)
    ensures ActiveSeats(Eliminate(s, i).players) != {}
  {
    assert Seated(s.players);
    EliminateSeat(s.players, i);
    assert |ActiveSeats(s.players) - {s.players[i].seat}| >= 1;
  }

  /** What a landing says: the bankruptcy and where the turn went, or what was paid. */
  function LandingWords(s: State, i: nat, to: nat, turn: Turn): seq<Fact>
    requires i < |s.players| && to < |s.spaces|
  {
    var p, sp := s.players[i], s.spaces[to];
    var due, creditor := DueAt(s, to, p.id), CreditorAt(s, to, p.id);
    if p.money < due then
      [PlayerBankrupt(p.id, CauseAt(s, to), creditor, due, OwnedIds(s.spaces, p.id)), PlayerEliminated(p.id, CauseAt(s, to)),
       TurnAdvanced(turn.seat, turn.round)]
    else if sp.def.kind == Tax then [BankTransfer(p.id, due, ToBank, TaxDue)]
    else if creditor != NoPlayer then [RentPaid(p.id, creditor, sp.def.id, due)]
    else []
  }

  lemma {:induction false} LandingSpeaks(cfg: ValidConfig, s: State, i: nat)
    requires i < |s.players| && Landable(cfg, s, i) && 0 <= s.players[i].position < |s.spaces|
    requires ResolveLanding(s, i, s.players[i].position).Ok?
    ensures var l := ResolveLanding(s, i, s.players[i].position).value;
            l.facts == LandingWords(s, i, s.players[i].position, l.next.turn)
  {
    var to, p := s.players[i].position, s.players[i];
    assert Core(cfg, s);
    if s.spaces[to].owned { OwnerSits(cfg, s, to); }
    QuietLanding(cfg, s, i);
    LandingSplits(cfg, s, i);
    LeftOver(cfg, s, i);
    hide Landable, Core, OwnedIds, ActiveSeats, Seated, LandingOk, Eliminate, Bankrupt, Pay;
    if p.money < DueAt(s, to, p.id) { BankruptSays(s, i, CreditorAt(s, to, p.id), DueAt(s, to, p.id), CauseAt(s, to)); }
  }

  lemma BankruptSays(s: State, i: nat, creditor: PlayerId, owed: int, cause: Cause)
    requires i < |s.players| && ActiveSeats(Eliminate(s, i).players) != {}
    ensures var l, id := Bankrupt(s, i, creditor, owed, cause), s.players[i].id;
            l.facts == [PlayerBankrupt(id, cause, creditor, owed, OwnedIds(s.spaces, id)), PlayerEliminated(id, cause),
                        TurnAdvanced(l.next.turn.seat, l.next.turn.round)]
  {
    hide ActiveSeats, OwnedIds, Eliminate;
  }

  // ---- a roll ---------------------------------------------------------------------------

  /** Where a roll of player a leads, and how often it closes the loop. */
  function RollsTo(s: State, a: nat, dice: Dice): (r: (nat, nat))
    requires a < |s.players| && 0 <= s.players[a].position < |s.spaces|
    ensures r.0 < |s.spaces|
  {
    var total := s.players[a].position + dice.d1 + dice.d2;
    DivModNat(total, |s.spaces|);
    (total % |s.spaces|, total / |s.spaces|)
  }

  lemma DivModNat(x: nat, n: nat)
    requires n > 0
    ensures 0 <= x % n < n && 0 <= x / n
  {
  }

  /** Player a on the space the dice lead to, the bonus for each closed loop in hand. */
  ghost predicate Advances(cfg: ValidConfig, s: State, a: nat, dice: Dice, m: State) {
    && a < |s.players| && 0 <= s.players[a].position < |s.spaces|
    && var (to, laps) := RollsTo(s, a, dice);
       m == s.(players := s.players[a := s.players[a].(position := to,
                                                       money := s.players[a].money + cfg.rules.passingGoBonus * laps)])
  }

  lemma {:induction false} MovedAdvances(cfg: ValidConfig, s: State, a: nat, dice: Dice)
    requires a < |s.players| && 0 <= s.players[a].position < |s.spaces|
    ensures Advances(cfg, s, a, dice, Moved(cfg, s, a, dice.d1 + dice.d2))
  {
    WalkIsDivMod(s.players[a].position, dice.d1 + dice.d2, |s.spaces|);
    GoBonusIsProduct(cfg, Walk(s.players[a].position, dice.d1 + dice.d2, |s.spaces|).1);
    hide Walk, GoBonus;
  }

  /** The parts of an accepted roll: the movement, the landing, the turn as it then goes on, and the victory conditions. */
  lemma {:induction false} RollGoes(cfg: ValidConfig, s: State, i: Input) returns (m: State, l: Landing, x: State)
    requires Inv(cfg, s) && i.action == Roll && Accepted(cfg, s, i)
    ensures var a, t := IndexOf(s.players, i.actor), Apply(cfg, s, i.actor, Roll, i.dice).value;
            && s.phase == Playing && a < |s.players| && s.players[a].id == i.actor && s.players[a].status == Active
            && s.players[a].seat == s.turn.seat
            && Advances(cfg, s, a, i.dice, m) && Landable(cfg, m, a)
            && ResolveLanding(m, a, m.players[a].position) == Ok(l)
            && x == (if l.bankrupt then l.next else l.next.(turn := x.turn))
            && (!l.bankrupt ==> x.turn == SettleTurn(s.turn, l.buyDecision, Streak(cfg, s.turn.streak, i.dice).0,
                                                     Streak(cfg, s.turn.streak, i.dice).1))
            && t == Transition(Evaluate(cfg, x).next.(tick := s.tick + 1),
                               MoveFacts(cfg, s, a, i.dice) + l.facts + Evaluate(cfg, x).facts)
  {
    hide Core, PlayingOk, Landable, ResolveLanding, Evaluate, Walk, GoBonus, MoveFacts, Streak, SettleTurn;
    HolderLands(cfg, s, i.actor);
    HolderFound(cfg, s, i.actor, AwaitRoll);
    var a := IndexOf(s.players, i.actor);
    m := Moved(cfg, s, a, i.dice.d1 + i.dice.d2);
    MovedAdvances(cfg, s, a, i.dice);
    MovedLandable(cfg, s, a, i.dice.d1 + i.dice.d2);
    LandingOffers(cfg, m, a);
    l := ResolveLanding(m, a, m.players[a].position).value;
    x := Settled(cfg, l, Streak(cfg, s.turn.streak, i.dice));
  }

  lemma EvaluateFrame(cfg: ValidConfig, s: State)
    ensures var e := Evaluate(cfg, s);
            && e.next.players == s.players && e.next.spaces == s.spaces && e.next.turn == s.turn
            && (s.phase == Playing ==> e.next.phase == Playing || e.next.phase == Ended)
            && (e.next.phase == s.phase ==> e.next == s && e.facts == [])
            && (e.next.phase != s.phase ==> e.facts == [GameEnded(e.next.winner, e.next.endReason)])
  {
  }

  /**
   What a roll costs and pays: the roller goes on by the dice and is paid one bonus for each time the loop is closed. If
   what is then due where they stand exceeds what they hold they are out, paying nothing; otherwise they pay it, and whoever
   it is owed to receives it. Nothing else about anybody changes.
   */
  lemma {:induction false} RollPays(cfg: ValidConfig, s: State, i: Input)
    requires Inv(cfg, s) && i.action == Roll && Accepted(cfg, s, i)
    ensures var a, t := IndexOf(s.players, i.actor), Apply(cfg, s, i.actor, Roll, i.dice).value.next;
            && a < |s.players| == |t.players| && 0 <= s.players[a].position < |s.spaces|
            && var (to, laps) := RollsTo(s, a, i.dice);
               var pot := s.players[a].money + cfg.rules.passingGoBonus * laps;
               var due, creditor := DueAt(s, to, i.actor), CreditorAt(s, to, i.actor);
            && t.players[a] == s.players[a].(position := to, money := if pot < due then pot else pot - due,
                                             status := if pot < due then Eliminated else Active)
            && forall j :: 0 <= j < |s.players| && j != a ==>
                 t.players[j] == s.players[j].(money := s.players[j].money
                                                        + if due <= pot && s.players[j].id == creditor then due else 0)
  {
    hide Inv, Landable, ResolveLanding, Evaluate, Apply, MoveFacts, Streak, SettleTurn, DueAt, CreditorAt;
    var m, l, x := RollGoes(cfg, s, i);
    var a := IndexOf(s.players, i.actor);
    LandingPays(cfg, m, a);
    SameBoardDue(s, m, m.players[a].position, i.actor);
    EvaluateFrame(cfg, x);
  }

  lemma SameBoardDue(s: State, m: State, to: nat, id: PlayerId)
    requires m.spaces == s.spaces && to < |s.spaces|
    ensures DueAt(m, to, id) == DueAt(s, to, id) && CreditorAt(m, to, id) == CreditorAt(s, to, id)
  {
  }

  /**
   What a roll leaves: whoever went out has given up their deeds and passed the turn on to the next active seat; otherwise
   no deed changes and the turn stays, at its next stage. The match goes on or ends, and nothing else changes.
   */
  lemma {:induction false} RollLeaves(cfg: ValidConfig, s: State, i: Input)
    requires Inv(cfg, s) && i.action == Roll && Accepted(cfg, s, i)
    ensures var a, t := IndexOf(s.players, i.actor), Apply(cfg, s, i.actor, Roll, i.dice).value.next;
            && a < |s.players| == |t.players|
            && t == s.(phase := t.phase, tick := s.tick + 1, players := t.players, spaces := t.spaces, turn := t.turn,
                       winner := t.winner, endReason := t.endReason)
            && (t.phase == Playing || t.phase == Ended) && (t.phase == Playing ==> t.winner == None && t.endReason == NoReason)
            && if t.players[a].status == Eliminated then
                 GivenUp(s.spaces, t.spaces, i.actor)
                 && NextInOrder(ActiveSeats(t.players), s.turn.seat, s.turn.round, t.turn)
               else
                 t.spaces == s.spaces
                 && var doubles := cfg.rules.doublesExtraRoll && i.dice.d1 == i.dice.d2;
                    var again := doubles && s.turn.streak + 1 < cfg.rules.maxDoublesStreak;
                    && t.turn.seat == s.turn.seat && t.turn.round == s.turn.round
                    && t.turn.phase == (if CanAffordHere(t, a) then AwaitBuyDecision else if again then AwaitRoll else TurnOver)
                    && t.turn.award == (again && CanAffordHere(t, a))
                    && t.turn.streak == if doubles && (again || CanAffordHere(t, a)) then s.turn.streak + 1 else 0
  {
    var m, l, x := RollGoes(cfg, s, i);
    var a := IndexOf(s.players, i.actor);
    InPlayUndecided(cfg, s);
    hide Inv, Landable, ResolveLanding, Evaluate, Apply, MoveFacts, ActiveSeats, Settles, NextInOrder, GivenUp, DueAt, CreditorAt,
         Streak, SettleTurn, CanAffordHere;
    TurnGoesOn(cfg, s.turn, i.dice, l.buyDecision);
    LandingPays(cfg, m, a);
    LandingLeaves(cfg, m, a);
    EvaluateFrame(cfg, x);
    LandingStands(cfg, m, a);
    PaidFirst(m, l.next, a);
  }

  lemma InPlayUndecided(cfg: ValidConfig, s: State)
    requires Inv(cfg, s) && s.phase == Playing
    ensures s.winner == None && s.endReason == NoReason
  {
  }

  lemma TurnGoesOn(cfg: ValidConfig, t: Turn, dice: Dice, offer: bool)
    ensures var u := SettleTurn(t, offer, Streak(cfg, t.streak, dice).0, Streak(cfg, t.streak, dice).1);
            var doubles := cfg.rules.doublesExtraRoll && dice.d1 == dice.d2;
            var again := doubles && t.streak + 1 < cfg.rules.maxDoublesStreak;
            u == Turn(t.seat, if offer then AwaitBuyDecision else if again then AwaitRoll else TurnOver, t.round,
                      if doubles && (again || offer) then t.streak + 1 else 0, again && offer)
  {
  }

  lemma LandingStands(cfg: ValidConfig, s: State, i: nat)
    requires Landable(cfg, s, i)
    ensures i < |s.players| && IsActive(s.players[i])
  {
  }

  /** What can be afforded is the same before and after a landing that leaves a purchase open: it cost nothing. */
  lemma PaidFirst(m: State, n: State, a: nat)
    requires a < |m.players| && IsActive(m.players[a]) && 0 <= m.players[a].position < |m.spaces|
    requires var due := DueAt(m, m.players[a].position, m.players[a].id);
             var creditor := CreditorAt(m, m.players[a].position, m.players[a].id);
             Settles(m.players, n.players, a, due, creditor)
    ensures |n.players| == |m.players|
    ensures n.players[a].status == Eliminated <==> m.players[a].money < DueAt(m, m.players[a].position, m.players[a].id)
    ensures n.spaces == m.spaces && n.players[a].status != Eliminated ==> (CanAffordHere(n, a) <==> CanAffordHere(m, a))
  {
  }

  /** Player a where the dice lead, with the bonuses in hand. */
  function There(cfg: ValidConfig, s: State, a: nat, dice: Dice): State
    requires a < |s.players| && 0 <= s.players[a].position < |s.spaces|
  {
    var (to, laps) := RollsTo(s, a, dice);
    s.(players := s.players[a := s.players[a].(position := to, money := s.players[a].money + cfg.rules.passingGoBonus * laps)])
  }

  function MoveWords(cfg: ValidConfig, s: State, a: nat, dice: Dice): seq<Fact>
    requires a < |s.players| && 0 <= s.players[a].position < |s.spaces|
  {
    var (to, laps) := RollsTo(s, a, dice);
    var p := s.players[a];
    [DiceRolled(p.id, dice.d1, dice.d2, s.spaces[p.position].def.id, s.spaces[to].def.id, laps > 0)]
    + if laps > 0 then [BankTransfer(p.id, cfg.rules.passingGoBonus * laps, ToPlayer, if to == 0 then LandGo else PassGo)] else []
  }

  function EndWords(t: State): seq<Fact> { if t.phase == Ended then [GameEnded(t.winner, t.endReason)] else [] }

  /** What a roll says, event by event: the movement and its bonus, the landing, and the end of the match if it is over. */
  lemma {:induction false} RollSpeaks(cfg: ValidConfig, s: State, i: Input)
    requires Inv(cfg, s) && i.action == Roll && Accepted(cfg, s, i)
    ensures var a, t := IndexOf(s.players, i.actor), Apply(cfg, s, i.actor, Roll, i.dice).value;
            && a < |s.players| && s.players[a].id == i.actor && 0 <= s.players[a].position < |s.spaces|
            && t.facts == MoveWords(cfg, s, a, i.dice)
                          + LandingWords(There(cfg, s, a, i.dice), a, RollsTo(s, a, i.dice).0, t.next.turn)
                          + EndWords(t.next)
  {
    hide Inv, Landable, ResolveLanding, Evaluate, Apply, MoveFacts, ActiveSeats, LandingWords, DueAt, CreditorAt, SettleTurn,
         Streak, GivenUp, NextInOrder, CanAffordHere, MoveWords, RollsTo;
    var m, l, x := RollGoes(cfg, s, i);
    var a, t := IndexOf(s.players, i.actor), Apply(cfg, s, i.actor, Roll, i.dice).value;
    assert m == There(cfg, s, a, i.dice);
    LandingOut(cfg, m, a);
    LandingSpeaks(cfg, m, a);
    EvaluateFrame(cfg, x);
    MoveSpeaks(cfg, s, a, i.dice);
    TurnOnlyWhenOut(m, a, m.players[a].position, l.next.turn, x.turn, l.bankrupt);
    assert Evaluate(cfg, x).facts == EndWords(t.next);
    assert l.facts == LandingWords(m, a, RollsTo(s, a, i.dice).0, t.next.turn);
  }

  lemma {:induction false} LandingOut(cfg: ValidConfig, s: State, i: nat)
    requires i < |s.players| && Landable(cfg, s, i) && 0 <= s.players[i].position < |s.spaces|
    requires ResolveLanding(s, i, s.players[i].position).Ok?
    ensures var l := ResolveLanding(s, i, s.players[i].position).value;
            && (l.bankrupt <==> s.players[i].money < DueAt(s, s.players[i].position, s.players[i].id))
            && l.next.phase == s.phase && s.phase == Playing
  {
    LandingPays(cfg, s, i);
    LandingLeaves(cfg, s, i);
    StandsOnBoard(cfg, s, i);
    hide ResolveLanding, Landable, DueAt;
  }

  lemma TurnOnlyWhenOut(s: State, i: nat, to: nat, u: Turn, v: Turn, out: bool)
    requires i < |s.players| && to < |s.spaces| && (out <==> s.players[i].money < DueAt(s, to, s.players[i].id))
    requires out ==> u == v
    ensures LandingWords(s, i, to, u) == LandingWords(s, i, to, v)
  {
  }

  lemma {:induction false} MoveSpeaks(cfg: ValidConfig, s: State, a: nat, dice: Dice)
    requires a < |s.players| && 0 <= s.players[a].position < |s.spaces|
    ensures MoveFacts(cfg, s, a, dice) == MoveWords(cfg, s, a, dice)
  {
    WalkIsDivMod(s.players[a].position, dice.d1 + dice.d2, |s.spaces|);
    GoBonusIsProduct(cfg, Walk(s.players[a].position, dice.d1 + dice.d2, |s.spaces|).1);
    hide Walk, GoBonus;
  }

  // ---- the other board actions ------------------------------------------------------------

  /**
   A purchase takes the space's price from the buyer and gives them the space, so their worth stays what it was and the
   match goes on; the turn waits for the extra roll they were promised, or is over.
   */
  lemma {:induction false} BuyDoes(cfg: ValidConfig, s: State, i: Input)
    requires Inv(cfg, s) && i.action == Buy && Accepted(cfg, s, i)
    ensures var a, t := IndexOf(s.players, i.actor), Apply(cfg, s, i.actor, Buy, i.dice).value;
            && a < |s.players| == |t.next.players| && 0 <= s.players[a].position < |s.spaces| && s.players[a].seat == s.turn.seat
            && var at := s.players[a].position;
               var sp := s.spaces[at];
            && sp.def.kind == Property && !sp.owned
            && t.next.players == s.players[a := s.players[a].(money := s.players[a].money - sp.def.price)]
            && 0 <= s.players[a].money - sp.def.price
            && t.next.spaces == s.spaces[at := sp.(owned := true, owner := i.actor)]
            && Worth(t.next, a) == Worth(s, a)
            && t.next == s.(tick := s.tick + 1, players := t.next.players, spaces := t.next.spaces,
                            turn := s.turn.(phase := if s.turn.award then AwaitRoll else TurnOver, award := false))
            && t.facts == [PropertyBought(i.actor, sp.def.id, sp.def.price)]
  {
    hide Core, PlayingOk, Evaluate;
    HolderFound(cfg, s, i.actor, AwaitBuyDecision);
    var a := IndexOf(s.players, i.actor);
    var at := s.players[a].position;
    var x := Pay(s, a, s.spaces[at].def.price).(spaces := s.spaces[at := s.spaces[at].(owned := true, owner := i.actor)],
                                                turn := AfterDecision(s.turn));
    BuyWorth(s, x, a, at, i.actor);
    DecisionGoesOn(cfg, s, x, a);
  }

  lemma {:induction false} HoldingsTaken(spaces: seq<Space>, at: nat, id: PlayerId, other: PlayerId)
    requires at < |spaces| && !spaces[at].owned
    ensures var taken := spaces[at := spaces[at].(owned := true, owner := id)];
            Holdings(taken, other) == Holdings(spaces, other) + if other == id then spaces[at].def.price else 0
  {
    var taken := spaces[at := spaces[at].(owned := true, owner := id)];
    var front := spaces[..|spaces| - 1];
    if at < |spaces| - 1 {
      assert taken[..|taken| - 1] == front[at := front[at].(owned := true, owner := id)];
      HoldingsTaken(front, at, id, other);
    } else {
      assert taken[..|taken| - 1] == front;
    }
  }

  lemma {:induction false} BuyWorth(s: State, x: State, a: nat, at: nat, id: PlayerId)
    requires a < |s.players| && at < |s.spaces| && !s.spaces[at].owned && s.players[a].id == id
    requires x.players == s.players[a := s.players[a].(money := s.players[a].money - s.spaces[at].def.price)]
    requires x.spaces == s.spaces[at := s.spaces[at].(owned := true, owner := id)]
    ensures forall j :: 0 <= j < |s.players| ==>
              Worth(x, j) == Worth(s, j) + if j != a && s.players[j].id == id then s.spaces[at].def.price else 0
  {
    forall j | 0 <= j < |s.players|
      ensures Worth(x, j) == Worth(s, j) + if j != a && s.players[j].id == id then s.spaces[at].def.price else 0
    {
      HoldingsTaken(s.spaces, at, id, s.players[j].id);
    }
    hide Holdings;
  }

  /** A decision that leaves everybody's worth alone ends no match. */
  lemma {:induction false} DecisionGoesOn(cfg: ValidConfig, s: State, x: State, a: nat)
    requires Inv(cfg, s) && s.phase == Playing && s.turn.phase == AwaitBuyDecision && a < |s.players|
    requires x.phase == Playing && |x.players| == |s.players| && x.turn.round == s.turn.round
    requires forall j :: 0 <= j < |s.players| ==>
               x.players[j].seat == s.players[j].seat && x.players[j].status == s.players[j].status
               && (j == a || s.players[j].id != s.players[a].id ==> Worth(x, j) == Worth(s, j))
    ensures Evaluate(cfg, x) == Transition(x, [])
  {
    assert Seated(s.players);
    AloneWith(s.players, a);
    SameActives(s.players, x.players);
    if TargetReached(cfg, x) {
      var j :| 0 <= j < |x.players| && IsActive(x.players[j]) && Worth(x, j) >= cfg.victory.targetWealth;
      assert Worth(s, j) >= cfg.victory.targetWealth && TargetReached(cfg, s);
    }
    hide Core, TargetReached, Actives, ActiveSeats, Richest, Seated;
  }

  lemma {:induction false} SameActives(ps: seq<Player>, qs: seq<Player>)
    requires Seated(ps) && |qs| == |ps|
    requires forall j :: 0 <= j < |ps| ==> qs[j].seat == ps[j].seat && qs[j].status == ps[j].status
    ensures |Actives(qs)| == |ActiveSeats(ps)|
  {
    ActivesCounted(qs);
    assert ActiveSeats(qs) == ActiveSeats(ps) by {
      forall x ensures x in ActiveSeats(qs) <==> x in ActiveSeats(ps) {
        if i :| 0 <= i < |ps| && IsActive(ps[i]) && ps[i].seat == x { assert IsActive(qs[i]) && qs[i].seat == x; }
        if i :| 0 <= i < |qs| && IsActive(qs[i]) && qs[i].seat == x { assert IsActive(ps[i]) && ps[i].seat == x; }
      }
    }
  }

  /** A declined purchase changes nothing but the turn's stage, and says what was declined. */
  lemma {:induction false} DeclineDoes(cfg: ValidConfig, s: State, i: Input)
    requires Inv(cfg, s) && i.action == Decline && Accepted(cfg, s, i)
    ensures var a, t := IndexOf(s.players, i.actor), Apply(cfg, s, i.actor, Decline, i.dice).value;
            && a < |s.players| && 0 <= s.players[a].position < |s.spaces| && s.players[a].seat == s.turn.seat
            && t.next == s.(tick := s.tick + 1,
                            turn := s.turn.(phase := if s.turn.award then AwaitRoll else TurnOver, award := false))
            && t.facts == [BuyDeclined(i.actor, s.spaces[s.players[a].position].def.id)]
  {
    hide Core, PlayingOk, Evaluate;
    HolderFound(cfg, s, i.actor, AwaitBuyDecision);
    var x := s.(turn := AfterDecision(s.turn));
    assert forall j :: 0 <= j < |s.players| ==> Worth(x, j) == Worth(s, j);
    DecisionGoesOn(cfg, s, x, IndexOf(s.players, i.actor));
  }

  lemma {:induction false} AdvanceEnds(cfg: ValidConfig, s: State, x: State)
    requires Inv(cfg, s) && s.phase == Playing && x == s.(turn := x.turn)
    ensures Evaluate(cfg, x).next.phase == Ended <==> cfg.victory.kind == RoundLimit && x.turn.round > cfg.victory.roundLimit
  {
    InPlay(cfg, s);
    ActivesCounted(s.players);
    assert TargetReached(cfg, x) ==> TargetReached(cfg, s) by {
      assert forall j :: 0 <= j < |s.players| ==> Worth(x, j) == Worth(s, j);
    }
    hide Core, TargetReached, Actives, ActiveSeats, Richest, Seated;
  }

  /** An ended turn goes to the next active seat, and ends the match exactly if that begins a round past the limit. */
  lemma {:induction false} EndTurnDoes(cfg: ValidConfig, s: State, i: Input)
    requires Inv(cfg, s) && i.action == EndTurn && Accepted(cfg, s, i)
    ensures var t := Apply(cfg, s, i.actor, EndTurn, i.dice).value;
            && t.next == s.(phase := t.next.phase, tick := s.tick + 1, turn := t.next.turn,
                            winner := t.next.winner, endReason := t.next.endReason)
            && NextInOrder(ActiveSeats(s.players), s.turn.seat, s.turn.round, t.next.turn)
            && (t.next.phase == Ended <==> cfg.victory.kind == RoundLimit && t.next.turn.round > cfg.victory.roundLimit)
            && (t.next.phase != Ended ==> t.next.phase == Playing && t.next.winner == None && t.next.endReason == NoReason)
            && t.facts == [TurnAdvanced(t.next.turn.seat, t.next.turn.round)]
                          + if t.next.phase == Ended then [GameEnded(t.next.winner, t.next.endReason)] else []
  {
    hide Inv, Evaluate, ActiveSeats, NextInOrder;
    HolderFound(cfg, s, i.actor, TurnOver);
    InPlay(cfg, s);
    InPlayUndecided(cfg, s);
    var x := AdvanceFrom(s, s.turn.seat);
    TurnAfterIsNext(ActiveSeats(s.players), s.turn.seat, s.turn.round);
    AdvanceEnds(cfg, s, x);
    EvaluateFrame(cfg, x);
    hide TurnAfter;
  }

  // ---- the lobby ----------------------------------------------------------------------------

  predicate Taken(s: State, seat: nat) { exists j :: 0 <= j < |s.players| && s.players[j].seat == seat }

  /** A newcomer takes the lowest free seat under their own name, with the starting money, on the first space, not ready. */
  lemma {:induction false} JoinDoes(cfg: ValidConfig, s: State, actor: PlayerId, name: string, dice: Dice)
    requires Apply(cfg, s, actor, Join(name), dice).Ok?
    ensures var t := Apply(cfg, s, actor, Join(name), dice).value;
            && |t.next.players| == |s.players| + 1 && t.next.players[..|s.players|] == s.players
            && var p := t.next.players[|s.players|];
            && p.name == name && p.id == Pl(p.seat) && p.money == cfg.startingMoney && p.status == Active && !p.ready
            && p.position == 0 && (p.isHost <==> s.players == [])
            && !Taken(s, p.seat) && (forall x: nat :: x < p.seat ==> Taken(s, x))
            && t.next == s.(tick := s.tick + 1, players := t.next.players)
            && t.facts == [PlayerJoined(p.id, name, p.seat, cfg.startingMoney)]
  {
    var seat := FreeSeat(s.players);
    assert IsFreeSeat(s.players, seat);
    forall x: nat ensures Taken(s, x) <==> Used(s.players, x) {}
    var t := Apply(cfg, s, actor, Join(name), dice).value;
    assert t.next.players[|s.players|].seat == seat;
    hide FreeSeat;
  }

  /** Exactly the actor's readiness becomes what was asked for, and exactly that is said. */
  lemma {:induction false} ReadyDoes(cfg: ValidConfig, s: State, actor: PlayerId, ready: bool, dice: Dice)
    requires Apply(cfg, s, actor, Ready(ready), dice).Ok?
    ensures var a, t := IndexOf(s.players, actor), Apply(cfg, s, actor, Ready(ready), dice).value;
            && a < |s.players| && s.players[a].id == actor && OthersSame(s, t.next, a)
            && s.players[a].ready != ready && t.next.players[a].ready == ready
            && t.next.players[a].(ready := s.players[a].ready) == s.players[a]
            && t.next == s.(tick := s.tick + 1, players := t.next.players)
            && t.facts == [ReadyChanged(actor, ready)]
  {
  }

  lemma Started(cfg: ValidConfig, s: State, actor: PlayerId)
    requires DoStart(cfg, s, actor).Ok?
    ensures s.phase == Lobby && s.players != []
  {
    hide CanStart, Actives, ActiveSeats;
  }

  lemma {:induction false} FirstSeat(ps: seq<Player>)
    requires ps != [] && forall j :: 0 <= j < |ps| ==> IsActive(ps[j])
    ensures ActiveSeats(ps) != {}
    ensures exists j :: 0 <= j < |ps| && ps[j].seat == Least(ActiveSeats(ps))
    ensures forall j :: 0 <= j < |ps| ==> Least(ActiveSeats(ps)) <= ps[j].seat
  {
    assert IsActive(ps[0]) && ps[0].seat in ActiveSeats(ps);
    forall j | 0 <= j < |ps| ensures ps[j].seat in ActiveSeats(ps) { assert IsActive(ps[j]); }
    assert Least(ActiveSeats(ps)) in ActiveSeats(ps);
  }

  /** A start leaves everyone as they were and gives the first turn of round one to the lowest seat, on a pristine board. */
  lemma {:induction false} StartDoes(cfg: ValidConfig, s: State, actor: PlayerId, dice: Dice)
    requires Inv(cfg, s) && Apply(cfg, s, actor, Start, dice).Ok?
    ensures var t := Apply(cfg, s, actor, Start, dice).value;
            && t.next == s.(phase := Playing, tick := s.tick + 1, spaces := t.next.spaces, turn := t.next.turn)
            && |t.next.spaces| == |cfg.board|
            && (forall k :: 0 <= k < |cfg.board| ==> t.next.spaces[k] == Space(cfg.board[k], false, NoPlayer, 0))
            && t.next.turn.phase == AwaitRoll && t.next.turn.round == 1 && t.next.turn.streak == 0 && !t.next.turn.award
            && (exists j :: 0 <= j < |s.players| && s.players[j].seat == t.next.turn.seat)
            && (forall j :: 0 <= j < |s.players| ==> t.next.turn.seat <= s.players[j].seat)
            && t.facts == [GameStarted]
  {
    var t := Apply(cfg, s, actor, Start, dice).value;
    AllWait(cfg, s);
    if s.spaces != [] { LobbyBoard(cfg, s); }
    Started(cfg, s, actor);
    FirstSeat(s.players);
    hide Inv, CanStart, Actives, ActiveSeats, Seated, OneHost, NewBoard, HostIndex, Least;
  }

  lemma {:induction false} AllWait(cfg: ValidConfig, s: State)
    requires Inv(cfg, s) && s.phase == Lobby
    ensures Seated(s.players) && OneHost(s.players) && forall j :: 0 <= j < |s.players| ==> IsActive(s.players[j])
    ensures |s.players| <= cfg.maxPlayers
  {
    forall j | 0 <= j < |s.players| ensures IsActive(s.players[j]) { assert Waiting(cfg, s.players[j]); }
  }

  lemma {:induction false} LobbyBoard(cfg: ValidConfig, s: State)
    requires Inv(cfg, s) && s.phase == Lobby && s.spaces != []
    ensures |s.spaces| == |cfg.board|
    ensures forall k :: 0 <= k < |s.spaces| ==> s.spaces[k] == Space(cfg.board[k], false, NoPlayer, 0)
  {
    forall k | 0 <= k < |s.spaces| ensures s.spaces[k] == Space(cfg.board[k], false, NoPlayer, 0) {
      assert DeedOk(ActiveSeats(s.players), s.spaces[k]) && !s.spaces[k].owned;
    }
  }

  // ---- departures ---------------------------------------------------------------------------

  /** Leaving the lobby: everyone else stays as they are, but for who hosts, and only the departure is said. */
  lemma {:induction false} LobbyLeaveDoes(cfg: ValidConfig, s: State, i: Input)
    requires Inv(cfg, s) && s.phase == Lobby && i.action == Leave && Accepted(cfg, s, i)
    ensures var a, t := IndexOf(s.players, i.actor), Apply(cfg, s, i.actor, Leave, i.dice).value;
            && a < |s.players| && s.players[a].id == i.actor && !Sits(t.next, i.actor)
            && t.next == s.(tick := s.tick + 1, players := t.next.players)
            && Faces(t.next.players) == Faces(s.players) - {s.players[a].(isHost := false)}
            && (if s.players[a].isHost then
                  (forall j, k :: 0 <= j < k < |t.next.players| ==> t.next.players[j].seat < t.next.players[k].seat)
                  && forall j :: 0 <= j < |t.next.players| ==> (t.next.players[j].isHost <==> j == 0)
                else t.next.players == s.players[..a] + s.players[a + 1..])
            && t.facts == [PlayerLeft(i.actor)]
  {
    hide Inv, Faces, LeaveLobby, Seated, OneHost;
    var a := IndexOf(s.players, i.actor);
    LobbyAccepts(cfg, s, i);
    HostSuccession(cfg, s, i.actor);
    LobbyRoster(cfg, s);
    LeftBehind(s, a);
    forall q | q in LeaveLobby(s, i.actor).players ensures q.id != i.actor {
      FaceOf(LeaveLobby(s, i.actor).players, s.players, q, a);
    }
  }

  lemma LobbyAccepts(cfg: ValidConfig, s: State, i: Input)
    requires s.phase == Lobby && i.action == Leave && Accepted(cfg, s, i)
    ensures Has(s.players, i.actor)
    ensures var t := Apply(cfg, s, i.actor, i.action, i.dice).value;
            t == Transition(LeaveLobby(s, i.actor).(tick := s.tick + 1), [PlayerLeft(i.actor)])
  {
    hide LeaveLobby;
  }

  lemma {:induction false} LeftBehind(s: State, a: nat)
    requires Seated(s.players) && OneHost(s.players) && a < |s.players|
    ensures var t := LeaveLobby(s, s.players[a].id);
            && t == s.(players := t.players)
            && if s.players[a].isHost then
                 (forall j, k :: 0 <= j < k < |t.players| ==> t.players[j].seat < t.players[k].seat)
                 && forall j :: 0 <= j < |t.players| ==> (t.players[j].isHost <==> j == 0)
               else t.players == s.players[..a] + s.players[a + 1..]
  {
    var remaining := Without(s.players, s.players[a].id);
    IndexUnique(s.players, a);
    WithoutKeeps(s.players, s.players[a].id);
    WithoutOne(s.players, a);
    if s.players[a].isHost {
      HostGone(s.players, a, remaining);
      if remaining != [] { Crowned(remaining); }
    }
    hide Without, BySeat, DistinctSeats, Seated, OneHost;
  }

  lemma {:induction false} FaceOf(qs: seq<Player>, ps: seq<Player>, q: Player, a: nat)
    requires Seated(ps) && a < |ps| && q in qs && Faces(qs) == Faces(ps) - {ps[a].(isHost := false)}
    ensures q.id != ps[a].id
  {
    assert q.(isHost := false) in Faces(qs);
    var p :| p in ps && p.(isHost := false) == q.(isHost := false);
    var k :| 0 <= k < |ps| && ps[k] == p;
    if k != a { assert ps[k].seat != ps[a].seat; }
  }

  lemma {:induction false} WithoutOne(ps: seq<Player>, a: nat)
    requires Seated(ps) && a < |ps|
    ensures Without(ps, ps[a].id) == ps[..a] + ps[a + 1..]
  {
    var front, last := ps[..|ps| - 1], ps[|ps| - 1];
    if a < |ps| - 1 {
      WithoutOne(front, a);
      assert last.id != ps[a].id;
      assert ps[..a] + ps[a + 1..] == front[..a] + front[a + 1..] + [last];
    } else {
      WithoutNone(front, ps[a].id);
      assert ps[..a] + ps[a + 1..] == front;
    }
  }

  lemma {:induction false} WithoutSnoc(front: seq<Player>, last: Player, id: PlayerId)
    ensures Without(front + [last], id) == Without(front, id) + if last.id == id then [] else [last]
  {
    assert (front + [last])[..|front|] == front;
  }

  lemma {:induction false} WithoutNone(ps: seq<Player>, id: PlayerId)
    requires forall k :: 0 <= k < |ps| ==> ps[k].id != id
    ensures Without(ps, id) == ps
  {
    if ps == [] {
    } else {
      hide Without;
      var front, last := ps[..|ps| - 1], ps[|ps| - 1];
      WithoutNone(front, id);
      WithoutSnoc(front, last, id);
      assert ps == front + [last];
    }
  }

  /** Nobody remaining having hosted, only the first of them in seat order does. */
  lemma {:induction false} Crowned(remaining: seq<Player>)
    requires DistinctSeats(remaining) && remaining != [] && forall k :: 0 <= k < |remaining| ==> !remaining[k].isHost
    ensures var sorted := BySeat(remaining);
            && sorted != [] &&
            var qs := sorted[0 := sorted[0].(isHost := true)];
            && (forall j, k :: 0 <= j < k < |qs| ==> qs[j].seat < qs[k].seat)
            && forall j :: 0 <= j < |qs| ==> (qs[j].isHost <==> j == 0)
  {
    BySeatOrders(remaining);
    var sorted := BySeat(remaining);
    forall k | 0 <= k < |sorted| ensures !sorted[k].isHost { assert sorted[k] in remaining; }
    hide BySeat;
  }

  /**
   Leaving a running match: the leaver is out and has given up their deeds, unless they already were; the match ends exactly
   if only one other was left, who has won, and otherwise the turn goes on to the next active seat if it was the leaver's.
   */
  lemma {:induction false} DepartureDoes(cfg: ValidConfig, s: State, i: Input)
    requires Inv(cfg, s) && s.phase == Playing && i.action == Leave && Accepted(cfg, s, i)
    ensures var a, t := IndexOf(s.players, i.actor), Apply(cfg, s, i.actor, Leave, i.dice).value;
            && a < |s.players| && s.players[a].id == i.actor
            && var playing := s.players[a].status == Active;
               var ends, theirs := playing && |ActiveSeats(s.players)| == 2, s.players[a].seat == s.turn.seat;
            && OthersSame(s, t.next, a) && t.next.players[a] == s.players[a].(status := Eliminated)
            && (if playing then GivenUp(s.spaces, t.next.spaces, i.actor) else t.next.spaces == s.spaces)
            && (if theirs && !ends then NextInOrder(ActiveSeats(t.next.players), s.turn.seat, s.turn.round, t.next.turn)
                else t.next.turn == s.turn)
            && (if ends then
                  t.next.phase == Ended && t.next.endReason == ByLastStanding
                  && exists j :: 0 <= j < |s.players| && j != a && IsActive(s.players[j]) && t.next.winner == Some(s.players[j].id)
                else t.next.phase == Playing && t.next.winner == None && t.next.endReason == NoReason)
            && t.next.tick == s.tick + 1
            && t.facts == [PlayerLeft(i.actor)]
                          + (if playing then [PlayerBankrupt(i.actor, VoluntaryLeave, NoPlayer, 0, OwnedIds(s.spaces, i.actor)),
                                              PlayerEliminated(i.actor, VoluntaryLeave)] else [])
                          + if ends then [GameEnded(t.next.winner, ByLastStanding)]
                            else if theirs then [TurnAdvanced(t.next.turn.seat, t.next.turn.round)] else []
  {
    hide Inv, Core, Seated, Actives, ActiveSeats, EndIfShort, Out, GoneFacts, NextTurn, NextInOrder, GivenUp, OwnedIds;
    InPlay(cfg, s);
    InPlayUndecided(cfg, s);
    var a := IndexOf(s.players, i.actor);
    LeaverStatus(cfg, s, a);
    HolderOf(s.players, a);
    OutLeaves(s, a);
    LeaverCounts(cfg, s, a);
    ShortEnds(cfg, s, Out(s, a), a);
    if ActiveSeats(Out(s, a).players) != {} { TurnAfterIsNext(ActiveSeats(Out(s, a).players), s.turn.seat, s.turn.round); }
  }

  lemma {:induction false} LeaverStatus(cfg: ValidConfig, s: State, a: nat)
    requires Inv(cfg, s) && a < |s.players|
    ensures s.players[a].status == Active || s.players[a].status == Eliminated
  {
    assert PlayerOk(cfg, s, s.players[a]);
  }

  lemma {:induction false} OutLeaves(s: State, a: nat)
    requires a < |s.players| && s.players[a].status != Disconnected
    ensures var o, p := Out(s, a), s.players[a];
            && o == s.(players := o.players, spaces := o.spaces) && OthersSame(s, o, a)
            && o.players[a] == p.(status := Eliminated)
            && (if p.status == Active then GivenUp(s.spaces, o.spaces, p.id) else o.spaces == s.spaces)
            && GoneFacts(s, a) == if p.status == Active
                                  then [PlayerBankrupt(p.id, VoluntaryLeave, NoPlayer, 0, OwnedIds(s.spaces, p.id)),
                                        PlayerEliminated(p.id, VoluntaryLeave)] else []
  {
    hide OwnedIds;
  }

  lemma {:induction false} LeaverCounts(cfg: ValidConfig, s: State, a: nat)
    requires Inv(cfg, s) && s.phase == Playing && a < |s.players|
    ensures var left := ActiveSeats(Out(s, a).players);
            && |Actives(Out(s, a).players)| == |left| && left != {}
            && |left| == |ActiveSeats(s.players)| - (if IsActive(s.players[a]) then 1 else 0)
            && Seated(Out(s, a).players)
  {
    InPlay(cfg, s);
    HolderOf(s.players, a);
    EliminateSeat(s.players, a);
    ActivesCounted(Out(s, a).players);
    var seats, seat := ActiveSeats(s.players), s.players[a].seat;
    hide ActiveSeats, Actives, Inv, Seated;
    assert seat in seats ==> |seats - {seat}| == |seats| - 1;
  }

  /** One player left ends a match with them as its winner; two or more go on. */
  lemma {:induction false} ShortEnds(cfg: ValidConfig, s: State, o: State, a: nat)
    requires Inv(cfg, s) && s.phase == Playing && a < |s.players| && Seated(o.players)
    requires o == s.(players := o.players, spaces := o.spaces) && OthersSame(s, o, a)
    requires o.players[a] == s.players[a].(status := Eliminated)
    requires |Actives(o.players)| == |ActiveSeats(o.players)| && ActiveSeats(o.players) != {}
    ensures var e := EndIfShort(o);
            if |ActiveSeats(o.players)| >= 2 then e == Transition(o, [])
            else
              && e.next == o.(phase := Ended, winner := e.next.winner, endReason := ByLastStanding)
              && e.facts == [GameEnded(e.next.winner, ByLastStanding)]
              && exists j :: 0 <= j < |s.players| && j != a && IsActive(s.players[j]) && e.next.winner == Some(s.players[j].id)
  {
    hide Inv, ActiveSeats;
    ActivesSit(o.players);
    if |ActiveSeats(o.players)| < 2 {
      var last := Actives(o.players)[0];
      ActivesMembers(o.players, last);
      var j :| 0 <= j < |o.players| && o.players[j] == last;
      assert j != a && s.players[j] == last;
    }
  }

  // ---- how a match ends -----------------------------------------------------------------------

  /** The reason a match of this configuration gives for ending with so many players left. */
  function ReasonFor(cfg: ValidConfig, left: nat): EndReason {
    if left < 2 then ByLastStanding else if cfg.victory.kind == TargetWealth then ByTargetWealth else ByRoundLimit
  }

  lemma {:induction false} EvaluateReason(cfg: ValidConfig, x: State)
    requires Mid(cfg, x)
    ensures var e := Evaluate(cfg, x).next; e.phase == Ended ==> e.endReason == ReasonFor(cfg, |ActiveSeats(e.players)|)
  {
    SoleActive(x.players);
    hide Core, TargetReached, Richest, Actives, ActiveSeats, TurnOk;
  }

  lemma {:induction false} StepReason(cfg: ValidConfig, s: State, i: Input)
    requires Inv(cfg, s) && s.phase == Playing && Accepted(cfg, s, i)
    ensures var t := Apply(cfg, s, i.actor, i.action, i.dice).value.next;
            t.phase == Ended ==> t.endReason == ReasonFor(cfg, |ActiveSeats(t.players)|)
  {
    if IsBoardAction(i.action) {
      var x, facts := BoardMid(cfg, s, i.actor, i.action, i.dice);
      EvaluateReason(cfg, x);
      hide Inv, RollOf, Evaluate, ActiveSeats;
    } else {
      OnlyLeaves(cfg, s, i);
      DepartureDoes(cfg, s, i);
      LeaverCounts(cfg, s, IndexOf(s.players, i.actor));
      var a := IndexOf(s.players, i.actor);
      LeaverStatus(cfg, s, a);
      OutLeaves(s, a);
      SameOut(s, Apply(cfg, s, i.actor, i.action, i.dice).value.next, Out(s, a), a);
      hide Inv, Apply, Out, ActiveSeats;
    }
  }

  lemma SameOut(s: State, t: State, o: State, a: nat)
    requires a < |s.players| && OthersSame(s, t, a) && OthersSame(s, o, a) && t.players[a] == o.players[a]
    ensures t.players == o.players
  {
  }

  lemma OnlyLeaves(cfg: ValidConfig, s: State, i: Input)
    requires s.phase == Playing && Accepted(cfg, s, i) && !IsBoardAction(i.action)
    ensures i.action == Leave
  {
  }

  /** In every run, a match that is over gives exactly the reason that holds first in the order of priority. */
  lemma {:induction false} EndReasonIs(cfg: ValidConfig, s: State, inputs: seq<Input>)
    requires Initial(cfg, s)
    ensures var t := After(cfg, s, inputs); t.phase == Ended ==> t.endReason == ReasonFor(cfg, |ActiveSeats(t.players)|)
  {
    InitialInv(cfg, s);
    if inputs == [] {
    } else {
      var front, last := inputs[..|inputs| - 1], inputs[|inputs| - 1];
      EndReasonIs(cfg, s, front);
      RunInv(cfg, s, front);
      var t := After(cfg, s, front);
      if t.phase == Ended {
        EndedIsFinal(cfg, t, last);
      } else if t.phase == Playing && Accepted(cfg, t, last) {
        StepReason(cfg, t, last);
      } else if Accepted(cfg, t, last) {
        LobbyEndsNothing(cfg, t, last);
      }
      hide Inv, Apply, ActiveSeats;
    }
  }

  lemma LobbyEndsNothing(cfg: ValidConfig, s: State, i: Input)
    requires Inv(cfg, s) && s.phase != Playing && s.phase != Ended && Accepted(cfg, s, i)
    ensures Apply(cfg, s, i.actor, i.action, i.dice).value.next.phase != Ended
  {
    hide Core, LobbyOk;
  }

  // ---- readiness over runs ------------------------------------------------------------------------

  /** What the log last said of somebody's readiness since they joined. */
  function ReadySaid(log: seq<Fact>, id: PlayerId): bool {
    if log == [] then false
    else
      var front := log[..|log| - 1];
      match log[|log| - 1]
      case ReadyChanged(x, ready) => if x == id then ready else ReadySaid(front, id)
      case PlayerJoined(x, _, _, _) => if x == id then false else ReadySaid(front, id)
      case _ => ReadySaid(front, id)
  }

  predicate Quiet(facts: seq<Fact>) { forall f :: f in facts ==> !f.ReadyChanged? && !f.PlayerJoined? }

  lemma {:induction false} QuietSaid(log: seq<Fact>, facts: seq<Fact>, id: PlayerId)
    requires Quiet(facts)
    ensures ReadySaid(log + facts, id) == ReadySaid(log, id)
  {
    if facts == [] {
      assert log + facts == log;
    } else {
      var front := facts[..|facts| - 1];
      assert (log + facts)[..|log + facts| - 1] == log + front;
      assert facts[|facts| - 1] in facts;
      QuietSaid(log, front, id);
    }
  }

  lemma {:induction false} OneSaid(log: seq<Fact>, f: Fact, id: PlayerId)
    ensures ReadySaid(log + [f], id) == match f
                                        case ReadyChanged(x, ready) => if x == id then ready else ReadySaid(log, id)
                                        case PlayerJoined(x, _, _, _) => if x == id then false else ReadySaid(log, id)
                                        case _ => ReadySaid(log, id)
  {
    assert (log + [f])[..|log + [f]| - 1] == log;
  }

  ghost predicate AsSaid(s: State, log: seq<Fact>) { forall p :: p in s.players ==> p.ready == ReadySaid(log, p.id) }

  /** Everyone is somebody who was there, as ready as then. */
  ghost predicate Carried(s: State, t: State) {
    forall q :: q in t.players ==> exists p :: p in s.players && p.id == q.id && p.ready == q.ready
  }

  predicate InPlace(s: State, t: State) {
    |t.players| == |s.players|
    && forall k :: 0 <= k < |s.players| ==> t.players[k].id == s.players[k].id && t.players[k].ready == s.players[k].ready
  }

  lemma {:induction false} InPlaceCarried(s: State, t: State)
    requires InPlace(s, t)
    ensures Carried(s, t)
  {
    forall q | q in t.players ensures exists p :: p in s.players && p.id == q.id && p.ready == q.ready {
      var k :| 0 <= k < |t.players| && t.players[k] == q;
      assert s.players[k] in s.players && s.players[k].id == q.id && s.players[k].ready == q.ready;
    }
  }

  /** Whatever is not a join or a toggle leaves everybody's readiness alone and does not speak of it. */
  lemma {:induction false} QuietKeeps(cfg: ValidConfig, s: State, i: Input)
    requires Inv(cfg, s) && Accepted(cfg, s, i) && !i.action.Join? && !i.action.Ready?
    ensures var t := Apply(cfg, s, i.actor, i.action, i.dice).value; Quiet(t.facts) && Carried(s, t.next)
  {
    BoardActionPlays(cfg, s, i);
    hide Inv, Apply, Carried, InPlace, Quiet;
    var t := Apply(cfg, s, i.actor, i.action, i.dice).value;
    if s.phase == Lobby && i.action == Leave {
      LobbyLeaveKeeps(cfg, s, i);
    } else {
      if i.action == Roll {
        RollKeepsReady(cfg, s, i);
      } else {
        OthersKeepReady(cfg, s, i);
      }
      InPlaceCarried(s, t.next);
    }
  }

  lemma {:induction false} RollKeepsReady(cfg: ValidConfig, s: State, i: Input)
    requires Inv(cfg, s) && Accepted(cfg, s, i) && i.action == Roll
    ensures var t := Apply(cfg, s, i.actor, i.action, i.dice).value; Quiet(t.facts) && InPlace(s, t.next)
  {
    hide Inv, Apply, DueAt, CreditorAt, RollsTo, LandingWords;
    RollPays(cfg, s, i);
    RollSpeaks(cfg, s, i);
    var a, t := IndexOf(s.players, i.actor), Apply(cfg, s, i.actor, Roll, i.dice).value;
    LandingQuiet(There(cfg, s, a, i.dice), a, RollsTo(s, a, i.dice).0, t.next.turn);
  }

  lemma LandingQuiet(s: State, i: nat, to: nat, turn: Turn)
    requires i < |s.players| && to < |s.spaces|
    ensures Quiet(LandingWords(s, i, to, turn))
  {
  }

  lemma {:induction false} OthersKeepReady(cfg: ValidConfig, s: State, i: Input)
    requires Inv(cfg, s) && Accepted(cfg, s, i) && !i.action.Join? && !i.action.Ready? && i.action != Roll
    requires i.action == Leave ==> s.phase == Playing
    ensures var t := Apply(cfg, s, i.actor, i.action, i.dice).value; Quiet(t.facts) && InPlace(s, t.next)
  {
    hide Inv, Apply, NextInOrder, ActiveSeats, OwnedIds, GivenUp, Worth;
    match i.action {
      case Leave => DepartureDoes(cfg, s, i);
      case Start => StartDoes(cfg, s, i.actor, i.dice);
      case Buy => BuyDoes(cfg, s, i);
      case Decline => DeclineDoes(cfg, s, i);
      case EndTurn => EndTurnDoes(cfg, s, i);
      case _ =>
    }
  }

  lemma {:induction false} LobbyLeaveKeeps(cfg: ValidConfig, s: State, i: Input)
    requires Inv(cfg, s) && s.phase == Lobby && i.action == Leave && Accepted(cfg, s, i)
    ensures var t := Apply(cfg, s, i.actor, i.action, i.dice).value; Quiet(t.facts) && Carried(s, t.next)
  {
    hide Apply, Inv, Faces, Sits, Carried;
    LobbyLeaveDoes(cfg, s, i);
    var t := Apply(cfg, s, i.actor, i.action, i.dice).value;
    FacesCarried(s, t.next, s.players[IndexOf(s.players, i.actor)].(isHost := false));
  }

  lemma {:induction false} FacesCarried(s: State, t: State, gone: Player)
    requires Faces(t.players) == Faces(s.players) - {gone}
    ensures Carried(s, t)
  {
    forall q | q in t.players ensures exists p :: p in s.players && p.id == q.id && p.ready == q.ready {
      assert q.(isHost := false) in Faces(t.players);
      var p :| p in s.players && p.(isHost := false) == q.(isHost := false);
      assert q.(isHost := false).id == q.id && p.(isHost := false).id == p.id;
      assert q.(isHost := false).ready == q.ready && p.(isHost := false).ready == p.ready;
    }
  }

  /** Only a running match accepts a board action, and only a running match or a lobby a departure. */
  lemma BoardActionPlays(cfg: ValidConfig, s: State, i: Input)
    requires Inv(cfg, s) && Accepted(cfg, s, i)
    ensures IsBoardAction(i.action) ==> s.phase == Playing
    ensures i.action == Leave ==> s.phase == Playing || s.phase == Lobby
  {
    hide RollOf, Evaluate, Core, LobbyOk, PlayingOk;
  }

  lemma {:induction false} StepSaid(cfg: ValidConfig, s: State, i: Input, log: seq<Fact>)
    requires Inv(cfg, s) && AsSaid(s, log)
    ensures AsSaid(Step(cfg, s, i).next, log + Step(cfg, s, i).facts)
  {
    hide Inv, Apply, ReadySaid;
    if !Accepted(cfg, s, i) {
      assert log + [] == log;
    } else {
      var t := Apply(cfg, s, i.actor, i.action, i.dice).value;
      match i.action {
        case Join(name) => JoinSaid(cfg, s, i, log);
        case Ready(ready) => ToggleSaid(cfg, s, i, log);
        case _ =>
          QuietKeeps(cfg, s, i);
          forall q | q in t.next.players ensures q.ready == ReadySaid(log + t.facts, q.id) {
            QuietSaid(log, t.facts, q.id);
          }
      }
    }
  }

  lemma {:induction false} JoinSaid(cfg: ValidConfig, s: State, i: Input, log: seq<Fact>)
    requires Inv(cfg, s) && AsSaid(s, log) && i.action.Join? && Accepted(cfg, s, i)
    ensures AsSaid(Step(cfg, s, i).next, log + Step(cfg, s, i).facts)
  {
    RosterSeated(cfg, s);
    JoinDoes(cfg, s, i.actor, i.action.name, i.dice);
    hide Inv, Apply, ReadySaid;
    var t := Apply(cfg, s, i.actor, i.action, i.dice).value;
    assert t.next.players == s.players + [t.next.players[|s.players|]];
    forall q | q in t.next.players ensures q.ready == ReadySaid(log + t.facts, q.id) {
      OneSaid(log, t.facts[0], q.id);
      if q in s.players {
        var k :| 0 <= k < |s.players| && s.players[k] == q;
        assert Taken(s, q.seat);
      }
    }
  }

  lemma RosterSeated(cfg: ValidConfig, s: State)
    requires Inv(cfg, s)
    ensures Seated(s.players)
  {
  }

  lemma {:induction false} ToggleSaid(cfg: ValidConfig, s: State, i: Input, log: seq<Fact>)
    requires Inv(cfg, s) && AsSaid(s, log) && i.action.Ready? && Accepted(cfg, s, i)
    ensures AsSaid(Step(cfg, s, i).next, log + Step(cfg, s, i).facts)
  {
    RosterSeated(cfg, s);
    ReadyDoes(cfg, s, i.actor, i.action.ready, i.dice);
    var a := IndexOf(s.players, i.actor);
    AloneWith(s.players, a);
    hide Inv, Apply, ReadySaid, Seated;
    var t := Apply(cfg, s, i.actor, i.action, i.dice).value;
    forall q | q in t.next.players ensures q.ready == ReadySaid(log + t.facts, q.id) {
      OneSaid(log, t.facts[0], q.id);
      var k :| 0 <= k < |t.next.players| && t.next.players[k] == q;
      assert s.players[k] in s.players && s.players[k].id == q.id;
    }
  }

  /** In every run everyone is ready exactly as the log last said of them since they joined, and not if it said nothing. */
  lemma {:induction false} ReadyAsSaid(cfg: ValidConfig, s: State, inputs: seq<Input>)
    requires Initial(cfg, s)
    ensures AsSaid(After(cfg, s, inputs), Log(cfg, s, inputs))
  {
    InitialInv(cfg, s);
    if inputs == [] {
    } else {
      var front := inputs[..|inputs| - 1];
      ReadyAsSaid(cfg, s, front);
      RunInv(cfg, s, front);
      hide Inv, Step, AsSaid;
      StepSaid(cfg, After(cfg, s, front), inputs[|inputs| - 1], Log(cfg, s, front));
    }
  }

  // ---- board order ---------------------------------------------------------------------------------

  ghost predicate Rising(at: seq<nat>) { forall j, k :: 0 <= j < k < |at| ==> at[j] < at[k] }

  ghost predicate AllTheirs(spaces: seq<Space>, id: PlayerId, at: seq<nat>) {
    forall j :: 0 <= j < |at| ==> at[j] < |spaces| && spaces[at[j]].owned && spaces[at[j]].owner == id
  }

  ghost predicate NoneMissed(spaces: seq<Space>, id: PlayerId, at: seq<nat>) {
    forall k :: 0 <= k < |spaces| && spaces[k].owned && spaces[k].owner == id ==> exists j :: 0 <= j < |at| && at[j] == k
  }

  /** The places of what somebody owns, rising. */
  ghost predicate PlacesOf(spaces: seq<Space>, id: PlayerId, at: seq<nat>) {
    Rising(at) && AllTheirs(spaces, id, at) && NoneMissed(spaces, id, at)
  }

  /** One more space on the board: listed last, if it is theirs. */
  lemma {:induction false} OnePlaceMore(spaces: seq<Space>, id: PlayerId, at: seq<nat>)
    requires spaces != [] && PlacesOf(spaces[..|spaces| - 1], id, at)
    ensures PlacesOf(spaces, id, if OwnedBy(spaces[|spaces| - 1], id) then at + [|spaces| - 1] else at)
  {
    var n := |spaces| - 1;
    AllTheirsMore(spaces, id, at);
    NoneMissedMore(spaces, id, at);
    RisingMore(at, n);
    hide Rising, AllTheirs, NoneMissed;
  }

  lemma {:induction false} AllTheirsMore(spaces: seq<Space>, id: PlayerId, at: seq<nat>)
    requires spaces != [] && AllTheirs(spaces[..|spaces| - 1], id, at)
    ensures AllTheirs(spaces, id, if OwnedBy(spaces[|spaces| - 1], id) then at + [|spaces| - 1] else at)
    ensures forall j :: 0 <= j < |at| ==> at[j] < |spaces| - 1
  {
    forall j | 0 <= j < |at| ensures at[j] < |spaces| && spaces[at[j]] == spaces[..|spaces| - 1][at[j]] {}
  }

  lemma RisingMore(at: seq<nat>, n: nat)
    requires Rising(at) && forall j :: 0 <= j < |at| ==> at[j] < n
    ensures Rising(at + [n])
  {
  }

  lemma {:induction false} NoneMissedMore(spaces: seq<Space>, id: PlayerId, at: seq<nat>)
    requires spaces != [] && NoneMissed(spaces[..|spaces| - 1], id, at)
    ensures NoneMissed(spaces, id, if OwnedBy(spaces[|spaces| - 1], id) then at + [|spaces| - 1] else at)
  {
    var n := |spaces| - 1;
    var more := if OwnedBy(spaces[n], id) then at + [n] else at;
    forall k | 0 <= k < |spaces| && spaces[k].owned && spaces[k].owner == id
      ensures exists j :: 0 <= j < |more| && more[j] == k
    {
      if k < n {
        assert spaces[..n][k] == spaces[k];
        var j :| 0 <= j < |at| && at[j] == k;
        assert more[j] == k;
      } else {
        assert more[|at|] == n;
      }
    }
  }

  /** These ids and these spaces are those at these places. */
  ghost predicate Lists(spaces: seq<Space>, at: seq<nat>, ids: seq<string>, held: seq<Space>) {
    |ids| == |held| == |at|
    && forall j :: 0 <= j < |at| ==> at[j] < |spaces| && held[j] == spaces[at[j]] && ids[j] == spaces[at[j]].def.id
  }

  lemma {:induction false} OneMoreListed(spaces: seq<Space>, at: seq<nat>, ids: seq<string>, held: seq<Space>)
    requires spaces != [] && Lists(spaces[..|spaces| - 1], at, ids, held)
    ensures Lists(spaces, at, ids, held)
    ensures var n := |spaces| - 1; Lists(spaces, at + [n], ids + [spaces[n].def.id], held + [spaces[n]])
  {
    forall j | 0 <= j < |at| ensures spaces[..|spaces| - 1][at[j]] == spaces[at[j]] {}
  }

  /** What a player owns is listed, and what they give up named, in board order, all of it and nothing else. */
  lemma {:induction false} NamedInBoardOrder(spaces: seq<Space>, id: PlayerId) returns (at: seq<nat>)
    ensures PlacesOf(spaces, id, at) && Lists(spaces, at, OwnedIds(spaces, id), Properties(spaces, id))
  {
    if spaces == [] {
      at := [];
    } else {
      hide PlacesOf, Lists;
      var n := |spaces| - 1;
      var before := NamedInBoardOrder(spaces[..n], id);
      OnePlaceMore(spaces, id, before);
      OneMoreListed(spaces, before, OwnedIds(spaces[..n], id), Properties(spaces[..n], id));
      at := if OwnedBy(spaces[n], id) then before + [n] else before;
      assert OwnedIds(spaces[..n], id) + [] == OwnedIds(spaces[..n], id);
      assert Properties(spaces[..n], id) + [] == Properties(spaces[..n], id);
    }
  }
}
