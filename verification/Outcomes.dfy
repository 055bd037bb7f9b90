/** What a roll, a decision and a departure are for, stated without the functions that compute them. */
module Outcomes {
  import opened Config
  import opened Domain
  import opened Seats
  import opened Rules
  import opened Roster
  import opened Invariant
  import opened Runs
  import opened Economy

  // ---- victory ----------------------------------------------------------------

  /** The empty-table end is never reached, and nobody plays on past the target. */
  lemma {:induction false} VictoryIsSound(cfg: ValidConfig, s: State, inputs: seq<Input>)
    requires Initial(cfg, s)
    ensures var t := After(cfg, s, inputs);
            && t.phase != Interrupted
            && (t.phase != Ended <==> t.winner == None)
            && (t.phase == Playing && cfg.victory.kind == TargetWealth ==>
                  forall i :: 0 <= i < |t.players| && IsActive(t.players[i]) ==> Worth(t, i) < cfg.victory.targetWealth)
            && (t.phase == Ended ==>
                  exists i: nat :: Surpasses(t, i) && t.winner == Some(t.players[i].id) && t.endReason != ByShortage)
  {
    InitialInv(cfg, s);
    RunInv(cfg, s, inputs);
    var t := After(cfg, s, inputs);
    if t.phase == Ended { RichestSurpasses(cfg, t); }
    hide Core, TurnOk, IsRichest, Surpasses;
  }

  /** Active, and worth more than every other active player, or as much from a lower seat. */
  ghost predicate Surpasses(s: State, i: nat) {
    && i < |s.players| && s.players[i].status == Active
    && forall j :: 0 <= j < |s.players| && s.players[j].status == Active && j != i ==>
         Worth(s, j) < Worth(s, i) || (Worth(s, j) == Worth(s, i) && s.players[i].seat < s.players[j].seat)
  }

  lemma {:induction false} RichestSurpasses(cfg: ValidConfig, s: State)
    requires Inv(cfg, s) && s.phase == Ended
    ensures exists i: nat :: Surpasses(s, i) && s.winner == Some(s.players[i].id) && s.endReason != ByShortage
  {
    assert Seated(s.players) && Decided(cfg, s);
    var i: nat :| IsRichest(s, i) && s.winner == Some(s.players[i].id) && s.endReason != ByShortage;
    forall j | 0 <= j < |s.players| && s.players[j].status == Active && j != i
      ensures Worth(s, j) < Worth(s, i) || (Worth(s, j) == Worth(s, i) && s.players[i].seat < s.players[j].seat)
    {
      assert IsActive(s.players[j]) && Beats(s, i, j);
    }
    assert Surpasses(s, i);
  }

  /** Whoever won stays the winner: nothing after the end changes anything. */
  lemma {:induction false} WinnerIsSetOnce(cfg: ValidConfig, s: State, inputs: seq<Input>, more: seq<Input>)
    requires After(cfg, s, inputs).phase == Ended
    ensures After(cfg, s, inputs + more) == After(cfg, s, inputs)
  {
    if more == [] {
      assert inputs + more == inputs;
    } else {
      var all := inputs + more;
      assert all[..|all| - 1] == inputs + more[..|more| - 1];
      WinnerIsSetOnce(cfg, s, inputs, more[..|more| - 1]);
      EndedIsFinal(cfg, After(cfg, s, inputs), more[|more| - 1]);
    }
  }

  // ---- what a roll leads to -------------------------------------------------------

  /** The holder will roll again this turn, now or after the pending decision. */
  predicate WillRollAgain(t: Turn) {
    t.phase == AwaitRoll || (t.phase == AwaitBuyDecision && t.award)
  }

  predicate EarnsExtra(cfg: ValidConfig, t: Turn, dice: Dice) {
    cfg.rules.doublesExtraRoll && dice.d1 == dice.d2 && t.streak + 1 < cfg.rules.maxDoublesStreak
  }

  /** Player i stands on an unowned property they can pay for. */
  predicate CanAffordHere(s: State, i: nat)
    requires i < |s.players|
  {
    var at := s.players[i].position;
    0 <= at < |s.spaces| && s.spaces[at].def.kind == Property && !s.spaces[at].owned
    && s.spaces[at].def.price <= s.players[i].money
  }

  /** A landing moves nobody, and offers a purchase exactly where one can be paid for. */
  lemma {:induction false} LandingOffers(cfg: ValidConfig, s: State, i: nat)
    requires i < |s.players| && Landable(cfg, s, i)
    ensures ResolveLanding(s, i, s.players[i].position).Ok?
    ensures var l := ResolveLanding(s, i, s.players[i].position).value;
            && |l.next.players| == |s.players|
            && (l.bankrupt ==> !IsActive(l.next.players[i]))
            && (!l.bankrupt ==>
                  && l.next.turn == s.turn && l.next.players[i].position == s.players[i].position
                  && (l.buyDecision <==> CanAffordHere(l.next, i)))
  {
    hide Landable, LandingOk, Bankrupt;
    LandingMid(cfg, s, i);
    assert 0 <= s.players[i].position < |s.spaces| by { QuietLanding(cfg, s, i); }
    var space := s.spaces[s.players[i].position];
    BankruptGoes(s, i, NoPlayer, space.def.amount, BankruptcyTax);
    BankruptGoes(s, i, space.owner, space.def.rent, BankruptcyRent);
  }

  lemma BankruptGoes(s: State, i: nat, creditor: PlayerId, owed: int, cause: Cause)
    requires i < |s.players|
    ensures var l := Bankrupt(s, i, creditor, owed, cause);
            l.bankrupt && |l.next.players| == |s.players| && !IsActive(l.next.players[i])
  {
  }

  /** A landing leaves everyone in their seat, the roller where they stand, and the board as configured. */
  lemma LandingKeepsPlaces(s: State, i: nat, to: int)
    requires i < |s.players| && ResolveLanding(s, i, to).Ok?
    ensures var t := ResolveLanding(s, i, to).value.next;
            && t.phase == s.phase && SameSeats(s.players, t.players) && t.players[i].position == s.players[i].position
            && |t.spaces| == |s.spaces| && forall k :: 0 <= k < |s.spaces| ==> t.spaces[k].def == s.spaces[k].def
  {
  }

  /** Looking at the victory conditions ends the match or leaves it alone. */
  lemma ClosingEndsOrNot(cfg: ValidConfig, s: State)
    ensures var t := Evaluate(cfg, s).next; t.players == s.players && (t.phase == Playing ==> t == s)
  {
  }

  /**
   Of a roller who stays solvent in a match that goes on: they roll again exactly if doubles below the cap earned
   it, and are offered a purchase exactly if they now stand on an unowned property they can pay for.
   */
  lemma {:induction false} RollLeadsTo(cfg: ValidConfig, s: State, actor: PlayerId, dice: Dice)
    requires Inv(cfg, s) && TurnError(s, actor, AwaitRoll) == None
    ensures var i, r := IndexOf(s.players, actor), Apply(cfg, s, actor, Roll, dice);
            && i < |s.players| && r.Ok? && |r.value.next.players| == |s.players|
            && var t := r.value.next;
              t.phase == Playing && IsActive(t.players[i]) ==>
                && t.turn.seat == s.turn.seat
                && (WillRollAgain(t.turn) <==> EarnsExtra(cfg, s.turn, dice))
                && (t.turn.phase == AwaitBuyDecision <==> CanAffordHere(t, i))
                && t.players[i].position == (s.players[i].position + dice.d1 + dice.d2) % |s.spaces|
  {
    hide RollOf, Landable, Inv, EarnsExtra, WillRollAgain, TurnError;
    HolderLands(cfg, s, actor);
    RollOfLeadsTo(cfg, s, IndexOf(s.players, actor), dice);
  }

  lemma {:induction false} StandsOnBoard(cfg: ValidConfig, s: State, i: nat)
    requires i < |s.players| && Landable(cfg, s, i)
    ensures s.phase == Playing && 0 <= s.players[i].position < |s.spaces|
  {
    QuietLanding(cfg, s, i);
  }

  lemma {:induction false} RollOfLeadsTo(cfg: ValidConfig, s: State, i: nat, dice: Dice)
    requires i < |s.players| && Landable(cfg, s, i)
    ensures var r := RollOf(cfg, s, i, dice);
            && r.Ok? && |r.value.next.players| == |s.players|
            && var t := r.value.next;
              t.phase == Playing && IsActive(t.players[i]) ==>
                && t.turn.seat == s.turn.seat
                && (WillRollAgain(t.turn) <==> EarnsExtra(cfg, s.turn, dice))
                && (t.turn.phase == AwaitBuyDecision <==> CanAffordHere(t, i))
                && t.players[i].position == (s.players[i].position + dice.d1 + dice.d2) % |s.spaces|
  {
    hide Landable, ResolveLanding, Evaluate, Walk, MoveFacts, GoBonus;
    StandsOnBoard(cfg, s, i);
    WalkIsDivMod(s.players[i].position, dice.d1 + dice.d2, |s.spaces|);
    var moved := Moved(cfg, s, i, dice.d1 + dice.d2);
    MovedLandable(cfg, s, i, dice.d1 + dice.d2);
    LandingOffers(cfg, moved, i);
    var l := ResolveLanding(moved, i, moved.players[i].position).value;
    ClosingEndsOrNot(cfg, Settled(cfg, l, Streak(cfg, s.turn.streak, dice)));
  }

  /** A purchase or a refusal keeps the extra roll the holder was promised, and takes none they were not. */
  lemma {:induction false} DecisionKeepsPromise(cfg: ValidConfig, s: State, actor: PlayerId, action: Action, dice: Dice)
    requires Inv(cfg, s) && (action == Buy || action == Decline) && Apply(cfg, s, actor, action, dice).Ok?
    ensures var t := Apply(cfg, s, actor, action, dice).value.next;
            t.phase == Playing ==> t.turn.seat == s.turn.seat && t.turn.phase != AwaitBuyDecision
                                   && (WillRollAgain(t.turn) <==> WillRollAgain(s.turn))
  {
    hide Inv, TargetReached;
  }

  // ---- host succession ------------------------------------------------------------

  /** The players, apart from who hosts. */
  ghost function Faces(ps: seq<Player>): set<Player> { set p | p in ps :: p.(isHost := false) }

  lemma {:induction false} FacesCrowned(ps: seq<Player>)
    requires ps != []
    ensures Faces(ps[0 := ps[0].(isHost := true)]) == Faces(ps)
  {
    var qs := ps[0 := ps[0].(isHost := true)];
    forall p | p in ps ensures p.(isHost := false) in Faces(qs) {
      var k :| 0 <= k < |ps| && ps[k] == p;
      assert qs[k] in qs && qs[k].(isHost := false) == p.(isHost := false);
    }
    forall q | q in qs ensures q.(isHost := false) in Faces(ps) {
      var k :| 0 <= k < |qs| && qs[k] == q;
      assert ps[k] in ps && ps[k].(isHost := false) == q.(isHost := false);
    }
  }

  lemma {:induction false} FacesRemaining(ps: seq<Player>, i: nat)
    requires Seated(ps) && i < |ps|
    ensures Faces(Without(ps, ps[i].id)) == Faces(ps) - {ps[i].(isHost := false)}
  {
    WithoutKeeps(ps, ps[i].id);
    forall p | p in ps && p.id == ps[i].id ensures p == ps[i] {
      var k :| 0 <= k < |ps| && ps[k] == p;
      assert k == i;
    }
  }

  /**
   Leaving the lobby takes the leaver out and changes nobody else but perhaps the host: a leaving host is succeeded
   by the lowest remaining seat, and any other leaver leaves the host as they were.
   */
  lemma {:induction false} HostSuccession(cfg: ValidConfig, s: State, actor: PlayerId)
    requires Inv(cfg, s) && s.phase == Lobby && Has(s.players, actor)
    ensures var left, qs := s.players[IndexOf(s.players, actor)], LeaveLobby(s, actor).players;
            && Faces(qs) == Faces(s.players) - {left.(isHost := false)}
            && (left.isHost && qs != [] ==> qs[0].isHost && forall r :: r in qs ==> qs[0].seat <= r.seat)
            && (!left.isHost ==> forall q :: q in qs ==> q in s.players)
  {
    var i := IndexOf(s.players, actor);
    var remaining := Without(s.players, actor);
    FacesRemaining(s.players, i);
    WithoutKeeps(s.players, actor);
    if s.players[i].isHost && remaining != [] {
      BySeatOrders(remaining);
      SameFaces(BySeat(remaining), remaining);
      FacesCrowned(BySeat(remaining));
      LowestFirst(BySeat(remaining));
    }
    hide Inv, Faces, SeatOrdered, DistinctSeats;
  }

  lemma SameFaces(ps: seq<Player>, qs: seq<Player>)
    requires forall p :: p in ps <==> p in qs
    ensures Faces(ps) == Faces(qs)
  {
  }

  lemma LowestFirst(ps: seq<Player>)
    requires SeatOrdered(ps) && ps != []
    ensures var qs := ps[0 := ps[0].(isHost := true)]; forall r :: r in qs ==> qs[0].seat <= r.seat
  {
  }
}
