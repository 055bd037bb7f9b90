/** Turns are short, and a round-limit match is over after a computable number of actions. */
module Termination {
  import opened Config
  import opened Domain
  import opened Seats
  import opened Rules
  import opened Invariant
  import opened Runs
  import opened Turns
  import opened Rotation

  // ---- one turn --------------------------------------------------------------

  ghost predicate BoardTaken(cfg: ValidConfig, s: State, input: Input) {
    IsBoardAction(input.action) && Accepted(cfg, s, input)
  }

  /** Accepted board actions of a run, and the rolls among them. */
  ghost function BoardActions(cfg: ValidConfig, s: State, inputs: seq<Input>): nat {
    if inputs == [] then 0
    else
      var front, last := inputs[..|inputs| - 1], inputs[|inputs| - 1];
      BoardActions(cfg, s, front) + if BoardTaken(cfg, After(cfg, s, front), last) then 1 else 0
  }

  ghost function Rolls(cfg: ValidConfig, s: State, inputs: seq<Input>): nat {
    if inputs == [] then 0
    else
      var front, last := inputs[..|inputs| - 1], inputs[|inputs| - 1];
      Rolls(cfg, s, front) + if last.action == Roll && BoardTaken(cfg, After(cfg, s, front), last) then 1 else 0
  }

  predicate TurnStarts(t: Turn) { t.phase == AwaitRoll && t.streak == 0 }

  ghost predicate SameTurn(cfg: ValidConfig, s: State, inputs: seq<Input>) {
    After(cfg, s, inputs).phase == Playing && SameTurnHeld(s, After(cfg, s, inputs))
  }

  lemma {:induction false} SameTurnBefore(cfg: ValidConfig, s: State, inputs: seq<Input>)
    requires Inv(cfg, s) && s.phase == Playing && inputs != [] && SameTurn(cfg, s, inputs)
    ensures SameTurn(cfg, s, inputs[..|inputs| - 1])
  {
    PlayingBefore(cfg, s, inputs);
    var front := inputs[..|inputs| - 1];
    StepMoves(cfg, After(cfg, s, front), inputs[|inputs| - 1]);
    hide Inv, Step;
    TurnAdvances(cfg, s, front);
  }

  lemma {:induction false} StepInTurn(cfg: ValidConfig, s: State, input: Input)
    requires Inv(cfg, s) && s.phase == Playing
    requires Step(cfg, s, input).next.phase == Playing && SameTurnHeld(s, Step(cfg, s, input).next)
    ensures var t := Step(cfg, s, input).next;
            && ActionsLeft(cfg, t.turn) + (if BoardTaken(cfg, s, input) then 1 else 0) <= ActionsLeft(cfg, s.turn)
            && RollsLeft(cfg, t.turn) + (if input.action == Roll && BoardTaken(cfg, s, input) then 1 else 0)
               <= RollsLeft(cfg, s.turn)
  {
    if Accepted(cfg, s, input) {
      StepTurn(cfg, s, input);
      StepInv(cfg, s, input);
      EnoughToPlay(cfg, Step(cfg, s, input).next);
      hide Inv, Apply;
    }
  }

  lemma {:induction false} TurnBudget(cfg: ValidConfig, s: State, inputs: seq<Input>)
    requires Inv(cfg, s) && s.phase == Playing && SameTurn(cfg, s, inputs)
    ensures BoardActions(cfg, s, inputs) + ActionsLeft(cfg, After(cfg, s, inputs).turn) <= ActionsLeft(cfg, s.turn)
    ensures Rolls(cfg, s, inputs) + RollsLeft(cfg, After(cfg, s, inputs).turn) <= RollsLeft(cfg, s.turn)
  {
    if inputs == [] {
    } else {
      var front, last := inputs[..|inputs| - 1], inputs[|inputs| - 1];
      PlayingBefore(cfg, s, inputs);
      SameTurnBefore(cfg, s, inputs);
      StepInTurn(cfg, After(cfg, s, front), last);
      hide Inv, Step, BoardTaken;
      TurnBudget(cfg, s, front);
    }
  }

  lemma RoomForOneMore(cfg: ValidConfig, s: State, input: Input)
    requires Inv(cfg, s) && BoardTaken(cfg, s, input)
    ensures 1 <= ActionsLeft(cfg, s.turn)
    ensures input.action == Roll ==> 1 <= RollsLeft(cfg, s.turn)
  {
  }

  /**
   Whatever happens around it, a turn sees at most the doubles cap of rolls and twice that plus one
   accepted board actions, counting the action that ends it.
   */
  lemma {:induction false} TurnIsFinite(cfg: ValidConfig, s: State, inputs: seq<Input>, last: Input)
    requires Inv(cfg, s) && s.phase == Playing && TurnStarts(s.turn) && SameTurn(cfg, s, inputs)
    ensures Rolls(cfg, s, inputs + [last]) <= StreakCap(cfg)
    ensures BoardActions(cfg, s, inputs + [last]) <= 2 * StreakCap(cfg) + 1
  {
    TurnBudget(cfg, s, inputs);
    RunInv(cfg, s, inputs);
    var t := After(cfg, s, inputs);
    assert (inputs + [last])[..|inputs|] == inputs;
    if BoardTaken(cfg, t, last) { RoomForOneMore(cfg, t, last); }
    NothingOwed(cfg, t);
  }

  lemma NothingOwed(cfg: ValidConfig, s: State)
    requires Inv(cfg, s)
    ensures s.phase == Playing ==> 0 <= RollsLeft(cfg, s.turn) && 0 <= ActionsLeft(cfg, s.turn)
  {
  }

  // ---- one match -------------------------------------------------------------

  const MAX_SEATS := 12
  const MAX_ACTIONS := 36

  function Top(base: int, a: int, r: int): int { a * base + r }

  function Packed(top: int, u: int, x: int): int { (top * (MAX_SEATS + 1) + u) * MAX_ACTIONS + x }

  /**
   Active players, then rounds left, then active seats still to come this round, then what is left of
   the turn, packed into one number.
   */
  ghost function Rank(cfg: ValidConfig, s: State): int {
    var active := ActiveSeats(s.players);
    Packed(Top(cfg.victory.roundLimit + 2, |active|, cfg.victory.roundLimit + 1 - s.turn.round),
           |Above(active, s.turn.seat)|, ActionsLeft(cfg, s.turn))
  }

  ghost function UpTo(n: nat): (r: set<nat>)
    ensures forall x: nat :: x in r <==> x < n
    ensures |r| == n
  {
    if n == 0 then {} else UpTo(n - 1) + {n - 1}
  }

  lemma {:induction false} SeatsBounded(cfg: ValidConfig, s: State)
    requires Core(cfg, s)
    ensures |ActiveSeats(s.players)| <= MAX_SEATS
  {
    forall x | x in ActiveSeats(s.players) ensures x in UpTo(MAX_SEATS) {
      var i :| 0 <= i < |s.players| && IsActive(s.players[i]) && s.players[i].seat == x;
      assert PlayerOk(cfg, s, s.players[i]);
    }
    SubsetSize(ActiveSeats(s.players), UpTo(MAX_SEATS));
  }

  lemma {:induction false} SubsetSize(a: set<nat>, b: set<nat>)
    requires a <= b
    ensures |a| <= |b|
  {
    if a != {} {
      var x :| x in a;
      SubsetSize(a - {x}, b - {x});
    }
  }

  /** The digits of a playing state's rank. */
  lemma {:induction false} Digits(cfg: ValidConfig, s: State)
    requires Inv(cfg, s) && s.phase == Playing && cfg.victory.kind == RoundLimit
    ensures 0 <= cfg.victory.roundLimit + 1 - s.turn.round <= cfg.victory.roundLimit
    ensures |ActiveSeats(s.players)| <= MAX_SEATS && |Above(ActiveSeats(s.players), s.turn.seat)| <= MAX_SEATS
    ensures 0 <= ActionsLeft(cfg, s.turn) < MAX_ACTIONS
  {
    SeatsBounded(cfg, s);
    SubsetSize(Above(ActiveSeats(s.players), s.turn.seat), ActiveSeats(s.players));
    NothingOwed(cfg, s);
  }

  lemma {:induction false} TopDrops(base: nat, a: nat, r: nat, a': nat, r': nat)
    requires r < base && r' < base && (a' < a || (a' == a && r' < r))
    ensures 0 <= Top(base, a', r') < Top(base, a, r)
  {
    if a' < a {
      assert (a' + 1) * base <= a * base;
    }
  }

  lemma {:induction false} TopBound(base: nat, a: nat, r: nat)
    requires a <= MAX_SEATS && r < base
    ensures 0 <= Top(base, a, r) < (MAX_SEATS + 1) * base
  {
    assert a * base <= MAX_SEATS * base;
  }

  lemma PackDrops(top: nat, u: nat, x: nat, top': nat, u': nat, x': nat)
    requires u <= MAX_SEATS && u' <= MAX_SEATS && x < MAX_ACTIONS && x' < MAX_ACTIONS
    requires top' < top || (top' == top && (u' < u || (u' == u && x' < x)))
    ensures 0 <= Packed(top', u', x') < Packed(top, u, x)
  {
  }

  ghost predicate ByActive(s: State, input: Input) {
    Has(s.players, input.actor) && IsActive(s.players[IndexOf(s.players, input.actor)])
  }

  /** Fewer players; or a later round; or fewer seats to come; or less of the same turn. */
  ghost predicate Lower(cfg: ValidConfig, s: State, t: State) {
    var a, b := ActiveSeats(s.players), ActiveSeats(t.players);
    || |b| < |a|
    || (|b| == |a| && t.turn.round > s.turn.round)
    || (|b| == |a| && t.turn.round == s.turn.round && |Above(b, t.turn.seat)| < |Above(a, s.turn.seat)|)
    || (b == a && t.turn.round == s.turn.round && t.turn.seat == s.turn.seat
        && ActionsLeft(cfg, t.turn) < ActionsLeft(cfg, s.turn))
  }

  /** One accepted action of an active player, in the digits of the rank. */
  lemma HolderActive(cfg: ValidConfig, s: State)
    requires Inv(cfg, s) && s.phase == Playing
    ensures s.turn.seat in ActiveSeats(s.players)
  {
  }

  lemma {:induction false} DigitsDrop(cfg: ValidConfig, s: State, input: Input)
    requires Inv(cfg, s) && s.phase == Playing && Accepted(cfg, s, input) && ByActive(s, input)
    requires Step(cfg, s, input).next.phase == Playing
    ensures Lower(cfg, s, Step(cfg, s, input).next)
  {
    HolderActive(cfg, s);
    PlayingActions(cfg, s, input);
    StepTurn(cfg, s, input);
    hide Step, Inv, Accepted, Progress, Departed, Lower, ActiveSeats;
    var t := Step(cfg, s, input).next;
    if input.action == Leave {
      LeaveStep(cfg, s, input);
      LeaveDrops(cfg, s, t, s.players[IndexOf(s.players, input.actor)].seat);
    } else {
      ProgressDrops(cfg, s, t, RollsIn(input.action));
    }
  }

  lemma PlayingActions(cfg: ValidConfig, s: State, input: Input)
    requires s.phase == Playing && Accepted(cfg, s, input)
    ensures IsBoardAction(input.action) || (input.action == Leave && Has(s.players, input.actor))
  {
  }

  lemma {:induction false} LeaveDrops(cfg: ValidConfig, s: State, t: State, seat: nat)
    requires Departed(s, t, seat)
    ensures Lower(cfg, s, t)
  {
    hide ActiveSeats;
    assert |ActiveSeats(s.players) - {seat}| == |ActiveSeats(s.players)| - 1;
  }

  lemma {:induction false} ProgressDrops(cfg: ValidConfig, s: State, t: State, rolls: int)
    requires Progress(cfg, s, t, rolls) && s.turn.seat in ActiveSeats(s.players)
    ensures Lower(cfg, s, t)
  {
    var a, b := ActiveSeats(s.players), ActiveSeats(t.players);
    if TurnGoesOn(cfg, s, t, rolls) {
    } else if HolderOut(s, t) {
      assert |a - {s.turn.seat}| == |a| - 1;
    } else if t.turn.round == s.turn.round {
      assert t.turn.seat in Above(a, s.turn.seat);
      assert Above(b, t.turn.seat) <= Above(a, s.turn.seat) - {t.turn.seat};
      SubsetSize(Above(b, t.turn.seat), Above(a, s.turn.seat) - {t.turn.seat});
    }
  }

  lemma {:induction false} LowerRank(cfg: ValidConfig, s: State, t: State)
    requires Inv(cfg, s) && s.phase == Playing && Inv(cfg, t) && t.phase == Playing
    requires cfg.victory.kind == RoundLimit && Lower(cfg, s, t)
    ensures 0 <= Rank(cfg, t) < Rank(cfg, s)
  {
    hide Inv, Packed, Top, ActionsLeft, Above, ActiveSeats;
    Digits(cfg, s);
    Digits(cfg, t);
    var L := cfg.victory.roundLimit;
    var a, b := |ActiveSeats(s.players)|, |ActiveSeats(t.players)|;
    TopBound(L + 2, a, L + 1 - s.turn.round);
    TopBound(L + 2, b, L + 1 - t.turn.round);
    if b < a || t.turn.round > s.turn.round {
      TopDrops(L + 2, a, L + 1 - s.turn.round, b, L + 1 - t.turn.round);
    }
    PackDrops(Top(L + 2, a, L + 1 - s.turn.round), |Above(ActiveSeats(s.players), s.turn.seat)|, ActionsLeft(cfg, s.turn),
              Top(L + 2, b, L + 1 - t.turn.round), |Above(ActiveSeats(t.players), t.turn.seat)|, ActionsLeft(cfg, t.turn));
  }

  /** Under a round limit every accepted action of an active player ends the match or lowers the rank. */
  lemma {:induction false} RankDrops(cfg: ValidConfig, s: State, input: Input)
    requires Inv(cfg, s) && s.phase == Playing && cfg.victory.kind == RoundLimit
    requires Accepted(cfg, s, input) && ByActive(s, input)
    ensures Step(cfg, s, input).next.phase == Ended
            || (Step(cfg, s, input).next.phase == Playing && 0 <= Rank(cfg, Step(cfg, s, input).next) < Rank(cfg, s))
  {
    StepTurn(cfg, s, input);
    hide Inv, Step, TurnStep, Apply, Rank, Lower;
    var t := Step(cfg, s, input).next;
    if t.phase == Playing {
      DigitsDrop(cfg, s, input);
      LowerRank(cfg, s, t);
    }
  }

  /** Accepted actions of players who are still active, in a match in play. */
  ghost predicate Plays(cfg: ValidConfig, s: State, input: Input) {
    s.phase == Playing && Accepted(cfg, s, input) && ByActive(s, input)
  }

  /** How many of a run's inputs were such actions. */
  ghost function Played(cfg: ValidConfig, s: State, inputs: seq<Input>): nat {
    if inputs == [] then 0
    else
      var front, last := inputs[..|inputs| - 1], inputs[|inputs| - 1];
      Played(cfg, s, front) + if Plays(cfg, After(cfg, s, front), last) then 1 else 0
  }

  /** Any other input, refused or the departure of an eliminated player, changes nothing but the tick. */
  lemma {:induction false} IdleStep(cfg: ValidConfig, s: State, input: Input)
    requires Inv(cfg, s) && s.phase == Playing && !Plays(cfg, s, input)
    ensures Step(cfg, s, input).next == s.(tick := Step(cfg, s, input).next.tick)
  {
    hide Core, PlayingOk, LeaveMatch;
    if Accepted(cfg, s, input) {
      LeftAs(cfg, s, input);
      LeavePhase(cfg, s, IndexOf(s.players, input.actor));
    }
  }

  lemma {:induction false} RankPositive(cfg: ValidConfig, s: State)
    requires Inv(cfg, s) && s.phase == Playing && cfg.victory.kind == RoundLimit
    ensures 0 <= Rank(cfg, s) < 6084 * (cfg.victory.roundLimit + 2)
  {
    Digits(cfg, s);
    hide Inv, Top, ActionsLeft, Above;
    TopBound(cfg.victory.roundLimit + 2, |ActiveSeats(s.players)|, cfg.victory.roundLimit + 1 - s.turn.round);
  }

  lemma {:induction false} RankBoundsRun(cfg: ValidConfig, s: State, inputs: seq<Input>)
    requires Inv(cfg, s) && s.phase == Playing && cfg.victory.kind == RoundLimit
    ensures var t := After(cfg, s, inputs);
            if t.phase == Playing then 0 <= Rank(cfg, t) <= Rank(cfg, s) - Played(cfg, s, inputs)
            else Played(cfg, s, inputs) <= Rank(cfg, s) + 1
  {
    if inputs == [] {
      RankPositive(cfg, s);
    } else {
      var front, last := inputs[..|inputs| - 1], inputs[|inputs| - 1];
      var t := After(cfg, s, front);
      RankBoundsRun(cfg, s, front);
      RunInv(cfg, s, front);
      StaysStarted(cfg, s, front);
      hide Inv, Step, Rank, ByActive, Accepted;
      if t.phase == Ended {
        EndedIsFinal(cfg, t, last);
      } else if Plays(cfg, t, last) {
        RankDrops(cfg, t, last);
      } else {
        IdleStep(cfg, t, last);
        RankFrame(cfg, t, Step(cfg, t, last).next.tick);
      }
    }
  }

  lemma RankFrame(cfg: ValidConfig, s: State, tick: nat)
    ensures Rank(cfg, s.(tick := tick)) == Rank(cfg, s)
  {
  }

  /**
   Whatever else is tried in between, a round-limit match sees at most 6084 * (limit + 2) accepted actions of
   players who are still active.
   */
  lemma {:induction false} MatchTerminates(cfg: ValidConfig, s: State, inputs: seq<Input>)
    requires Inv(cfg, s) && s.phase == Playing && cfg.victory.kind == RoundLimit
    ensures Played(cfg, s, inputs) <= Rank(cfg, s) + 1 <= 6084 * (cfg.victory.roundLimit + 2)
  {
    hide Rank, Inv, Played;
    RankBoundsRun(cfg, s, inputs);
    RankPositive(cfg, s);
  }

  // ---- the round past the limit ----------------------------------------------

  /**
   The round never passes the limit by more than one. A match still playing in that extra round got there
   by a departure, the only accepted action that skips the victory conditions, and waits for a first roll
   on the lowest active seat.
   */
  lemma {:induction false} OneRoundPast(cfg: ValidConfig, s: State, input: Input)
    requires Inv(cfg, s) && cfg.victory.kind == RoundLimit
    ensures var t := Step(cfg, s, input).next;
            && t.turn.round <= cfg.victory.roundLimit + 1
            && (t.phase == Playing && t.turn.round == cfg.victory.roundLimit + 1 ==>
                  && t.turn.phase == AwaitRoll && IsLeast(t.turn.seat, ActiveSeats(t.players))
                  && (Accepted(cfg, s, input) ==> input.action == Leave))
  {
    StepInv(cfg, s, input);
    if Accepted(cfg, s, input) {
      if IsBoardAction(input.action) {
        BoardStep(cfg, s, input);
        hide Apply, Core;
      } else if s.phase == Playing {
        hide RollOf, Core;
      }
    }
  }

  /**
   Exactly when a departure carries the match past its limit: the turn holder leaves in the limit's round
   from the highest active seat, and at least two others stay.
   */
  lemma {:induction false} PastLimitExactly(cfg: ValidConfig, s: State, input: Input)
    requires Inv(cfg, s) && s.phase == Playing && cfg.victory.kind == RoundLimit
    requires s.turn.round <= cfg.victory.roundLimit && input.action == Leave && Has(s.players, input.actor)
    ensures var t := Step(cfg, s, input).next;
            var p := s.players[IndexOf(s.players, input.actor)];
            t.phase == Playing && t.turn.round == cfg.victory.roundLimit + 1
            <==> (&& s.turn.round == cfg.victory.roundLimit && 3 <= |ActiveSeats(s.players)|
                  && IsActive(p) && p.seat == s.turn.seat && Above(ActiveSeats(s.players), p.seat) == {})
  {
    hide Inv, Step, LeaveMatch, Least, TurnStep, ActiveSeats, EndIfShort, Actives;
    var i := IndexOf(s.players, input.actor);
    LeftAs(cfg, s, input);
    LeavePhase(cfg, s, i);
    LeaveStep(cfg, s, input);
    var others := ActiveSeats(s.players) - {s.players[i].seat};
    assert 3 <= |ActiveSeats(s.players)| ==> others != {} by { assert |others| >= |ActiveSeats(s.players)| - 1; }
    assert Above(ActiveSeats(s.players) - {s.players[i].seat}, s.players[i].seat)
           == Above(ActiveSeats(s.players), s.players[i].seat);
  }

  lemma {:induction false} ActiveLeft(cfg: ValidConfig, s: State, i: nat)
    requires Inv(cfg, s) && s.phase == Playing && i < |s.players|
    ensures 2 <= |Actives(s.players)| == |ActiveSeats(s.players)|
    ensures IsActive(s.players[i]) ==> |Actives(Eliminate(s, i).players)| == |Actives(s.players)| - 1
  {
    InPlay(cfg, s);
    hide Inv;
    EliminateSeat(s.players, i);
    HolderOf(s.players, i);
    ActivesCounted(s.players);
    ActivesCounted(Eliminate(s, i).players);
    var seats, seat := ActiveSeats(s.players), s.players[i].seat;
    hide ActiveSeats, Actives;
    assert seat in seats ==> |seats - {seat}| == |seats| - 1;
  }

  /** A departure ends the match exactly when it leaves one player standing, and an eliminated player's changes nothing. */
  lemma {:induction false} LeavePhase(cfg: ValidConfig, s: State, i: nat)
    requires Inv(cfg, s) && s.phase == Playing && i < |s.players|
    ensures var t := LeaveMatch(s, i).next;
            && t.phase == (if IsActive(s.players[i]) && |ActiveSeats(s.players)| < 3 then Ended else Playing)
            && (!IsActive(s.players[i]) ==> t == s)
  {
    ActiveLeft(cfg, s, i);
    hide Inv, AdvanceFrom, Actives, ActiveSeats, Release, OwnedIds, GoneFacts;
  }
}
