/**
 A transition that reaches a client after a state that already contains it. A snapshot marks no tick, so the transition
 is folded a second time: here is exactly when the screen is still right afterwards (game-store.ts).
 */
module Overtaken {
  import opened Config
  import opened Domain
  import opened Seats
  import opened Rules
  import opened Invariant
  import opened Runs
  import opened Client
  import opened Simulation
  import opened Engine
  import opened Outcomes
  import opened Rotation
  import opened Turns
  import opened Termination
  import opened ClientStore
  import opened Reflection

  // ---- the exact condition ---------------------------------------------------------

  /** The screen shows w. */
  ghost predicate Shows(sc: Screen, w: State) { sc.view.Some? && Agrees(sc.view.value, w) }

  /** It still does when the transition's events arrive. */
  ghost predicate StaysRight(sc: Screen, w: State, t: Transition) {
    Shows(ApplyEvents(sc, Stamped(t.facts, t.next.tick)), w)
  }

  /** A snapshot no older than the view is shown, and marks nothing. */
  lemma SnapshotShows(sc: Screen, w: State, resync: bool)
    requires sc.view.Some? ==> sc.view.value.tick <= w.tick
    ensures var shown := ApplySnapshot(sc, w, resync); Shows(shown, w) && shown.applied == sc.applied
  {
  }

  /**
   However a screen came to show a state the match reached after a transition, or its very outcome: it is right after
   the transition's events arrive exactly if their tick is marked, or the state still has everything they say and its
   balances survive their amounts.
   */
  lemma {:induction false} RightExactly(cfg: ValidConfig, sc: Screen, s: State, i: Input, more: seq<Input>)
    requires Inv(cfg, s) && s.phase == Playing && Accepted(cfg, s, i)
    requires Shows(sc, After(cfg, Apply(cfg, s, i.actor, i.action, i.dice).value.next, more))
    ensures var t := Apply(cfg, s, i.actor, i.action, i.dice).value;
            var w := After(cfg, t.next, more);
            StaysRight(sc, w, t) <==> t.next.tick in sc.applied || (AllReflected(w, t.facts) && BalancesStand(w, t.facts))
  {
    hide Apply, Inv, Mark, Fold, BalancesStand, AllReflected, NoneUndone, Placed, After;
    var t := Apply(cfg, s, i.actor, i.action, i.dice).value;
    var w := After(cfg, t.next, more);
    AcceptedExplains(cfg, s, i.actor, i.action, i.dice);
    Leads(cfg, s, i, more);
    ReflectedPlaced(t.next, w, t.facts);
    TransitionApart(cfg, s, i);
    FoldsRight(sc.view.value, w, t.facts);
    FoldIsReduce(sc.view.value, t.facts, t.next.tick);
    TickUnseen(ReduceAll(sc.view.value, t.facts), w);
  }

  lemma TickUnseen(v: State, w: State)
    ensures forall tick: nat :: Agrees(v.(tick := tick), w) <==> Agrees(v, w)
  {
  }

  /** Where a transition of a running match leads, at once and later. */
  lemma {:induction false} Leads(cfg: ValidConfig, s: State, i: Input, more: seq<Input>)
    requires Inv(cfg, s) && s.phase == Playing && Accepted(cfg, s, i)
    ensures var t := Apply(cfg, s, i.actor, i.action, i.dice).value;
            var w := After(cfg, t.next, more);
            && AllReflected(t.next, t.facts) && Inv(cfg, t.next) && Kept(s, t.next)
            && (t.next.phase == Playing || t.next.phase == Ended)
            && Kept(t.next, w) && Inv(cfg, w) && (w.phase == Playing || w.phase == Ended) && SameDefs(t.next.spaces, w.spaces)
            && (AllReflected(w, t.facts) <==> forall f :: f in t.facts ==> Unmoved(f, t.next, w))
  {
    hide Inv, AllReflected, Reflected, Unmoved, Apply;
    var t := Apply(cfg, s, i.actor, i.action, i.dice).value;
    assert Step(cfg, s, i).next == t.next;
    TransitionReflected(cfg, s, i);
    StepInv(cfg, s, i);
    StepKept(cfg, s, i);
    StaysStarted(cfg, s, [i]);
    OneInput(cfg, s, i);
    RunKept(cfg, t.next, more);
    AllLaterReflected(t.next, After(cfg, t.next, more), t.facts);
  }

  lemma ReflectedOne(t: State, facts: seq<Fact>, f: Fact)
    requires AllReflected(t, facts) && f in facts
    ensures Reflected(t, f)
  {
  }

  /** An event that names no amount. */
  predicate Moneyless(f: Fact) { !f.PropertyBought? && !f.RentPaid? && !f.BankTransfer? }

  predicate AllMoneyless(facts: seq<Fact>) { forall f :: f in facts ==> Moneyless(f) }

  lemma {:induction false} RefoldMoneyless(b: int, id: PlayerId, facts: seq<Fact>)
    requires AllMoneyless(facts)
    ensures RefoldAll(b, id, facts) == b
  {
    if facts == [] {
    } else {
      RefoldMoneyless(b, id, facts[..|facts| - 1]);
      assert Moneyless(facts[|facts| - 1]);
    }
  }

  lemma {:induction false} RefoldConcat(b: int, id: PlayerId, x: seq<Fact>, y: seq<Fact>)
    ensures RefoldAll(b, id, x + y) == RefoldAll(RefoldAll(b, id, x), id, y)
  {
    if y == [] {
      assert x + y == x;
    } else {
      assert (x + y)[..|x + y| - 1] == x + y[..|y| - 1];
      RefoldConcat(b, id, x, y[..|y| - 1]);
    }
  }

  lemma {:induction false} RefoldOne(b: int, id: PlayerId, f: Fact)
    ensures RefoldAll(b, id, [f]) == Refold(b, id, f)
  {
    assert [f][..0] == [];
    assert RefoldAll(b, id, []) == b;
  }

  lemma EndsMoneyless(cfg: ValidConfig, s: State)
    ensures AllMoneyless(Evaluate(cfg, s).facts) && AllMoneyless(EndIfShort(s).facts)
  {
  }

  lemma {:induction false} OneUnmoved(facts: seq<Fact>, f: Fact, t: State, w: State)
    requires SaysOne(facts, f)
    ensures (forall g :: g in facts ==> Unmoved(g, t, w)) <==> Unmoved(f, t, w)
  {
    assert facts == [f] + facts[1..];
  }

  /** With no amounts named, only what was done to board, turn and players counts. */
  lemma {:induction false} QuietExactly(cfg: ValidConfig, sc: Screen, s: State, i: Input, more: seq<Input>)
    requires Inv(cfg, s) && s.phase == Playing && Accepted(cfg, s, i)
    requires i.action == Leave || i.action == Decline || i.action == EndTurn
    requires Shows(sc, After(cfg, Apply(cfg, s, i.actor, i.action, i.dice).value.next, more))
    ensures var t := Apply(cfg, s, i.actor, i.action, i.dice).value;
            var w := After(cfg, t.next, more);
            StaysRight(sc, w, t) <==> t.next.tick in sc.applied || forall f :: f in t.facts ==> Unmoved(f, t.next, w)
  {
    hide Apply, Inv, StaysRight, After, Reflected, Unmoved, RefoldAll, Kept;
    var t := Apply(cfg, s, i.actor, i.action, i.dice).value;
    var w := After(cfg, t.next, more);
    RightExactly(cfg, sc, s, i, more);
    Leads(cfg, s, i, more);
    QuietMoneyless(cfg, s, i);
    forall j | 0 <= j < |w.players| ensures RefoldAll(w.players[j].money, w.players[j].id, t.facts) == w.players[j].money {
      RefoldMoneyless(w.players[j].money, w.players[j].id, t.facts);
    }
  }

  lemma {:induction false} BoardActionPlays(cfg: ValidConfig, s: State, i: Input)
    requires IsBoardAction(i.action) && Accepted(cfg, s, i)
    ensures s.phase == Playing
  {
    hide RollOf, Evaluate;
  }

  /** An ended turn is right exactly if its tick is marked or the turn has not moved on since. */
  lemma {:induction false} EndTurnRightExactly(cfg: ValidConfig, sc: Screen, s: State, i: Input, more: seq<Input>)
    requires Inv(cfg, s) && i.action == EndTurn && Accepted(cfg, s, i)
    requires Shows(sc, After(cfg, Apply(cfg, s, i.actor, i.action, i.dice).value.next, more))
    ensures var t := Apply(cfg, s, i.actor, i.action, i.dice).value;
            var w := After(cfg, t.next, more);
            StaysRight(sc, w, t) <==> t.next.tick in sc.applied || TurnHeld(t.next, w)
  {
    BoardActionPlays(cfg, s, i);
    hide Apply, Inv, StaysRight, After, Unmoved;
    var t := Apply(cfg, s, i.actor, i.action, i.dice).value;
    QuietExactly(cfg, sc, s, i, more);
    DecisionSays(cfg, s, i);
    OneUnmoved(t.facts, t.facts[0], t.next, After(cfg, t.next, more));
    TurnUnmoved(t.facts[0], t.next, After(cfg, t.next, more));
  }

  /** A declined purchase is right whenever it arrives. */
  lemma {:induction false} DeclineAlwaysRight(cfg: ValidConfig, sc: Screen, s: State, i: Input, more: seq<Input>)
    requires Inv(cfg, s) && i.action == Decline && Accepted(cfg, s, i)
    requires Shows(sc, After(cfg, Apply(cfg, s, i.actor, i.action, i.dice).value.next, more))
    ensures var t := Apply(cfg, s, i.actor, i.action, i.dice).value; StaysRight(sc, After(cfg, t.next, more), t)
  {
    BoardActionPlays(cfg, s, i);
    hide Apply, Inv, StaysRight, After, Unmoved;
    var t := Apply(cfg, s, i.actor, i.action, i.dice).value;
    QuietExactly(cfg, sc, s, i, more);
    DecisionSays(cfg, s, i);
    OneUnmoved(t.facts, t.facts[0], t.next, After(cfg, t.next, more));
    ElsewhereUnmoved(t.facts[0], t.next, After(cfg, t.next, more));
  }

  /**
   A departure is right exactly if its tick is marked, or nothing the leaver gave up has been bought since and the turn,
   if it was theirs, has not moved on since.
   */
  lemma {:induction false} LeaveRightExactly(cfg: ValidConfig, sc: Screen, s: State, i: Input, more: seq<Input>)
    requires Inv(cfg, s) && s.phase == Playing && i.action == Leave && Accepted(cfg, s, i)
    requires Shows(sc, After(cfg, Apply(cfg, s, i.actor, i.action, i.dice).value.next, more))
    ensures Has(s.players, i.actor)
    ensures var t, p := Apply(cfg, s, i.actor, i.action, i.dice).value, s.players[IndexOf(s.players, i.actor)];
            var w := After(cfg, t.next, more);
            StaysRight(sc, w, t)
            <==> t.next.tick in sc.applied
                 || (StillFree(s.spaces, w.spaces, i.actor) && (p.seat == s.turn.seat ==> TurnHeld(t.next, w)))
  {
    hide Inv, Apply, StaysRight, After, LeaveMatch, Kept, Out, GoneFacts, EndIfShort, StillFree, Unmoved;
    var a := IndexOf(s.players, i.actor);
    var t := Apply(cfg, s, i.actor, i.action, i.dice).value;
    var w := After(cfg, t.next, more);
    QuietExactly(cfg, sc, s, i, more);
    GoneUnmoved(cfg, s, i, more);
    LeaverHeld(cfg, s, i, more);
    DepartureSays(cfg, s, i);
    forall f | f in t.facts && f !in GoneFacts(s, a)
      ensures Unmoved(f, t.next, w) <==> (f.TurnAdvanced? ==> TurnHeld(t.next, w))
    {
      if f.TurnAdvanced? { TurnUnmoved(f, t.next, w); } else { ElsewhereUnmoved(f, t.next, w); }
    }
  }

  lemma {:induction false} DepartureSays(cfg: ValidConfig, s: State, i: Input)
    requires s.phase == Playing && i.action == Leave && Accepted(cfg, s, i)
    ensures var t, a := Apply(cfg, s, i.actor, i.action, i.dice).value, IndexOf(s.players, i.actor);
            && a < |s.players|
            && (forall f :: f in GoneFacts(s, a) ==> f in t.facts)
            && (forall f :: f in t.facts && f !in GoneFacts(s, a) ==> f.PlayerLeft? || f.GameEnded? || f.TurnAdvanced?)
            && ((exists f :: f in t.facts && f.TurnAdvanced?) <==> t.next.phase == Playing && s.players[a].seat == s.turn.seat)
            && forall f :: f in GoneFacts(s, a) ==> !f.TurnAdvanced?
  {
    var a := IndexOf(s.players, i.actor);
    LeaveSays(s, a);
    EndIfShortKeeps(Out(s, a));
    var t := Apply(cfg, s, i.actor, i.action, i.dice).value;
    hide LeaveMatch, EndIfShort, Out, OwnedIds;
    if t.next.phase == Playing && s.players[a].seat == s.turn.seat {
      assert TurnAdvanced(t.next.turn.seat, t.next.turn.round) in t.facts;
    }
  }

  /** Whatever was said of the leaver is still so exactly if nothing they gave up has been bought since. */
  lemma {:induction false} GoneUnmoved(cfg: ValidConfig, s: State, i: Input, more: seq<Input>)
    requires Inv(cfg, s) && s.phase == Playing && i.action == Leave && Accepted(cfg, s, i)
    ensures var t, a := Apply(cfg, s, i.actor, i.action, i.dice).value, IndexOf(s.players, i.actor);
            var w := After(cfg, t.next, more);
            && a < |s.players| && s.players[a].id == i.actor
            && ((forall f :: f in GoneFacts(s, a) ==> Unmoved(f, t.next, w)) <==> StillFree(s.spaces, w.spaces, i.actor))
  {
    hide After, OwnedIds, Reflected, Apply, AllReflected, StillFree, Unmoved, ActiveSeats, DeedOk, SameSeats, Inv, Core;
    var a := IndexOf(s.players, i.actor);
    var t := Apply(cfg, s, i.actor, i.action, i.dice).value;
    var w := After(cfg, t.next, more);
    LeaverOut(cfg, s, i);
    Leads(cfg, s, i, more);
    KeptChain(s, t.next, w);
    GoneSeat(cfg, t.next, w, a);
    if IsActive(s.players[a]) {
      SpacesUnique(cfg, s);
      BankruptUnmoved(s.spaces, ActiveSeats(w.players), w, t.next, GoneFacts(s, a)[0], i.actor);
      ElsewhereUnmoved(GoneFacts(s, a)[1], t.next, w);
    } else {
      NothingOwned(cfg, s, a);
      NothingFreed(s.spaces, w.spaces, i.actor);
    }
  }

  lemma {:induction false} BankruptUnmoved(spaces: seq<Space>, active: set<nat>, w: State, t: State, f: Fact, id: PlayerId)
    requires UniqueSpaces(spaces) && SameDefs(spaces, w.spaces)
    requires forall k :: 0 <= k < |w.spaces| ==> DeedOk(active, w.spaces[k])
    requires id.Pl? && id.seat !in active
    requires f.PlayerBankrupt? && f.id == id && f.released == OwnedIds(spaces, id)
    ensures Unmoved(f, t, w) <==> StillFree(spaces, w.spaces, id)
  {
    FreedUnbought(spaces, active, w, id);
    hide DeedOk, UniqueSpaces, OwnedIds, StillFree, Reverts;
  }

  lemma ElsewhereUnmoved(f: Fact, t: State, w: State)
    requires !f.DiceRolled? && !f.PropertyBought? && !f.PlayerBankrupt? && !f.TurnAdvanced?
    ensures Unmoved(f, t, w)
  {
  }

  lemma NothingFreed(spaces: seq<Space>, later: seq<Space>, id: PlayerId)
    requires forall k :: 0 <= k < |spaces| ==> !OwnedBy(spaces[k], id)
    ensures StillFree(spaces, later, id)
  {
  }

  lemma {:induction false} LeaverOut(cfg: ValidConfig, s: State, i: Input)
    requires Inv(cfg, s) && s.phase == Playing && i.action == Leave && Accepted(cfg, s, i)
    ensures var t, a := Apply(cfg, s, i.actor, i.action, i.dice).value, IndexOf(s.players, i.actor);
            && Has(s.players, i.actor) && s.players[a].id == i.actor && a < |t.next.players|
            && t.next.players[a].status == Eliminated && t.next.players[a].id == i.actor
            && Core(cfg, s)
  {
    var a := IndexOf(s.players, i.actor);
    assert PlayerOk(cfg, s, s.players[a]);
    LeftTurn(s, a);
    hide LeaveMatch, Inv;
  }

  lemma {:induction false} GoneSeat(cfg: ValidConfig, t: State, w: State, a: nat)
    requires Kept(t, w) && Inv(cfg, w) && w.phase != Lobby && a < |t.players| && t.players[a].status == Eliminated
    ensures t.players[a].seat !in ActiveSeats(w.players) && t.players[a].id == Pl(t.players[a].seat)
    ensures forall k :: 0 <= k < |w.spaces| ==> DeedOk(ActiveSeats(w.players), w.spaces[k])
  {
    assert Seated(w.players);
    HolderOf(w.players, a);
  }

  /** Someone eliminated owns nothing. */
  lemma {:induction false} NothingOwned(cfg: ValidConfig, s: State, a: nat)
    requires Inv(cfg, s) && s.phase == Playing && a < |s.players| && !IsActive(s.players[a])
    ensures forall k :: 0 <= k < |s.spaces| ==> !OwnedBy(s.spaces[k], s.players[a].id)
  {
    assert Seated(s.players);
    HolderOf(s.players, a);
    forall k | 0 <= k < |s.spaces| ensures !OwnedBy(s.spaces[k], s.players[a].id) {
      assert DeedOk(ActiveSeats(s.players), s.spaces[k]);
    }
  }

  /** If the match ended with a departure, nothing has moved since. */
  lemma {:induction false} LeaverHeld(cfg: ValidConfig, s: State, i: Input, more: seq<Input>)
    requires Inv(cfg, s) && s.phase == Playing && Accepted(cfg, s, i)
    ensures var t := Apply(cfg, s, i.actor, i.action, i.dice).value;
            t.next.phase != Playing ==> TurnHeld(t.next, After(cfg, t.next, more))
  {
    Leads(cfg, s, i, more);
    hide Apply, After, Inv, Reflected, AllReflected;
  }

  /** After the very snapshot of their outcome, leaving, declining and ending a turn are right. */
  lemma {:induction false} QuietAlwaysRight(cfg: ValidConfig, sc: Screen, s: State, i: Input)
    requires Inv(cfg, s) && s.phase == Playing && Accepted(cfg, s, i)
    requires i.action == Leave || i.action == Decline || i.action == EndTurn
    requires Shows(sc, Apply(cfg, s, i.actor, i.action, i.dice).value.next)
    ensures var t := Apply(cfg, s, i.actor, i.action, i.dice).value; StaysRight(sc, t.next, t)
  {
    hide Apply, Inv, StaysRight, Shows, Reflected, Unmoved;
    var t := Apply(cfg, s, i.actor, i.action, i.dice).value;
    assert After(cfg, t.next, []) == t.next;
    Leads(cfg, s, i, []);
    QuietExactly(cfg, sc, s, i, []);
    forall f | f in t.facts ensures Unmoved(f, t.next, t.next) { ReflectedOne(t.next, t.facts, f); }
  }

  lemma {:induction false} QuietMoneyless(cfg: ValidConfig, s: State, i: Input)
    requires s.phase == Playing && Accepted(cfg, s, i) && (i.action == Leave || i.action == Decline || i.action == EndTurn)
    ensures AllMoneyless(Apply(cfg, s, i.actor, i.action, i.dice).value.facts)
  {
    hide Evaluate, EndIfShort, NextTurn;
    forall x ensures AllMoneyless(Evaluate(cfg, x).facts) && AllMoneyless(EndIfShort(x).facts) { EndsMoneyless(cfg, x); }
  }

  /**
   A purchase is right exactly if its tick is marked, or the space is still the buyer's and the buyer has nothing left
   to pay with.
   */
  lemma {:induction false} BuyRightExactly(cfg: ValidConfig, sc: Screen, s: State, i: Input, more: seq<Input>)
    requires Inv(cfg, s) && i.action == Buy && Accepted(cfg, s, i)
    requires Shows(sc, After(cfg, Apply(cfg, s, i.actor, i.action, i.dice).value.next, more))
    ensures var t, b := Apply(cfg, s, i.actor, Buy, i.dice).value, IndexOf(s.players, i.actor);
            var w := After(cfg, t.next, more);
            && b < |s.players| == |w.players| && 0 <= s.players[b].position < |s.spaces| == |w.spaces|
            && (StaysRight(sc, w, t)
                <==> t.next.tick in sc.applied
                     || (OwnedBy(w.spaces[s.players[b].position], i.actor) && w.players[b].money == 0))
  {
    hide Inv, StaysRight, BalancesStand, After, Apply, AllReflected, Reflected;
    var t, b := Apply(cfg, s, i.actor, Buy, i.dice).value, IndexOf(s.players, i.actor);
    var w := After(cfg, t.next, more);
    BuyNames(cfg, s, i);
    Leads(cfg, s, i, more);
    MoneyHeld(cfg, w);
    RightExactly(cfg, sc, s, i, more);
    SameIdAt(t.next.players, w.players, b);
    BuyStands(w, t.facts, b);
    BuyUnmoved(cfg, s, i, more);
  }

  lemma SameIdAt(ps: seq<Player>, qs: seq<Player>, i: nat)
    requires SameSeats(ps, qs) && i < |ps|
    ensures i < |qs| == |ps| && qs[i].id == ps[i].id
  {
  }

  lemma {:induction false} BuyUnmoved(cfg: ValidConfig, s: State, i: Input, more: seq<Input>)
    requires Inv(cfg, s) && s.phase == Playing && i.action == Buy && Accepted(cfg, s, i)
    ensures var t, b := Apply(cfg, s, i.actor, Buy, i.dice).value, IndexOf(s.players, i.actor);
            var w := After(cfg, t.next, more);
            && b < |s.players| == |w.players| && 0 <= s.players[b].position < |s.spaces| == |w.spaces|
            && (AllReflected(w, t.facts) <==> OwnedBy(w.spaces[s.players[b].position], i.actor))
  {
    var t, b := Apply(cfg, s, i.actor, Buy, i.dice).value, IndexOf(s.players, i.actor);
    var w := After(cfg, t.next, more);
    hide Inv, Core, After, Apply, Reflected, AllReflected, FindSpace, UniqueSpaces, SameDefs, SameSeats, SaysOne, Unmoved;
    Leads(cfg, s, i, more);
    DecisionSays(cfg, s, i);
    CoreInPlay(cfg, s);
    SpacesUnique(cfg, s);
    var at := s.players[b].position;
    KeptChain(s, t.next, w);
    SameIdAt(s.players, w.players, b);
    SameLength(s.spaces, w.spaces);
    SaysFirst(t.facts, PropertyBought(i.actor, s.spaces[at].def.id, s.spaces[at].def.price));
    OneUnmoved(t.facts, t.facts[0], t.next, w);
    BoughtUnmoved(s.spaces, at, t.facts[0], t.next, w);
  }

  lemma SameLength(spaces: seq<Space>, others: seq<Space>)
    requires SameDefs(spaces, others)
    ensures |others| == |spaces|
  {
  }

  lemma SaysFirst(facts: seq<Fact>, f: Fact)
    requires SaysOne(facts, f)
    ensures facts != [] && facts[0] == f
  {
  }

  lemma {:induction false} BoughtUnmoved(spaces: seq<Space>, at: nat, f: Fact, t: State, w: State)
    requires UniqueSpaces(spaces) && SameDefs(spaces, w.spaces) && at < |spaces|
    requires f.PropertyBought? && f.space == spaces[at].def.id
    ensures |w.spaces| == |spaces| && (Unmoved(f, t, w) <==> OwnedBy(w.spaces[at], f.id))
  {
    FindUnique(spaces, at);
    SameDefsFind(spaces, w.spaces, f.space);
    hide FindSpace, UniqueSpaces;
  }

  lemma {:induction false} BuyStands(t: State, facts: seq<Fact>, b: nat)
    requires Seated(t.players) && b < |t.players| && forall i :: 0 <= i < |t.players| ==> 0 <= t.players[i].money
    requires facts != [] && facts[0].PropertyBought? && facts[0].id == t.players[b].id && facts[0].price >= 1
    requires AllMoneyless(facts[1..])
    ensures BalancesStand(t, facts) <==> t.players[b].money == 0
  {
    hide RefoldAll, AllMoneyless, Seated;
    var f, end := facts[0], facts[1..];
    assert facts == [f] + end;
    forall j | 0 <= j < |t.players|
      ensures RefoldAll(t.players[j].money, t.players[j].id, facts) == Refold(t.players[j].money, t.players[j].id, f)
    {
      var p := t.players[j];
      RefoldConcat(p.money, p.id, [f], end);
      RefoldOne(p.money, p.id, f);
      RefoldMoneyless(Refold(p.money, p.id, f), p.id, end);
    }
    SoleId(t, b);
  }

  lemma {:induction false} MoneyHeld(cfg: ValidConfig, s: State)
    requires Inv(cfg, s)
    ensures Seated(s.players) && forall i :: 0 <= i < |s.players| ==> 0 <= s.players[i].money
  {
    forall i | 0 <= i < |s.players| ensures 0 <= s.players[i].money { assert PlayerOk(cfg, s, s.players[i]); }
  }

  lemma {:induction false} SoleId(s: State, i: nat)
    requires Seated(s.players) && i < |s.players|
    ensures forall j :: 0 <= j < |s.players| ==> (s.players[j].id == s.players[i].id <==> j == i)
  {
    forall j | 0 <= j < |s.players| && s.players[j].id == s.players[i].id ensures j == i {
      assert s.players[j].seat == s.players[i].seat;
    }
  }

  lemma {:induction false} BuyNames(cfg: ValidConfig, s: State, i: Input)
    requires Inv(cfg, s) && i.action == Buy && Accepted(cfg, s, i)
    ensures s.phase == Playing
    ensures var r, b := Apply(cfg, s, i.actor, Buy, i.dice).value, IndexOf(s.players, i.actor);
            && r.facts != [] && r.facts[0].PropertyBought? && r.facts[0].id == i.actor && r.facts[0].price >= 1
            && AllMoneyless(r.facts[1..]) && b < |r.next.players| && r.next.players[b].id == i.actor
  {
    var at := s.players[IndexOf(s.players, i.actor)].position;
    assert SpaceOk(cfg.board[at]);
    hide Core, PlayingOk, Evaluate;
    forall x ensures AllMoneyless(Evaluate(cfg, x).facts) && Evaluate(cfg, x).next.players == x.players {
      EndsMoneyless(cfg, x);
      ClosingEndsOrNot(cfg, x);
    }
    var r := DoBuy(cfg, s, i.actor).value;
    assert forall f :: f in r.facts[1..] ==> Moneyless(f);
  }

  // ---- rolls: the amounts their events name -----------------------------------------

  /** Bonus paid in, tax paid out and rent paid over, as the events name them. */
  datatype Named = Named(bonus: int, tax: int, rent: int)

  function Amounts(facts: seq<Fact>): Named {
    if facts == [] then Named(0, 0, 0)
    else
      var n := Amounts(facts[..|facts| - 1]);
      match facts[|facts| - 1]
      case BankTransfer(_, amount, ToPlayer, _) => n.(bonus := n.bonus + amount)
      case BankTransfer(_, amount, ToBank, _) => n.(tax := n.tax + amount)
      case RentPaid(_, _, _, amount) => n.(rent := n.rent + amount)
      case _ => n
  }

  lemma {:induction false} AmountsConcat(x: seq<Fact>, y: seq<Fact>)
    ensures var a, b := Amounts(x), Amounts(y);
            Amounts(x + y) == Named(a.bonus + b.bonus, a.tax + b.tax, a.rent + b.rent)
  {
    if y == [] {
      assert x + y == x;
    } else {
      assert (x + y)[..|x + y| - 1] == x + y[..|y| - 1];
      AmountsConcat(x, y[..|y| - 1]);
    }
  }

  lemma {:induction false} AmountsMoneyless(facts: seq<Fact>)
    requires AllMoneyless(facts)
    ensures Amounts(facts) == Named(0, 0, 0)
  {
    if facts == [] {
    } else {
      AmountsMoneyless(facts[..|facts| - 1]);
      assert Moneyless(facts[|facts| - 1]);
    }
  }

  lemma {:induction false} AmountsOne(f: Fact)
    ensures Amounts([f]) == match f
                            case BankTransfer(_, amount, ToPlayer, _) => Named(amount, 0, 0)
                            case BankTransfer(_, amount, ToBank, _) => Named(0, amount, 0)
                            case RentPaid(_, _, _, amount) => Named(0, 0, amount)
                            case _ => Named(0, 0, 0)
  {
    assert [f][..0] == [];
    assert Amounts([]) == Named(0, 0, 0);
  }

  /** Folding these amounts again: the roller gets the bonus and pays the rest; one other player may get the rent. */
  ghost predicate RefoldsAs(facts: seq<Fact>, roller: PlayerId, payee: PlayerId) {
    var n := Amounts(facts);
    && 0 <= n.bonus && 0 <= n.tax && 0 <= n.rent && payee != roller
    && forall b, id :: 0 <= b ==>
         RefoldAll(b, id, facts) == if id == roller then Max(0, b + n.bonus - n.tax - n.rent)
                                    else if id == payee then b + n.rent else b
  }

  lemma {:induction false} MoneylessRefolds(facts: seq<Fact>, roller: PlayerId, payee: PlayerId)
    requires AllMoneyless(facts) && payee != roller
    ensures RefoldsAs(facts, roller, payee)
  {
    AmountsMoneyless(facts);
    forall b, id | 0 <= b ensures RefoldAll(b, id, facts) == b { RefoldMoneyless(b, id, facts); }
  }

  lemma {:induction false} OneRefolds(f: Fact, roller: PlayerId, payee: PlayerId)
    requires payee != roller
    requires match f
             case BankTransfer(id, amount, _, _) => id == roller && 0 <= amount
             case RentPaid(x, y, _, amount) => x == roller && y == payee && 0 <= amount
             case _ => false
    ensures RefoldsAs([f], roller, payee)
  {
    AmountsOne(f);
    forall b, id | 0 <= b ensures RefoldAll(b, id, [f]) == Refold(b, id, f) { RefoldOne(b, id, f); }
  }

  /** A bonus first and the rest after is one sum, nothing being clamped in between. */
  lemma {:induction false} RefoldsChain(x: seq<Fact>, y: seq<Fact>, roller: PlayerId, payee: PlayerId)
    requires RefoldsAs(x, roller, payee) && RefoldsAs(y, roller, payee)
    requires (Amounts(x).tax == 0 && Amounts(x).rent == 0) || Amounts(y) == Named(0, 0, 0)
    ensures RefoldsAs(x + y, roller, payee)
  {
    AmountsConcat(x, y);
    var m, n := Amounts(x), Amounts(y);
    hide Amounts;
    forall b, id | 0 <= b
      ensures RefoldAll(b, id, x + y) == if id == roller then Max(0, b + (m.bonus + n.bonus) - (m.tax + n.tax) - (m.rent + n.rent))
                                         else if id == payee then b + (m.rent + n.rent) else b
    {
      RefoldConcat(b, id, x, y);
      assert 0 <= RefoldAll(b, id, x);
    }
  }

  lemma {:induction false} MovesRefold(cfg: ValidConfig, s: State, i: nat, dice: Dice, payee: PlayerId)
    requires i < |s.players| && payee != s.players[i].id
    ensures var facts := MoveFacts(cfg, s, i, dice);
            RefoldsAs(facts, s.players[i].id, payee) && Amounts(facts).tax == 0 && Amounts(facts).rent == 0
  {
    var facts, id := MoveFacts(cfg, s, i, dice), s.players[i].id;
    var w := Walk(s.players[i].position, dice.d1 + dice.d2, |s.spaces|);
    GoBonusNonNegative(cfg, w.1);
    var roll := facts[..1];
    hide Walk, GoBonus, RefoldsAs;
    assert roll == [facts[0]] && AllMoneyless(roll);
    AmountsMoneyless(roll);
    MoneylessRefolds(roll, id, payee);
    if w.1 > 0 {
      assert facts == roll + [facts[1]];
      OneRefolds(facts[1], id, payee);
      AmountsOne(facts[1]);
      AmountsConcat(roll, [facts[1]]);
      RefoldsChain(roll, [facts[1]], id, payee);
    } else {
      assert facts == roll;
    }
  }

  lemma {:induction false} LandingRefolds(cfg: ValidConfig, s: State, i: nat) returns (payee: PlayerId)
    requires i < |s.players| && Landable(cfg, s, i) && ResolveLanding(s, i, s.players[i].position).Ok?
    ensures var l := ResolveLanding(s, i, s.players[i].position).value;
            RefoldsAs(l.facts, s.players[i].id, payee) && payee != s.players[i].id
            && (Amounts(l.facts).rent != 0 ==> Has(s.players, payee))
  {
    hide Landable, RefoldsAs, Amounts, NextTurn, Eliminate, OwnedIds, Pay;
    StandsOnBoard(cfg, s, i);
    var id, space := s.players[i].id, s.spaces[s.players[i].position];
    assert SpaceOk(space.def) by { QuietLanding(cfg, s, i); }
    RollerNamed(cfg, s, i);
    var l := ResolveLanding(s, i, s.players[i].position).value;
    payee := if space.def.kind == Property && l.facts != [] && l.facts[0].RentPaid? then space.owner else NoPlayer;
    if l.facts != [] && (l.facts[0].RentPaid? || l.facts[0].BankTransfer?) {
      assert l.facts == [l.facts[0]];
      OneRefolds(l.facts[0], id, payee);
      AmountsOne(l.facts[0]);
    } else {
      MoneylessRefolds(l.facts, id, payee);
      AmountsMoneyless(l.facts);
    }
  }

  lemma RollerNamed(cfg: ValidConfig, s: State, i: nat)
    requires i < |s.players| && Landable(cfg, s, i)
    ensures s.players[i].id != NoPlayer
  {
  }

  /**
   A roll is right exactly if its tick is marked; or the roller still stands where it led, nothing their bankruptcy gave
   up has been bought and the turn has not moved on since, if it did bankrupt them, and it named no rent and its bonus
   and tax once more leave their balance as it is.
   */
  lemma {:induction false} RollRightExactly(cfg: ValidConfig, sc: Screen, s: State, i: Input, more: seq<Input>)
    requires Inv(cfg, s) && i.action == Roll && Accepted(cfg, s, i)
    requires Shows(sc, After(cfg, Apply(cfg, s, i.actor, i.action, i.dice).value.next, more))
    ensures var t, r := Apply(cfg, s, i.actor, Roll, i.dice).value, IndexOf(s.players, i.actor);
            var w := After(cfg, t.next, more);
            && r < |s.players| == |t.next.players| == |w.players|
            && var b, n := w.players[r].money, Amounts(t.facts);
              StaysRight(sc, w, t)
              <==> t.next.tick in sc.applied
                   || (&& w.players[r].position == t.next.players[r].position
                       && (!IsActive(t.next.players[r]) ==> StillFree(s.spaces, w.spaces, i.actor) && TurnHeld(t.next, w))
                       && n.rent == 0 && Max(0, b + n.bonus - n.tax) == b)
  {
    hide Apply, Inv, StaysRight, Amounts, RefoldsAs, BalancesStand, After, AllReflected, Reflected, StillFree, IsActive;
    var t, r := Apply(cfg, s, i.actor, Roll, i.dice).value, IndexOf(s.players, i.actor);
    var w := After(cfg, t.next, more);
    var payee := RollRefolds(cfg, s, i);
    Leads(cfg, s, i, more);
    MoneyHeld(cfg, w);
    RightExactly(cfg, sc, s, i, more);
    SameIdAt(t.next.players, w.players, r);
    SameIdsFound(t.next.players, w.players, payee);
    RollStands(w, t.facts, r, payee);
    RollUnmoved(cfg, s, i, more);
  }

  /** A roll says where it led and, of a bankruptcy, what was given up and whose turn it is. */
  lemma {:induction false} RollSaysWhere(cfg: ValidConfig, s: State, i: Input)
    requires Inv(cfg, s) && i.action == Roll && Accepted(cfg, s, i)
    ensures var t, r := Apply(cfg, s, i.actor, Roll, i.dice).value, IndexOf(s.players, i.actor);
            && s.phase == Playing && r < |s.players| == |t.next.players| && s.players[r].id == i.actor
            && t.facts != [] && t.facts[0].DiceRolled? && t.facts[0].id == i.actor
            && (forall f :: f in t.facts && f != t.facts[0] ==> !f.DiceRolled? && !f.PropertyBought?)
            && (forall f :: f in t.facts && f.PlayerBankrupt? ==>
                  !IsActive(t.next.players[r]) && f.id == i.actor && f.released == OwnedIds(s.spaces, i.actor))
            && (forall f :: f in t.facts && f.TurnAdvanced? ==>
                  !IsActive(t.next.players[r]) && f == TurnAdvanced(t.next.turn.seat, t.next.turn.round))
            && (!IsActive(t.next.players[r]) ==>
                  && (exists f :: f in t.facts && f.PlayerBankrupt?)
                  && exists f :: f in t.facts && f.TurnAdvanced?)
  {
    hide Inv, Core, Apply, ResolveLanding, OwnedIds, ActiveSeats, Settled, IsActive;
    var l, e := RollParts(cfg, s, i);
    var r := IndexOf(s.players, i.actor);
    var t, front := Apply(cfg, s, i.actor, Roll, i.dice).value, MoveFacts(cfg, s, r, i.dice);
    assert front[0].DiceRolled? && front[0].id == i.actor && forall f :: f in front && f != front[0] ==> f.BankTransfer?;
    hide MoveFacts;
    assert t.facts[0] == front[0];
    forall f | f in t.facts ensures f in front || f in l.facts || f in e {}
  }

  /** What a roll says is its movement, its landing, and perhaps the end of the match. */
  lemma {:induction false} RollParts(cfg: ValidConfig, s: State, i: Input) returns (l: Landing, e: seq<Fact>)
    requires Inv(cfg, s) && i.action == Roll && Accepted(cfg, s, i)
    ensures var t, r := Apply(cfg, s, i.actor, Roll, i.dice).value, IndexOf(s.players, i.actor);
            && s.phase == Playing && r < |s.players| == |t.next.players| && s.players[r].id == i.actor
            && t.facts == MoveFacts(cfg, s, r, i.dice) + l.facts + e && EndsOnly(e)
            && (l.bankrupt <==> !IsActive(t.next.players[r]))
            && if !l.bankrupt then forall f :: f in l.facts ==> f.RentPaid? || f.BankTransfer?
               else
                 && (forall f :: f in l.facts ==>
                       || (f.PlayerBankrupt? && f.id == i.actor && f.released == OwnedIds(s.spaces, i.actor))
                       || f.PlayerEliminated? || f == TurnAdvanced(t.next.turn.seat, t.next.turn.round))
                 && (exists f :: f in l.facts && f.PlayerBankrupt?)
                 && TurnAdvanced(t.next.turn.seat, t.next.turn.round) in l.facts
  {
    hide Core, PlayingOk, Landable, ResolveLanding, Evaluate, Walk, GoBonus, OwnedIds, ActiveSeats, MoveFacts;
    HolderLands(cfg, s, i.actor);
    var r := IndexOf(s.players, i.actor);
    var moved := Moved(cfg, s, r, i.dice.d1 + i.dice.d2);
    MovedLandable(cfg, s, r, i.dice.d1 + i.dice.d2);
    LandingSays(moved, r, moved.players[r].position);
    LandingStaysIn(cfg, moved, r);
    l := ResolveLanding(moved, r, moved.players[r].position).value;
    var x := Settled(cfg, l, Streak(cfg, s.turn.streak, i.dice));
    EvaluateSays(cfg, x);
    EvaluateKeeps(cfg, x);
    e := Evaluate(cfg, x).facts;
  }

  /** A landing is a bankruptcy exactly if the roller is out, and somebody is left then. */
  lemma {:induction false} LandingStaysIn(cfg: ValidConfig, s: State, i: nat)
    requires i < |s.players| && Landable(cfg, s, i) && ResolveLanding(s, i, s.players[i].position).Ok?
    ensures var l := ResolveLanding(s, i, s.players[i].position).value;
            && |l.next.players| == |s.players| && (l.bankrupt <==> !IsActive(l.next.players[i]))
            && (l.bankrupt ==> ActiveSeats(l.next.players) != {})
  {
    LandingMid(cfg, s, i);
    LandingOffers(cfg, s, i);
    LandingKeepsPlaces(s, i, s.players[i].position);
    var l := ResolveLanding(s, i, s.players[i].position).value;
    assert Seated(s.players);
    HolderOf(s.players, i);
    if l.bankrupt {
      var others := ActiveSeats(s.players) - {s.turn.seat};
      assert |others| >= 1;
    } else {
      SeatsStay(s.players, l.next.players);
      HolderOf(l.next.players, i);
    }
    hide ResolveLanding;
  }

  lemma {:induction false} RollUnmoved(cfg: ValidConfig, s: State, i: Input, more: seq<Input>)
    requires Inv(cfg, s) && i.action == Roll && Accepted(cfg, s, i)
    ensures var t, r := Apply(cfg, s, i.actor, Roll, i.dice).value, IndexOf(s.players, i.actor);
            var w := After(cfg, t.next, more);
            && r < |s.players| == |t.next.players| == |w.players|
            && (AllReflected(w, t.facts)
                <==> (&& w.players[r].position == t.next.players[r].position
                      && (!IsActive(t.next.players[r]) ==> StillFree(s.spaces, w.spaces, i.actor) && TurnHeld(t.next, w))))
  {
    hide After, Apply, Reflected, AllReflected, OwnedIds, StillFree, Unmoved, Inv, DeedOk, SameSeats, ActiveSeats;
    var t, r := Apply(cfg, s, i.actor, Roll, i.dice).value, IndexOf(s.players, i.actor);
    var w := After(cfg, t.next, more);
    RollSaysWhere(cfg, s, i);
    Leads(cfg, s, i, more);
    SameIdAt(s.players, t.next.players, r);
    SameIdAt(t.next.players, w.players, r);
    DiceUnmoved(cfg, t.next, w, t.facts[0], r);
    if !IsActive(t.next.players[r]) {
      CoreInPlay(cfg, s);
      SpacesUnique(cfg, s);
      KeptChain(s, t.next, w);
      OutNotActive(cfg, t.next, r);
      GoneSeat(cfg, t.next, w, r);
    }
    forall f | f in t.facts
      ensures Unmoved(f, t.next, w)
              <==> (f == t.facts[0] ==> w.players[r].position == t.next.players[r].position)
                   && (f.PlayerBankrupt? ==> StillFree(s.spaces, w.spaces, i.actor)) && (f.TurnAdvanced? ==> TurnHeld(t.next, w))
    {
      if f.PlayerBankrupt? {
        BankruptUnmoved(s.spaces, ActiveSeats(w.players), w, t.next, f, i.actor);
      } else if f.TurnAdvanced? {
        TurnUnmoved(f, t.next, w);
      } else if f != t.facts[0] {
        ElsewhereUnmoved(f, t.next, w);
      }
    }
  }

  lemma TurnUnmoved(f: Fact, t: State, w: State)
    requires f.TurnAdvanced?
    ensures Unmoved(f, t, w) <==> TurnHeld(t, w)
  {
  }

  lemma CoreInPlay(cfg: ValidConfig, s: State)
    requires Inv(cfg, s) && s.phase == Playing
    ensures Core(cfg, s)
  {
  }

  lemma {:induction false} DiceUnmoved(cfg: ValidConfig, t: State, w: State, f: Fact, r: nat)
    requires Inv(cfg, t) && SameSeats(t.players, w.players) && r < |t.players|
    requires f.DiceRolled? && f.id == t.players[r].id
    ensures Unmoved(f, t, w) <==> w.players[r].position == t.players[r].position
  {
    MoneyHeld(cfg, t);
    SoleId(t, r);
    hide Inv, Seated;
  }

  lemma {:induction false} OutNotActive(cfg: ValidConfig, s: State, i: nat)
    requires Inv(cfg, s) && i < |s.players| && !IsActive(s.players[i])
    ensures s.players[i].status == Eliminated
  {
    assert PlayerOk(cfg, s, s.players[i]);
  }

  lemma {:induction false} RollStands(t: State, facts: seq<Fact>, r: nat, payee: PlayerId)
    requires Seated(t.players) && r < |t.players| && forall i :: 0 <= i < |t.players| ==> 0 <= t.players[i].money
    requires RefoldsAs(facts, t.players[r].id, payee) && (Amounts(facts).rent != 0 ==> Has(t.players, payee))
    ensures var b, n := t.players[r].money, Amounts(facts);
            BalancesStand(t, facts) <==> n.rent == 0 && Max(0, b + n.bonus - n.tax) == b
  {
    hide RefoldAll, Amounts, Seated;
    SoleId(t, r);
    if Amounts(facts).rent != 0 {
      var j := IndexOf(t.players, payee);
      assert RefoldAll(t.players[j].money, payee, facts) == t.players[j].money + Amounts(facts).rent;
    }
  }

  lemma {:induction false} RollRefolds(cfg: ValidConfig, s: State, i: Input) returns (payee: PlayerId)
    requires Inv(cfg, s) && i.action == Roll && Accepted(cfg, s, i)
    ensures s.phase == Playing
    ensures var t, r := Apply(cfg, s, i.actor, Roll, i.dice).value, IndexOf(s.players, i.actor);
            && r < |t.next.players| && t.next.players[r].id == i.actor
            && RefoldsAs(t.facts, i.actor, payee) && (Amounts(t.facts).rent != 0 ==> Has(t.next.players, payee))
  {
    hide Core, PlayingOk, Landable, RefoldsAs, Amounts, ResolveLanding, Evaluate, Walk, GoBonus, MoveFacts, Settled;
    HolderLands(cfg, s, i.actor);
    var r := IndexOf(s.players, i.actor);
    var moved := Moved(cfg, s, r, i.dice.d1 + i.dice.d2);
    MovedLandable(cfg, s, r, i.dice.d1 + i.dice.d2);
    var l := ResolveLanding(moved, r, moved.players[r].position).value;
    payee := LandingRefolds(cfg, moved, r);
    LandingKeepsPlaces(moved, r, moved.players[r].position);
    MovesRefold(cfg, s, r, i.dice, payee);
    var x := Settled(cfg, l, Streak(cfg, s.turn.streak, i.dice));
    SettledPlaces(cfg, l, Streak(cfg, s.turn.streak, i.dice));
    var end := Evaluate(cfg, x);
    ClosingEndsOrNot(cfg, x);
    EndsMoneyless(cfg, x);
    MoneylessRefolds(end.facts, i.actor, payee);
    AmountsMoneyless(end.facts);
    var front := MoveFacts(cfg, s, r, i.dice) + l.facts;
    RefoldsChain(MoveFacts(cfg, s, r, i.dice), l.facts, i.actor, payee);
    RefoldsChain(front, end.facts, i.actor, payee);
    AmountsConcat(MoveFacts(cfg, s, r, i.dice), l.facts);
    AmountsConcat(front, end.facts);
    SameIdsFound(moved.players, x.players, payee);
  }

  lemma SettledPlaces(cfg: ValidConfig, l: Landing, streak: (int, bool))
    ensures Settled(cfg, l, streak).players == l.next.players
  {
  }

  lemma {:induction false} SameIdsFound(ps: seq<Player>, qs: seq<Player>, id: PlayerId)
    requires SameSeats(ps, qs)
    ensures Has(qs, id) <==> Has(ps, id)
  {
    assert IndexOf(qs, id) == IndexOf(ps, id);
  }

  // ---- a purchase that is charged twice, and a run that reaches one -----------------------

  /** A purchase that does not end the match says exactly what it cost. */
  lemma {:induction false} PurchaseSays(cfg: ValidConfig, s: State, actor: PlayerId)
    requires Inv(cfg, s) && DoBuy(cfg, s, actor).Ok? && DoBuy(cfg, s, actor).value.next.phase == Playing
    ensures var r, i := DoBuy(cfg, s, actor).value, IndexOf(s.players, actor);
            && i < |s.players| == |r.next.players| && 0 <= s.players[i].position < |s.spaces|
            && r.next.players[i].id == actor
            && var def := s.spaces[s.players[i].position].def;
              def.price >= 1 && r.facts == [PropertyBought(actor, def.id, def.price)]
  {
    var at := s.players[IndexOf(s.players, actor)].position;
    assert SpaceOk(cfg.board[at]);
    hide TargetReached, Richest, Core, PlayingOk;
  }

  /**
   A snapshot marks no tick. A transition that arrives after a snapshot already containing it is folded again
   exactly when its tick is unmarked: the buyer of a space is then charged a second time on screen.
   */
  lemma {:induction false} OvertakenBatchChargesTwice(cfg: ValidConfig, sc: Screen, s: State, actor: PlayerId, resync: bool)
    requires Inv(cfg, s) && DoBuy(cfg, s, actor).Ok? && DoBuy(cfg, s, actor).value.next.phase == Playing
    requires sc.view.Some? ==> sc.view.value.tick <= s.tick + 1
    ensures var r := Apply(cfg, s, actor, Buy, NO_DICE).value;
            var shown, i := ApplySnapshot(sc, r.next, resync), IndexOf(s.players, actor);
            var later := ApplyEvents(shown, Stamped(r.facts, r.next.tick));
            && i < |r.next.players| && 0 <= s.players[i].position < |s.spaces| && shown.view == Some(r.next)
            && later.view.Some? && |later.view.value.players| == |r.next.players|
            && var before, after := r.next.players[i].money, later.view.value.players[i].money;
              if r.next.tick in sc.applied then later.view == shown.view
              else after == Max(0, before - s.spaces[s.players[i].position].def.price) && (0 < before ==> after < before)
  {
    hide DoBuy, Inv, Fold, Mark, ReduceAll, Reduce;
    PurchaseSays(cfg, s, actor);
    var r := Apply(cfg, s, actor, Buy, NO_DICE).value;
    FoldIsReduce(r.next, r.facts, r.next.tick);
    ReducesOne(r.next, r.facts[0]);
    PurchaseCharges(r.next, actor, r.facts[0].space, r.facts[0].price);
  }

  lemma PurchaseCharges(v: State, id: PlayerId, space: string, price: int)
    ensures var w := Reduce(v, PropertyBought(id, space, price));
            && |w.players| == |v.players|
            && forall i :: 0 <= i < |v.players| && v.players[i].id == id ==>
                 w.players[i].money == Max(0, v.players[i].money - price)
  {
  }

  lemma {:induction false} ReducesOne(v: State, f: Fact)
    ensures ReduceAll(v, [f]) == Reduce(v, f)
  {
    assert [f][..0] == [];
  }

  /** Two spaces, the second one for sale. */
  function Town(): ValidConfig {
    GameConfig(CONFIG_SCHEMA_VERSION, 2, 2, 100, Gambling(false, false, false, false), RandomEvents(false, 0),
               Victory(LastStanding, 0, 0),
               [BoardSpace("go", Go, "Start", "", 0, 0, 0), BoardSpace("mill", Property, "Mill", "red", 10, 5, 0)],
               PropertyRules(0, false, 0))
  }

  const TO_MILL: Dice := DicePair(1, 2)

  const OPENING := [Input(NoPlayer, Join("A"), NO_DICE), Input(NoPlayer, Join("B"), NO_DICE),
                    Input(Pl(0), Ready(true), NO_DICE), Input(Pl(1), Ready(true), NO_DICE),
                    Input(Pl(0), Start, NO_DICE), Input(Pl(0), Roll, TO_MILL)]

  function Townsman(seat: nat, name: string, ready: bool): Player {
    Player(Pl(seat), name, seat, 100, Active, ready, seat == 0, 0)
  }

  function TownLobby(a: bool, b: bool, tick: nat): State {
    NewState(NewBoard(Town())).(players := [Townsman(0, "A", a), Townsman(1, "B", b)], tick := tick)
  }

  lemma {:induction false} AfterSnoc(cfg: ValidConfig, s: State, inputs: seq<Input>, k: nat)
    requires k < |inputs|
    ensures After(cfg, s, inputs[..k + 1]) == Step(cfg, After(cfg, s, inputs[..k]), inputs[k]).next
  {
    hide Step;
    assert inputs[..k + 1][..k] == inputs[..k];
  }

  lemma {:induction false} TownJoins()
    ensures var s := NewState(NewBoard(Town()));
            var one := Step(Town(), s, OPENING[0]).next;
            one == s.(players := [Townsman(0, "A", false)], tick := 1)
            && Step(Town(), one, OPENING[1]).next == TownLobby(false, false, 2)
  {
    FirstSeat();
    SecondSeat([Townsman(0, "A", false)]);
  }

  lemma TownReadies()
    ensures Step(Town(), TownLobby(false, false, 2), OPENING[2]).next == TownLobby(true, false, 3)
    ensures Step(Town(), TownLobby(true, false, 3), OPENING[3]).next == TownLobby(true, true, 4)
  {
  }

  lemma {:induction false} TwoSeats(ps: seq<Player>)
    requires |ps| == 2 && ps[0].seat == 0 && ps[1].seat == 1 && IsActive(ps[0]) && IsActive(ps[1])
    ensures ActiveSeats(ps) == {0, 1} && |ActiveSeats(ps)| == 2 && Least(ActiveSeats(ps)) == 0
  {
    assert ps[0].seat in ActiveSeats(ps) && ps[1].seat in ActiveSeats(ps);
    assert IsLeast(0, ActiveSeats(ps));
  }

  function TownStarted(): State {
    TownLobby(true, true, 5).(phase := Playing, turn := Turn(0, AwaitRoll, 1, 0, false))
  }

  lemma {:induction false} TownStarts()
    ensures Step(Town(), TownLobby(true, true, 4), OPENING[4]).next == TownStarted()
  {
    TwoSeats(TownLobby(true, true, 4).players);
    ActivesCounted(TownLobby(true, true, 4).players);
  }

  function AtMill(): State {
    TownStarted().(tick := 6, turn := Turn(0, AwaitBuyDecision, 1, 0, false),
                   players := [Townsman(0, "A", true).(position := 1), Townsman(1, "B", true)])
  }

  lemma {:induction false} WalkToMill()
    ensures Walk(0, 3, 2) == (1, 1) && GoBonus(Town(), 1) == 0
  {
    assert Walk(0, 1, 2) == (1, 0);
    assert Walk(0, 2, 2) == (0, 1);
    assert GoBonus(Town(), 0) == 0;
  }

  lemma {:induction false} TownRolls()
    ensures Step(Town(), TownStarted(), OPENING[5]).next == AtMill()
  {
    hide Walk, GoBonus, ActiveSeats;
    var s, cfg := TownStarted(), Town();
    WalkToMill();
    assert IndexOf(s.players, Pl(0)) == 0 && TurnError(s, Pl(0), AwaitRoll) == None;
    var moved := Moved(cfg, s, 0, 3);
    assert moved.players == AtMill().players;
    assert ResolveLanding(moved, 0, 1) == Ok(Landing(moved, [], true, false));
    var x := moved.(turn := AtMill().turn);
    assert Settled(cfg, Landing(moved, [], true, false), Streak(cfg, 0, TO_MILL)) == x;
    TwoSeats(x.players);
    ActivesCounted(x.players);
    assert Evaluate(cfg, x) == Transition(x, []);
  }

  lemma {:induction false} TownBuys()
    ensures var i := Input(Pl(0), Buy, NO_DICE);
            Accepted(Town(), AtMill(), i) && Apply(Town(), AtMill(), Pl(0), Buy, NO_DICE).value.next.phase == Playing
            && IndexOf(AtMill().players, Pl(0)) == 0
            && |Apply(Town(), AtMill(), Pl(0), Buy, NO_DICE).value.next.players| == 2
            && Apply(Town(), AtMill(), Pl(0), Buy, NO_DICE).value.next.players[0].money == 90
  {
    var ps := AtMill().players;
    TwoSeats(ps[0 := ps[0].(money := 90)]);
    ActivesCounted(ps[0 := ps[0].(money := 90)]);
    hide ActiveSeats, Actives;
  }

  /** A given match reaches a purchase that a screen fed its snapshot first shows wrongly. */
  lemma {:induction false} ChargedTwiceArises()
    ensures var cfg, s0, i := Town(), NewState(NewBoard(Town())), Input(Pl(0), Buy, NO_DICE);
            var s := After(cfg, s0, OPENING);
            Initial(cfg, s0) && Accepted(cfg, s, i) &&
            var t := Apply(cfg, s, Pl(0), Buy, NO_DICE).value;
            var shown := ApplySnapshot(Screen(None, None, [], 0, false), t.next, false);
            Shows(shown, t.next) && !StaysRight(shown, t.next, t)
  {
    var cfg, s0, i := Town(), NewState(NewBoard(Town())), Input(Pl(0), Buy, NO_DICE);
    hide Step, Town, NewBoard, Inv, Apply, StaysRight;
    OpeningLeads();
    TownBuys();
    InitialInv(cfg, s0);
    RunInv(cfg, s0, OPENING);
    var t := Apply(cfg, AtMill(), Pl(0), Buy, NO_DICE).value;
    var shown := ApplySnapshot(Screen(None, None, [], 0, false), t.next, false);
    SnapshotShows(Screen(None, None, [], 0, false), t.next, false);
    assert After(cfg, t.next, []) == t.next;
    BuyRightExactly(cfg, shown, AtMill(), i, []);
  }

  lemma {:induction false} OpeningLeads()
    ensures Initial(Town(), NewState(NewBoard(Town()))) && After(Town(), NewState(NewBoard(Town())), OPENING) == AtMill()
  {
    var cfg, s0 := Town(), NewState(NewBoard(Town()));
    hide Step, Town, NewBoard;
    TownJoins();
    TownReadies();
    TownStarts();
    TownRolls();
    AfterSnoc(cfg, s0, OPENING, 0);
    AfterSnoc(cfg, s0, OPENING, 1);
    AfterSnoc(cfg, s0, OPENING, 2);
    AfterSnoc(cfg, s0, OPENING, 3);
    AfterSnoc(cfg, s0, OPENING, 4);
    AfterSnoc(cfg, s0, OPENING, 5);
    assert OPENING[..6] == OPENING && OPENING[..0] == [];
  }

  // ---- a turn that is put back ----------------------------------------------------------

  /** An ended turn, and then the departure of whoever it passed to. */
  ghost function PassedOn(cfg: ValidConfig, s: State, i: Input): seq<Input> {
    [Input(Pl(Step(cfg, s, i).next.turn.seat), Leave, NO_DICE)]
  }

  /**
   In any running match with three players or more left: once the player to whom a turn was passed has left too, the
   passing of it, arriving after the snapshot, puts the turn back to them.
   */
  lemma {:induction false} TurnPutBack(cfg: ValidConfig, sc: Screen, s: State, i: Input)
    requires Inv(cfg, s) && i.action == EndTurn && Accepted(cfg, s, i) && Step(cfg, s, i).next.phase == Playing
    requires 3 <= |ActiveSeats(s.players)|
    requires var t := Apply(cfg, s, i.actor, i.action, i.dice).value;
             Shows(sc, After(cfg, t.next, PassedOn(cfg, s, i))) && t.next.tick !in sc.applied
    ensures var t := Apply(cfg, s, i.actor, i.action, i.dice).value;
            var w := After(cfg, t.next, PassedOn(cfg, s, i));
            && w.phase == Playing && w.tick == t.next.tick + 1 && BalancesStand(w, t.facts)
            && !TurnHeld(t.next, w) && !StaysRight(sc, w, t)
  {
    assert s.phase == Playing;
    hide Apply, Inv, StaysRight, Shows, BalancesStand;
    var t := Apply(cfg, s, i.actor, i.action, i.dice).value;
    var w := After(cfg, t.next, PassedOn(cfg, s, i));
    EndTurnRightExactly(cfg, sc, s, i, PassedOn(cfg, s, i));
    QuietStands(cfg, s, i, w);
    StepInv(cfg, s, i);
    EndTurnKeepsAll(cfg, s, i);
    HolderGoes(cfg, t.next);
  }

  lemma {:induction false} QuietStands(cfg: ValidConfig, s: State, i: Input, w: State)
    requires s.phase == Playing && Accepted(cfg, s, i) && (i.action == Leave || i.action == Decline || i.action == EndTurn)
    ensures BalancesStand(w, Apply(cfg, s, i.actor, i.action, i.dice).value.facts)
  {
    hide Apply, RefoldAll;
    var facts := Apply(cfg, s, i.actor, i.action, i.dice).value.facts;
    QuietMoneyless(cfg, s, i);
    forall j | 0 <= j < |w.players| ensures RefoldAll(w.players[j].money, w.players[j].id, facts) == w.players[j].money {
      RefoldMoneyless(w.players[j].money, w.players[j].id, facts);
    }
  }

  lemma {:induction false} EndTurnKeepsAll(cfg: ValidConfig, s: State, i: Input)
    requires s.phase == Playing && i.action == EndTurn && Accepted(cfg, s, i)
    ensures Step(cfg, s, i).next.players == s.players
  {
    hide Evaluate, NextTurn;
    forall x ensures Evaluate(cfg, x).next.players == x.players { EvaluateKeeps(cfg, x); }
  }

  lemma {:induction false} HolderAt(s: State) returns (a: nat)
    requires Seated(s.players) && s.turn.seat in ActiveSeats(s.players)
    ensures a < |s.players| && IsActive(s.players[a]) && s.players[a].seat == s.turn.seat
    ensures IndexOf(s.players, Pl(s.turn.seat)) == a && Has(s.players, Pl(s.turn.seat))
  {
    a :| 0 <= a < |s.players| && IsActive(s.players[a]) && s.players[a].seat == s.turn.seat;
    IndexUnique(s.players, a);
  }

  /** With three players or more left, the seat holder's departure passes the turn on to somebody else. */
  lemma {:induction false} HolderGoes(cfg: ValidConfig, s: State)
    requires Inv(cfg, s) && s.phase == Playing && 3 <= |ActiveSeats(s.players)|
    ensures var i := Input(Pl(s.turn.seat), Leave, NO_DICE);
            var w := After(cfg, s, [i]);
            w.phase == Playing && w.tick == s.tick + 1 && w.turn.seat != s.turn.seat
  {
    InPlay(cfg, s);
    var seats, seat := ActiveSeats(s.players), s.turn.seat;
    var a := HolderAt(s);
    var i := Input(Pl(seat), Leave, NO_DICE);
    hide Inv, ActiveSeats, Step, LeaveMatch, Seated;
    OneInput(cfg, s, i);
    LeftAs(cfg, s, i);
    LeavePhase(cfg, s, a);
    LeaveStep(cfg, s, i);
    var w := Step(cfg, s, i).next;
    assert |seats - {seat}| == |seats| - 1;
    assert ActiveSeats(w.players) == seats - {seat};
  }
}
