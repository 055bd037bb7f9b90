/** The client's store: the view on screen, the bounded set of applied ticks, and delivery (game-store.ts). */
module ClientStore {
  import opened Config
  import opened Domain
  import opened Seats
  import opened Rules
  import opened Invariant
  import opened Runs
  import opened Client
  import opened Simulation
  import opened Engine
  import opened Rotation

  const APPLIED_MAX := 4096
  const APPLIED_KEPT := 2048

  datatype LastRoll = Rolled(die1: int, die2: int, roller: PlayerId)

  /** `applied` lists the ticks of the dedup set in the order they were first marked; the last roll is part of the view. */
  datatype Screen = Screen(view: Option<State>, roll: Option<LastRoll>, applied: seq<nat>, cursor: nat, resynced: bool)

  function MaxNat(a: nat, b: nat): nat { if a >= b then a else b }

  function Mark(applied: seq<nat>, tick: nat): seq<nat> {
    var a := if tick in applied then applied else applied + [tick];
    if |a| > APPLIED_MAX then a[|a| - APPLIED_KEPT..] else a
  }

  /** Folds a batch into the view, whose tick never goes back. */
  function Fold(v: State, events: seq<Event>): State {
    if events == [] then v
    else
      var w, e := Fold(v, events[..|events| - 1]), events[|events| - 1];
      Reduce(w, e.fact).(tick := MaxNat(w.tick, e.tick))
  }

  function RollShown(before: Option<LastRoll>, events: seq<Event>): Option<LastRoll> {
    if events == [] then before
    else
      match events[|events| - 1].fact
      case DiceRolled(id, die1, die2, _, _, _) => Some(Rolled(die1, die2, id))
      case _ => RollShown(before, events[..|events| - 1])
  }

  /** A batch is folded at most once while its tick is remembered; it is marked even with no view to fold it into. */
  function ApplyEvents(sc: Screen, events: seq<Event>): Screen {
    if events == [] then sc
    else
      var tick := events[0].tick;
      var fold := sc.view.Some? && tick !in sc.applied;
      sc.(view := if fold then Some(Fold(sc.view.value, events)) else sc.view,
          roll := if fold then RollShown(sc.roll, events) else sc.roll,
          applied := Mark(sc.applied, tick), cursor := MaxNat(sc.cursor, tick))
  }

  /** A snapshot older than the view is not shown. */
  function ApplySnapshot(sc: Screen, s: State, resync: bool): Screen {
    var view := if sc.view.Some? && s.tick < sc.view.value.tick then sc.view else Some(s);
    sc.(view := view, cursor := MaxNat(sc.cursor, s.tick), resynced := resync)
  }

  class GameStore {
    var view: Option<State>
    var roll: Option<LastRoll>
    var applied: seq<nat>
    var cursor: nat
    var resynced: bool

    ghost function Value(): Screen
      reads this
    {
      Screen(view, roll, applied, cursor, resynced)
    }

    constructor ()
      ensures Value() == Screen(None, None, [], 0, false)
    {
      view, roll, applied, cursor, resynced := None, None, [], 0, false;
    }

    method MarkApplied(tick: nat)
      modifies this`applied
      ensures applied == Mark(old(applied), tick)
    {
      if tick !in applied {
        applied := applied + [tick];
      }
      if |applied| > APPLIED_MAX {
        applied := applied[|applied| - APPLIED_KEPT..];
      }
    }

    method Receive(events: seq<Event>)
      modifies this
      ensures Value() == ApplyEvents(old(Value()), events)
    {
      hide Fold, RollShown;
      if |events| == 0 { return; }
      var tick := events[0].tick;
      if tick !in applied && view.Some? {
        var next, rolled := FoldBatch(view.value, roll, events);
        view, roll := Some(next), rolled;
      }
      MarkApplied(tick);
      cursor := MaxNat(cursor, tick);
    }

    method Show(s: State, resync: bool)
      modifies this
      ensures Value() == ApplySnapshot(old(Value()), s, resync)
    {
      if view == None || s.tick >= view.value.tick {
        view := Some(s);
      }
      cursor := MaxNat(cursor, s.tick);
      resynced := resync;
    }
  }

  /** The working view, reduced event by event, with the tick it has reached kept apart. */
  method FoldBatch(prev: State, before: Option<LastRoll>, events: seq<Event>) returns (next: State, roll: Option<LastRoll>)
    ensures next == Fold(prev, events) && roll == RollShown(before, events)
  {
    var at := prev.tick;
    next, roll := prev, before;
    for i := 0 to |events|
      invariant next.(tick := at) == Fold(prev, events[..i]) && roll == RollShown(before, events[..i])
    {
      hide Reduce;
      assert events[..i + 1][..i] == events[..i];
      TickApart(next, at, events[i].fact);
      next, at := Reduce(next, events[i].fact), MaxNat(at, events[i].tick);
      match events[i].fact {
        case DiceRolled(id, die1, die2, _, _, _) => roll := Some(Rolled(die1, die2, id));
        case _ =>
      }
    }
    assert events[..|events|] == events;
    next := next.(tick := at);
  }

  /** No event reads or writes the view's tick. */
  lemma TickApart(v: State, tick: nat, f: Fact)
    ensures Reduce(v.(tick := tick), f) == Reduce(v, f).(tick := tick)
    ensures Reduce(v, f).tick == v.tick
  {
  }

  lemma {:induction false} FoldIsReduce(v: State, facts: seq<Fact>, tick: nat)
    ensures Fold(v, Stamped(facts, tick)) == ReduceAll(v, facts).(tick := if facts == [] then v.tick else MaxNat(v.tick, tick))
  {
    var events := Stamped(facts, tick);
    if facts == [] {
    } else {
      var front := facts[..|facts| - 1];
      assert events[..|events| - 1] == Stamped(front, tick);
      FoldIsReduce(v, front, tick);
      var w := ReduceAll(v, front);
      TickApart(w, if front == [] then v.tick else MaxNat(v.tick, tick), facts[|facts| - 1]);
    }
  }

  // ---- redelivery --------------------------------------------------------------

  datatype Message = Batch(events: seq<Event>) | Snap(state: State, resync: bool)

  function Deliver(sc: Screen, m: Message): Screen {
    match m
    case Batch(events) => ApplyEvents(sc, events)
    case Snap(s, resync) => ApplySnapshot(sc, s, resync)
  }

  function DeliverAll(sc: Screen, ms: seq<Message>): Screen {
    if ms == [] then sc else Deliver(DeliverAll(sc, ms[..|ms| - 1]), ms[|ms| - 1])
  }

  predicate IsNew(sc: Screen, m: Message) { m.Batch? && m.events != [] && m.events[0].tick !in sc.applied }

  /** How many of these messages mark a tick that is not marked when they arrive. */
  function NewMarks(sc: Screen, ms: seq<Message>): nat {
    if ms == [] then 0
    else
      var before, m := ms[..|ms| - 1], ms[|ms| - 1];
      NewMarks(sc, before) + if IsNew(DeliverAll(sc, before), m) then 1 else 0
  }

  /** The tick was marked, and at most `age` others after it. */
  ghost predicate MarkedSince(applied: seq<nat>, tick: nat, age: nat) {
    exists i :: 0 <= i < |applied| && applied[i] == tick && |applied| - 1 - i <= age
  }

  /** Marking one more tick ages the others by at most one, and drops only those too old. */
  lemma {:induction false} MarkAges(applied: seq<nat>, tick: nat, other: nat, age: nat)
    requires MarkedSince(applied, tick, age)
    requires (if other in applied then age else age + 1) < APPLIED_KEPT
    ensures MarkedSince(Mark(applied, other), tick, if other in applied then age else age + 1)
  {
    var i :| 0 <= i < |applied| && applied[i] == tick && |applied| - 1 - i <= age;
    var a := if other in applied then applied else applied + [other];
    assert a[i] == tick;
    if |a| > APPLIED_MAX {
      assert a[|a| - APPLIED_KEPT..][i - (|a| - APPLIED_KEPT)] == tick;
    }
  }

  lemma {:induction false} MarkNew(applied: seq<nat>, tick: nat)
    requires tick !in applied
    ensures MarkedSince(Mark(applied, tick), tick, 0)
  {
    var a := applied + [tick];
    assert a[|a| - 1] == tick;
    if |a| > APPLIED_MAX { assert a[|a| - APPLIED_KEPT..][APPLIED_KEPT - 1] == tick; }
  }

  lemma {:induction false} StaysMarked(sc: Screen, tick: nat, ms: seq<Message>)
    requires MarkedSince(sc.applied, tick, 0) && NewMarks(sc, ms) < APPLIED_KEPT
    ensures MarkedSince(DeliverAll(sc, ms).applied, tick, NewMarks(sc, ms))
  {
    if ms == [] {
    } else {
      var before, m := ms[..|ms| - 1], ms[|ms| - 1];
      StaysMarked(sc, tick, before);
      if m.Batch? && m.events != [] {
        MarkAges(DeliverAll(sc, before).applied, tick, m.events[0].tick, NewMarks(sc, before));
      }
    }
  }

  /**
   Once a batch is applied, delivering its tick again changes nothing on screen, whatever came in between, as long
   as fewer than 2048 new ticks were marked since.
   */
  lemma {:induction false} RedeliveryIsIdempotent(sc: Screen, events: seq<Event>, between: seq<Message>, again: seq<Event>)
    requires events != [] && events[0].tick !in sc.applied
    requires again != [] && again[0].tick == events[0].tick
    requires NewMarks(ApplyEvents(sc, events), between) < APPLIED_KEPT
    ensures var later := DeliverAll(ApplyEvents(sc, events), between);
            ApplyEvents(later, again).view == later.view && ApplyEvents(later, again).roll == later.roll
  {
    MarkNew(sc.applied, events[0].tick);
    StaysMarked(ApplyEvents(sc, events), events[0].tick, between);
  }

  function MarkAll(applied: seq<nat>, ticks: seq<nat>): seq<nat> {
    if ticks == [] then applied else Mark(MarkAll(applied, ticks[..|ticks| - 1]), ticks[|ticks| - 1])
  }

  ghost predicate Distinct(ticks: seq<nat>) { forall i, j :: 0 <= i < j < |ticks| ==> ticks[i] != ticks[j] }

  lemma {:induction false} MarksAppend(applied: seq<nat>, ticks: seq<nat>)
    requires Distinct(applied + ticks) && |applied + ticks| <= APPLIED_MAX
    ensures MarkAll(applied, ticks) == applied + ticks
  {
    if ticks == [] {
    } else {
      var front, last := ticks[..|ticks| - 1], ticks[|ticks| - 1];
      assert (applied + ticks)[..|applied + ticks| - 1] == applied + front;
      MarksAppend(applied, front);
      assert (applied + ticks)[|applied + front|] == last;
      assert forall i :: 0 <= i < |applied + front| ==> (applied + front)[i] == (applied + ticks)[i];
    }
  }

  /** The bound is tight: after exactly 2048 new ticks a tick can be forgotten. */
  lemma {:induction false} ForgottenAtTheBound(applied: seq<nat>, tick: nat, others: seq<nat>)
    requires |applied| == APPLIED_KEPT && |others| == APPLIED_KEPT && Distinct(applied + [tick] + others)
    ensures tick !in MarkAll(Mark(applied, tick), others)
  {
    var all, front, last := applied + [tick] + others, others[..|others| - 1], others[|others| - 1];
    assert all[|applied|] == tick;
    assert tick !in applied by {
      assert forall i :: 0 <= i < |applied| ==> all[i] == applied[i];
    }
    assert tick !in others by {
      assert forall i :: 0 <= i < |others| ==> all[|applied| + 1 + i] == others[i];
    }
    var held := applied + [tick];
    assert held + front == all[..|all| - 1];
    MarksAppend(held, front);
    assert last !in held + front by {
      assert all[|all| - 1] == last;
      assert forall i :: 0 <= i < |held + front| ==> all[i] == (held + front)[i];
    }
    assert (held + front + [last])[|held|..] == others;
  }

  // ---- a run seen through at-least-once delivery --------------------------------------

  predicate Recent(now: nat, since: nat, t: nat) { since < t <= now && now - t < APPLIED_KEPT }

  /** Every recent tick was marked, in its turn. */
  ghost predicate RecentMarked(applied: seq<nat>, now: nat, since: nat) {
    forall t :: Recent(now, since, t) ==> MarkedSince(applied, t, now - t)
  }

  /** The view is the server's, everything recent is marked in order, and nothing newer is. */
  ghost predicate Following(sc: Screen, s: State, since: nat) {
    && sc.view.Some? && Agrees(sc.view.value, s) && sc.view.value.tick == s.tick
    && |sc.applied| <= APPLIED_MAX && (forall t :: t in sc.applied ==> t <= s.tick)
    && RecentMarked(sc.applied, s.tick, since)
  }

  /** A transition delivered next, or one of the last 2048 delivered again. */
  datatype Delivery = Fresh(input: Input) | Again(events: seq<Event>)

  ghost predicate Deliverable(s: State, since: nat, d: Delivery) {
    d.Again? && d.events != [] ==> Recent(s.tick, since, d.events[0].tick)
  }

  ghost function ClientAfter(cfg: ValidConfig, sc: Screen, s: State, d: Delivery): Screen {
    match d
    case Fresh(input) => var t := Step(cfg, s, input); ApplyEvents(sc, Stamped(t.facts, t.next.tick))
    case Again(events) => ApplyEvents(sc, events)
  }

  lemma MarkOnlyAdds(applied: seq<nat>, tick: nat)
    ensures forall t :: t in Mark(applied, tick) ==> t in applied || t == tick
    ensures |applied| <= APPLIED_MAX ==> |Mark(applied, tick)| <= APPLIED_MAX
    ensures |applied| <= APPLIED_MAX && tick in applied ==> Mark(applied, tick) == applied
  {
  }

  lemma {:induction false} NextMarked(applied: seq<nat>, now: nat, since: nat)
    requires RecentMarked(applied, now, since) && forall t :: t in applied ==> t <= now
    ensures RecentMarked(Mark(applied, now + 1), now + 1, since)
  {
    hide MarkedSince, Mark;
    var next := now + 1;
    forall t: nat | Recent(next, since, t) ensures MarkedSince(Mark(applied, next), t, next - t) {
      if t <= now {
        assert Recent(now, since, t);
        MarkAges(applied, t, now + 1, now - t);
      } else {
        MarkNew(applied, now + 1);
      }
    }
  }

  /** The next transition carries the view along. */
  lemma {:induction false} FreshFollows(cfg: ValidConfig, sc: Screen, s: State, since: nat, i: Input)
    requires Inv(cfg, s) && s.phase == Playing && Following(sc, s, since)
    ensures Following(ClientAfter(cfg, sc, s, Fresh(i)), Step(cfg, s, i).next, since)
  {
    hide Apply, Inv, Agrees, Fold, Mark, RecentMarked;
    if Apply(cfg, s, i.actor, i.action, i.dice).Ok? {
      var t := Apply(cfg, s, i.actor, i.action, i.dice).value;
      AcceptedExplains(cfg, s, i.actor, i.action, i.dice);
      ClientFollows(cfg, sc.view.value, s, i.actor, i.action, i.dice);
      FoldIsReduce(sc.view.value, t.facts, t.next.tick);
      FollowsTick(sc.view.value, t.facts, t.next, t.next.tick);
      NextMarked(sc.applied, s.tick, since);
      MarkOnlyAdds(sc.applied, s.tick + 1);
    }
  }

  /** An ended match has nothing more to deliver. */
  lemma {:induction false} EndedDelivers(cfg: ValidConfig, sc: Screen, s: State, i: Input)
    requires s.phase == Ended
    ensures ClientAfter(cfg, sc, s, Fresh(i)) == sc && Step(cfg, s, i).next == s
  {
    EndedIsFinal(cfg, s, i);
    hide Apply;
  }

  lemma {:induction false} FollowsTick(v: State, facts: seq<Fact>, s: State, tick: nat)
    requires Follows(v, facts, s)
    ensures Agrees(ReduceAll(v, facts).(tick := tick), s)
  {
  }

  lemma {:induction false} AgainFollows(sc: Screen, s: State, since: nat, events: seq<Event>)
    requires Following(sc, s, since) && Deliverable(s, since, Again(events))
    ensures Following(ApplyEvents(sc, events), s, since)
  {
    if events != [] {
      var t := events[0].tick;
      assert MarkedSince(sc.applied, t, s.tick - t);
      assert t in sc.applied;
      MarkOnlyAdds(sc.applied, t);
    }
  }

  /** The inputs behind the fresh deliveries. */
  function Inputs(ds: seq<Delivery>): seq<Input> {
    if ds == [] then []
    else Inputs(ds[..|ds| - 1]) + if ds[|ds| - 1].Fresh? then [ds[|ds| - 1].input] else []
  }

  ghost function Screened(cfg: ValidConfig, sc: Screen, s: State, ds: seq<Delivery>): Screen {
    if ds == [] then sc
    else
      var before := ds[..|ds| - 1];
      ClientAfter(cfg, Screened(cfg, sc, s, before), After(cfg, s, Inputs(before)), ds[|ds| - 1])
  }

  /** Transitions arrive in order; any recent one may arrive again, anywhere. */
  ghost predicate AtLeastOnce(cfg: ValidConfig, s: State, ds: seq<Delivery>) {
    ds != [] ==>
      var before := ds[..|ds| - 1];
      AtLeastOnce(cfg, s, before) && Deliverable(After(cfg, s, Inputs(before)), s.tick, ds[|ds| - 1])
  }

  /**
   A view loaded from a snapshot of a running match follows the server through the rest of the match, whatever
   is played and whichever of the last 2048 transitions are delivered again.
   */
  lemma {:induction false} ViewFollowsMatch(cfg: ValidConfig, sc: Screen, s: State, ds: seq<Delivery>)
    requires Inv(cfg, s) && s.phase == Playing && AtLeastOnce(cfg, s, ds)
    requires Following(sc, s, s.tick)
    ensures Following(Screened(cfg, sc, s, ds), After(cfg, s, Inputs(ds)), s.tick)
  {
    hide Inv, Following, Step, Deliverable, ClientAfter;
    if ds == [] {
    } else {
      var before, d := ds[..|ds| - 1], ds[|ds| - 1];
      var t, inputs := After(cfg, s, Inputs(before)), Inputs(before);
      ViewFollowsMatch(cfg, sc, s, before);
      RunInv(cfg, s, inputs);
      StaysStarted(cfg, s, inputs);
      match d {
        case Fresh(input) =>
          if t.phase == Playing {
            FreshFollows(cfg, Screened(cfg, sc, s, before), t, s.tick, input);
          } else {
            EndedDelivers(cfg, Screened(cfg, sc, s, before), t, input);
          }
          assert (inputs + [input])[..|inputs|] == inputs;
        case Again(events) =>
          AgainShown(cfg, Screened(cfg, sc, s, before), t, s.tick, events);
          assert Inputs(ds) == inputs;
      }
    }
  }

  /** The last roll accepted in a run. */
  ghost function LastRolled(cfg: ValidConfig, s: State, inputs: seq<Input>, before: Option<LastRoll>): Option<LastRoll> {
    if inputs == [] then before
    else
      var front, last := inputs[..|inputs| - 1], inputs[|inputs| - 1];
      if last.action == Roll && Accepted(cfg, After(cfg, s, front), last) then
        Some(Rolled(last.dice.d1, last.dice.d2, last.actor))
      else LastRolled(cfg, s, front, before)
  }

  lemma {:induction false} NoRollShown(before: Option<LastRoll>, events: seq<Event>)
    requires forall i :: 0 <= i < |events| ==> !events[i].fact.DiceRolled?
    ensures RollShown(before, events) == before
  {
    if events == [] {
    } else {
      NoRollShown(before, events[..|events| - 1]);
    }
  }

  lemma {:induction false} FirstRollShown(before: Option<LastRoll>, events: seq<Event>)
    requires events != [] && events[0].fact.DiceRolled?
    requires forall i :: 0 < i < |events| ==> !events[i].fact.DiceRolled?
    ensures RollShown(before, events) == Some(Rolled(events[0].fact.die1, events[0].fact.die2, events[0].fact.id))
  {
    if |events| > 1 { FirstRollShown(before, events[..|events| - 1]); }
  }

  /** A roll is the first thing its transition says, and no other transition says one. */
  lemma {:induction false} SaysItsRoll(cfg: ValidConfig, s: State, i: Input)
    requires Accepted(cfg, s, i)
    ensures var facts := Apply(cfg, s, i.actor, i.action, i.dice).value.facts;
            && (forall k :: 0 < k < |facts| ==> !facts[k].DiceRolled?)
            && (i.action != Roll && facts != [] ==> !facts[0].DiceRolled?)
            && (i.action == Roll ==> facts != [] && facts[0].DiceRolled? && facts[0].die1 == i.dice.d1
                                     && facts[0].die2 == i.dice.d2 && facts[0].id == i.actor)
  {
    hide RollOf, Evaluate, EndIfShort, NextTurn, LeaveLobby, CanStart;
    if i.action == Roll {
      RollSays(cfg, s, IndexOf(s.players, i.actor), i.dice);
    } else {
      forall x ensures NoDice(Evaluate(cfg, x).facts) && NoDice(EndIfShort(x).facts) { EndSaysNoRoll(cfg, x); }
    }
  }

  lemma {:induction false} RollSays(cfg: ValidConfig, s: State, i: nat, dice: Dice)
    requires i < |s.players| && RollOf(cfg, s, i, dice).Ok?
    ensures var facts := RollOf(cfg, s, i, dice).value.facts;
            && (forall k :: 0 < k < |facts| ==> !facts[k].DiceRolled?)
            && facts != [] && facts[0].DiceRolled? && facts[0].die1 == dice.d1 && facts[0].die2 == dice.d2
            && facts[0].id == s.players[i].id
  {
    hide Evaluate, ResolveLanding, Settled, Walk, GoBonus;
    var moved := Moved(cfg, s, i, dice.d1 + dice.d2);
    LandingSaysNoRoll(moved, i, moved.players[i].position);
    var landing := ResolveLanding(moved, i, moved.players[i].position).value;
    EndSaysNoRoll(cfg, Settled(cfg, landing, Streak(cfg, s.turn.streak, dice)));
  }

  lemma {:induction false} LandingSaysNoRoll(s: State, i: nat, to: int)
    requires i < |s.players| && ResolveLanding(s, i, to).Ok?
    ensures NoDice(ResolveLanding(s, i, to).value.facts)
  {
    hide NextTurn, OwnedIds, Eliminate, Pay;
  }

  predicate NoDice(facts: seq<Fact>) { forall k :: 0 <= k < |facts| ==> !facts[k].DiceRolled? }

  lemma EndSaysNoRoll(cfg: ValidConfig, s: State)
    ensures NoDice(Evaluate(cfg, s).facts) && NoDice(EndIfShort(s).facts)
  {
  }

  /** The last roll on screen is the match's, through the same deliveries. */
  lemma {:induction false} RollFollows(cfg: ValidConfig, sc: Screen, s: State, ds: seq<Delivery>)
    requires Inv(cfg, s) && s.phase == Playing && AtLeastOnce(cfg, s, ds)
    requires Following(sc, s, s.tick)
    ensures Screened(cfg, sc, s, ds).roll == LastRolled(cfg, s, Inputs(ds), sc.roll)
  {
    hide Inv, Following, Step, Deliverable, ClientAfter, Accepted;
    if ds == [] {
    } else {
      var before, d := ds[..|ds| - 1], ds[|ds| - 1];
      var t, inputs := After(cfg, s, Inputs(before)), Inputs(before);
      RollFollows(cfg, sc, s, before);
      ViewFollowsMatch(cfg, sc, s, before);
      match d {
        case Fresh(input) =>
          FreshRoll(cfg, Screened(cfg, sc, s, before), t, s.tick, input);
          assert (inputs + [input])[..|inputs|] == inputs;
        case Again(events) =>
          AgainRoll(cfg, Screened(cfg, sc, s, before), t, s.tick, events);
          assert Inputs(ds) == inputs;
      }
    }
  }

  lemma {:induction false} FreshRoll(cfg: ValidConfig, sc: Screen, s: State, since: nat, i: Input)
    requires Following(sc, s, since)
    ensures ClientAfter(cfg, sc, s, Fresh(i)).roll
            == if i.action == Roll && Accepted(cfg, s, i) then Some(Rolled(i.dice.d1, i.dice.d2, i.actor)) else sc.roll
  {
    hide Apply, Agrees, Fold, Mark, RecentMarked, RollShown;
    if Accepted(cfg, s, i) {
      var t := Apply(cfg, s, i.actor, i.action, i.dice).value;
      AcceptedExplains(cfg, s, i.actor, i.action, i.dice);
      SaysItsRoll(cfg, s, i);
      var events := Stamped(t.facts, t.next.tick);
      if i.action == Roll { FirstRollShown(sc.roll, events); } else { NoRollShown(sc.roll, events); }
    }
  }

  lemma {:induction false} AgainRoll(cfg: ValidConfig, sc: Screen, s: State, since: nat, events: seq<Event>)
    requires Following(sc, s, since) && Deliverable(s, since, Again(events))
    ensures ClientAfter(cfg, sc, s, Again(events)).roll == sc.roll
  {
    if events != [] {
      var t := events[0].tick;
      assert MarkedSince(sc.applied, t, s.tick - t);
      assert t in sc.applied;
    }
  }

  lemma {:induction false} AgainShown(cfg: ValidConfig, sc: Screen, s: State, since: nat, events: seq<Event>)
    requires Following(sc, s, since) && Deliverable(s, since, Again(events))
    ensures Following(ClientAfter(cfg, sc, s, Again(events)), s, since)
  {
    AgainFollows(sc, s, since, events);
  }

  /** A snapshot no older than the view puts it where following starts. */
  lemma SnapshotStartsFollowing(sc: Screen, s: State, resync: bool)
    requires sc.view.Some? ==> sc.view.value.tick <= s.tick
    requires |sc.applied| <= APPLIED_MAX && forall t :: t in sc.applied ==> t <= s.tick
    ensures Following(ApplySnapshot(sc, s, resync), s, s.tick)
  {
  }

  // ---- the cursor, the flag and the view's tick ---------------------------------------------

  /** The tick a message is known by. */
  function TickOf(m: Message): nat {
    match m
    case Batch(events) => if events == [] then 0 else events[0].tick
    case Snap(s, _) => s.tick
  }

  /** What the latest snapshot said of resynchronising. */
  function LastFlag(ms: seq<Message>, before: bool): bool {
    if ms == [] then before
    else
      match ms[|ms| - 1]
      case Snap(_, resync) => resync
      case Batch(_) => LastFlag(ms[..|ms| - 1], before)
  }

  /**
   Whatever is delivered, the cursor is the latest tick heard of, the flag is the latest snapshot's, and the view never goes
   back; it is there from the first snapshot on.
   */
  lemma {:induction false} StoreKeepsUp(sc: Screen, ms: seq<Message>)
    ensures var n := DeliverAll(sc, ms);
            && sc.cursor <= n.cursor && (forall m :: m in ms ==> TickOf(m) <= n.cursor)
            && (n.cursor == sc.cursor || exists m :: m in ms && TickOf(m) == n.cursor)
            && n.resynced == LastFlag(ms, sc.resynced)
            && (sc.view.Some? ==> n.view.Some? && sc.view.value.tick <= n.view.value.tick)
            && (n.view.Some? <==> sc.view.Some? || exists m :: m in ms && m.Snap?)
  {
    if ms == [] {
    } else {
      var before, last := ms[..|ms| - 1], ms[|ms| - 1];
      StoreKeepsUp(sc, before);
      forall m ensures m in ms <==> m in before || m == last { assert ms == before + [last]; }
      var b := DeliverAll(sc, before);
      OneKeepsUp(b, last);
      hide Deliver, TickOf;
      assert last in ms;
      if b.cursor != sc.cursor {
        var m :| m in before && TickOf(m) == b.cursor;
        assert m in ms;
      }
      if m :| m in before && m.Snap? { assert m in ms; }
    }
  }

  lemma {:induction false} OneKeepsUp(sc: Screen, m: Message)
    ensures var n := Deliver(sc, m);
            && n.cursor == MaxNat(sc.cursor, TickOf(m)) && n.resynced == (if m.Snap? then m.resync else sc.resynced)
            && (sc.view.Some? ==> n.view.Some? && sc.view.value.tick <= n.view.value.tick)
            && (n.view.Some? <==> sc.view.Some? || m.Snap?)
  {
    hide Fold, Mark, RollShown;
    if m.Batch? && sc.view.Some? { FoldNeverBack(sc.view.value, m.events); }
  }

  lemma {:induction false} FoldNeverBack(v: State, events: seq<Event>)
    ensures v.tick <= Fold(v, events).tick
  {
    if events == [] {
    } else {
      FoldNeverBack(v, events[..|events| - 1]);
    }
  }

  // ---- a catch-up frame of several ticks ------------------------------------------------

  /**
   Of a catch-up frame only the first tick is marked: a tick is remembered afterwards only if it was before or is the
   first one, and short of the bound exactly then. Any other, delivered again, is folded again.
   */
  lemma {:induction false} CatchUpMarksFirstTick(sc: Screen, frame: seq<Event>, again: seq<Event>)
    requires sc.view.Some? && frame != [] && again != []
    ensures var shown, t, first := ApplyEvents(sc, frame), again[0].tick, frame[0].tick;
            && shown.view.Some? && shown.applied == Mark(sc.applied, first)
            && (t in shown.applied ==> t in sc.applied || t == first)
            && (|sc.applied| < APPLIED_MAX ==> (t in shown.applied <==> t in sc.applied || t == first))
            && ApplyEvents(shown, again).view == if t in shown.applied then shown.view else Some(Fold(shown.view.value, again))
  {
    hide Fold;
    MarkOnlyAdds(sc.applied, frame[0].tick);
    var a := sc.applied + [frame[0].tick];
    assert again[0].tick in a <==> again[0].tick in sc.applied || again[0].tick == frame[0].tick;
  }
}
