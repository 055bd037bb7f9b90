/** A catch-up frame of several ticks, of which a client remembers only the first (handler.go, game-store.ts). */
module Frames {
  import opened Config
  import opened Domain
  import opened Seats
  import opened Rules
  import opened Invariant
  import opened Runs
  import opened Engine
  import opened Store
  import opened Runtime
  import opened Durability
  import opened CatchUp
  import opened Faults
  import opened Authority
  import opened Client
  import opened Simulation
  import opened ClientStore
  import opened Overtaken

  // ---- a match in the given town, call by call ----------------------------------------

  const BIND_B := Attach(1, "b", Some(Pl(1)))
  const READY_0 := Act(0, 1, Ready(true), NO_DICE, Succeeds, true)
  const READY_1 := Act(1, 1, Ready(true), NO_DICE, Succeeds, true)
  const START_0 := Act(0, 2, Start, NO_DICE, Succeeds, true)
  const ROLL_0 := Act(0, 3, Roll, TO_MILL, Succeeds, true)
  const BUY_0 := Act(0, 4, Buy, NO_DICE, Succeeds, true)

  const STARTING := [SEAT_A, BIND_A] + [SEAT_B] + [BIND_B] + [READY_0] + [READY_1] + [START_0]

  /** Both players are bound, in step with the store, in this state, each having got this far with their sequence. */
  ghost predicate TownAt(m: LiveMatch, s: State, first: int, second: int) {
    && Durable(Town(), m) && InSync(m) && m.mem == s
    && 0 in m.sessions && m.sessions[0].player == Pl(0) && m.sessions[0].bound && m.sessions[0].lastSeq == first
    && 1 in m.sessions && m.sessions[1].player == Pl(1) && m.sessions[1].bound && m.sessions[1].lastSeq == second
  }

  /** A step that moves the tick was accepted. */
  lemma {:induction false} MovedOn(cfg: ValidConfig, s: State, i: Input, t: State)
    requires Step(cfg, s, i).next == t && t.tick != s.tick
    ensures Accepted(cfg, s, i) && Apply(cfg, s, i.actor, i.action, i.dice).value.next == t
  {
    hide Apply;
  }

  /** One action in the town: accepted, committed, published whole. */
  lemma {:induction false} TownActs(m: LiveMatch, act: Call, s: State, t: State, first: int, second: int)
    requires TownAt(m, s, first, second) && act.Act? && act.outcome == Succeeds && !act.action.Join?
    requires act.sid < 2 && 1 <= act.seqNo < 100 && act.seqNo > if act.sid == 0 then first else second
    requires Step(Town(), s, Input(Pl(act.sid), act.action, act.dice)).next == t && t.tick != s.tick
    ensures var n := Next(Town(), m, act);
            && TownAt(n, t, if act.sid == 0 then act.seqNo else first, if act.sid == 1 then act.seqNo else second)
            && Possible(m, act)
            && Accepted(Town(), s, Input(Pl(act.sid), act.action, act.dice))
            && Published(Town(), m, act)
               == Stamped(Apply(Town(), s, Pl(act.sid), act.action, act.dice).value.facts, t.tick)
  {
    hide Durable, Step, Town, InSync, Next;
    MovedOn(Town(), s, Input(Pl(act.sid), act.action, act.dice), t);
    ActCommits(Town(), m, act);
    ActPublishes(Town(), m, act);
  }

  lemma {:induction false} ActPublishes(cfg: ValidConfig, m: LiveMatch, act: Call)
    requires Durable(cfg, m) && InSync(m) && act.Act? && act.outcome == Succeeds
    requires ActReaches(cfg, m, act.sid, act.seqNo, act.action, act.dice)
    ensures var t := Apply(cfg, m.mem, m.sessions[act.sid].player, act.action, act.dice).value;
            Published(cfg, m, act) == Stamped(t.facts, t.next.tick)
  {
    hide Durable, Inv, Apply, Commit, Retain, BaseAfter, SnapshotFor;
    CommitInSync(cfg, m, Input(m.sessions[act.sid].player, act.action, act.dice), None, Succeeds);
  }

  lemma {:induction false} TownBinds(m: LiveMatch)
    requires OneBound(Town(), m)
    ensures var n := Next(Town(), Next(Town(), m, SEAT_B), BIND_B);
            && Possible(m, SEAT_B) && Possible(Next(Town(), m, SEAT_B), BIND_B)
            && TownAt(n, TownLobby(false, false, 2), 0, 0)
  {
    hide Durable, Apply, NewBoard, Inv, Step, InSync;
    SecondJoins(m);
    ClaimCommits(Town(), m, SEAT_B);
    var n := Next(Town(), m, SEAT_B);
    DurableFrame(Town(), n, Next(Town(), n, BIND_B));
  }

  lemma {:induction false} SecondJoins(m: LiveMatch)
    requires OneBound(Town(), m)
    ensures Durable(Town(), m) && InSync(m) && ClaimReaches(Town(), m, "B", Some("b"))
    ensures ClaimTransition(Town(), m.mem, "B").value.next == TownLobby(false, false, 2)
    ensures var f := ClaimTransition(Town(), m.mem, "B").value.facts; f != [] && f[0].PlayerJoined? && f[0].id == Pl(1)
    ensures m.sessions == map[0 := Session(Pl(0), true, true, false, 0, None)]
  {
    hide Durable;
    TownJoins();
    SecondSeat(m.mem.players);
    MovedOn(Town(), m.mem, OPENING[1], TownLobby(false, false, 2));
  }

  /** Seven calls start the match. */
  lemma {:induction false} TownRunStarts()
    ensures PossibleRun(Town(), NewMatch(Town()), STARTING)
    ensures TownAt(Run(Town(), NewMatch(Town()), STARTING), TownStarted(), 2, 1)
  {
    hide Durable, Next, Run, PossibleRun, NewMatch, Town, TownAt, OneBound, Possible, Step;
    var s := NewMatch(Town());
    var c2 := [SEAT_A, BIND_A];
    var c3, c4 := c2 + [SEAT_B], c2 + [SEAT_B] + [BIND_B];
    BindsOne(Town());
    var m2 := Run(Town(), s, c2);
    RunSnoc(Town(), s, c2, SEAT_B);
    RunSnoc(Town(), s, c3, BIND_B);
    TownBinds(m2);
    var m4 := Run(Town(), s, c4);
    TownReadies();
    TownStarts();
    TownActs(m4, READY_0, TownLobby(false, false, 2), TownLobby(true, false, 3), 0, 0);
    RunSnoc(Town(), s, c4, READY_0);
    var m5 := Run(Town(), s, c4 + [READY_0]);
    TownActs(m5, READY_1, TownLobby(true, false, 3), TownLobby(true, true, 4), 1, 0);
    RunSnoc(Town(), s, c4 + [READY_0], READY_1);
    var m6 := Run(Town(), s, c4 + [READY_0] + [READY_1]);
    TownActs(m6, START_0, TownLobby(true, true, 4), TownStarted(), 1, 1);
    RunSnoc(Town(), s, c4 + [READY_0] + [READY_1], START_0);
  }

  // ---- what its frame holds -----------------------------------------------------------

  lemma {:induction false} LogShort(cfg: ValidConfig, m: LiveMatch, calls: seq<Call>)
    ensures |FullLog(cfg, m, calls)| <= MAX_FACTS * |calls|
  {
    hide Next, Published;
    if calls == [] {
    } else {
      var before := calls[..|calls| - 1];
      LogShort(cfg, m, before);
      NextPublishes(cfg, Run(cfg, m, before), calls[|calls| - 1]);
    }
  }

  const PURCHASE := Input(Pl(0), Buy, NO_DICE)

  ghost function Bought(): Transition { Step(Town(), AtMill(), PURCHASE) }

  lemma {:induction false} BoughtAt()
    ensures Accepted(Town(), AtMill(), PURCHASE) && Bought() == Apply(Town(), AtMill(), Pl(0), Buy, NO_DICE).value
    ensures Bought().next.tick == 7 && Bought().facts != []
    ensures 0 < |Bought().next.players| && Bought().next.players[0].money == 90
    ensures Step(Town(), TownStarted(), Input(Pl(0), Roll, TO_MILL)).next == AtMill()
    ensures IndexOf(AtMill().players, Pl(0)) == 0
  {
    TownBuys();
    TownRolls();
    Stages();
    hide Apply, Town, AtMill;
    AcceptedExplains(Town(), AtMill(), Pl(0), Buy, NO_DICE);
  }

  const TRADING := STARTING + [ROLL_0]

  /** Nine calls: the last two are a roll at tick 6 and a purchase at tick 7. */
  lemma {:induction false} TownRunBuys()
    ensures var cfg, s := Town(), NewMatch(Town());
            && PossibleRun(cfg, s, TRADING + [BUY_0])
            && Run(cfg, s, STARTING).mem == TownStarted() && Run(cfg, s, TRADING + [BUY_0]).mem == Bought().next
            && Published(cfg, Run(cfg, s, TRADING), BUY_0) == Stamped(Bought().facts, 7)
            && var rolled := Published(cfg, Run(cfg, s, STARTING), ROLL_0);
               && rolled != [] && (forall e :: e in rolled ==> e.tick == 6)
               && FullLog(cfg, s, TRADING + [BUY_0]) == FullLog(cfg, s, STARTING) + (rolled + Stamped(Bought().facts, 7))
               && WellTicked(FullLog(cfg, s, STARTING), 5)
  {
    hide Durable, Next, Run, PossibleRun, NewMatch, Town, Possible, Step, FullLog, Published, Windowed, Apply, TownStarted,
         AtMill, Bought, WellTicked, AdoptedTicks, Adopts;
    var cfg, s := Town(), NewMatch(Town());
    TownRunStarts();
    BoughtAt();
    Stages();
    var m7 := Run(cfg, s, STARTING);
    TownActs(m7, ROLL_0, TownStarted(), AtMill(), 2, 1);
    RunSnoc(cfg, s, STARTING, ROLL_0);
    AcceptedExplains(cfg, TownStarted(), Pl(0), Roll, TO_MILL);
    var m8 := Run(cfg, s, TRADING);
    assert Bought().next == Step(cfg, AtMill(), PURCHASE).next by { BoughtIs(); }
    TownActs(m8, BUY_0, AtMill(), Bought().next, 3, 1);
    RunSnoc(cfg, s, TRADING, BUY_0);
    LogSnoc(cfg, s, STARTING, ROLL_0);
    LogSnoc(cfg, s, TRADING, BUY_0);
    HistoryIsWindow(cfg, STARTING);
    var log, rolled, batch := FullLog(cfg, s, STARTING), Published(cfg, m7, ROLL_0), Published(cfg, m8, BUY_0);
    WindowTicks(m7, log);
    assert log + rolled + batch == log + (rolled + batch);
  }

  lemma BoughtIs()
    ensures Bought() == Step(Town(), AtMill(), PURCHASE)
  {
  }

  /** What Resume hands to a client at tick 5. */
  lemma {:induction false} FrameServed()
    ensures var cfg, s := Town(), NewMatch(Town());
            var m := Run(cfg, s, TRADING + [BUY_0]);
            var r, rolled := ResumeFor(cfg, m, Some(5), Pl(0)), Published(cfg, Run(cfg, s, STARTING), ROLL_0);
            r.events == rolled + Stamped(Bought().facts, 7) && !r.resync && r.snapshot.state == m.mem
  {
    hide Next, Run, NewMatch, Town, FullLog, Published, ResumeFor, Bought, Step, TicksRise, SmallTicks;
    var cfg, s := Town(), NewMatch(Town());
    TownRunBuys();
    BoughtAt();
    var log, rolled := FullLog(cfg, s, STARTING), Published(cfg, Run(cfg, s, STARTING), ROLL_0);
    LaterTail(log, rolled + Stamped(Bought().facts, 7), 5);
    LogShort(cfg, s, TRADING + [BUY_0]);
    ShortRetained(FullLog(cfg, s, TRADING + [BUY_0]), 5);
    ServedAsLater(cfg, TRADING + [BUY_0], 5, Pl(0));
  }

  /** A screen at an earlier tick, given the frame and then the snapshot, shows the purchase; given its events, no longer. */
  lemma {:induction false} FrameThenBatch(was: Screen, rolled: seq<Event>, resync: bool)
    requires was.view.Some? && was.view.value.tick <= 5 && was.applied == []
    requires rolled != [] && forall e :: e in rolled ==> e.tick == 6
    ensures var batch := Stamped(Bought().facts, 7);
            var shown := ApplySnapshot(ApplyEvents(was, rolled + batch), Bought().next, resync);
            Shows(shown, Bought().next) && !Shows(ApplyEvents(shown, batch), Bought().next)
  {
    hide Town, Step, Bought, AtMill, Inv, Apply, Fold, Mark, Agrees;
    BoughtAt();
    MillInv();
    var batch := Stamped(Bought().facts, 7);
    FrameTicks(was, rolled + batch, 7);
    var framed := ApplyEvents(was, rolled + batch);
    SnapshotShows(framed, Bought().next, resync);
    assert After(Town(), Bought().next, []) == Bought().next;
    BuyRightExactly(Town(), ApplySnapshot(framed, Bought().next, resync), AtMill(), PURCHASE, []);
  }

  /**
   A client at tick 5 is served ticks 6 and 7 in one frame, and then their snapshot; the purchase of tick 7, delivered
   once more, is folded again, and the screen no longer shows the match.
   */
  lemma {:induction false} FrameChargesTwice()
    ensures var cfg, s, calls := Town(), NewMatch(Town()), TRADING + [BUY_0];
            var m, r := Run(cfg, s, calls), ResumeFor(cfg, Run(cfg, s, calls), Some(5), Pl(0));
            var was := Screen(Some(Run(cfg, s, STARTING).mem), None, [], 5, false);
            var shown := ApplySnapshot(ApplyEvents(was, r.events), r.snapshot.state, r.resync);
            var batch := Published(cfg, Run(cfg, s, TRADING), BUY_0);
            && PossibleRun(cfg, s, calls) && Run(cfg, s, STARTING).mem.tick == 5 && m.mem.tick == 7
            && HasTick(r.events, 6) && HasTick(r.events, 7) && !r.resync
            && batch != [] && batch[0].tick == 7
            && Shows(shown, m.mem) && !Shows(ApplyEvents(shown, batch), m.mem)
  {
    hide Next, Run, PossibleRun, NewMatch, Town, FullLog, Published, ResumeFor, Bought, AtMill, TownStarted, WellTicked,
         ApplyEvents, ApplySnapshot, Shows, HasTick;
    var cfg, s := Town(), NewMatch(Town());
    TownRunBuys();
    BoughtAt();
    Stages();
    FrameServed();
    var rolled := Published(cfg, Run(cfg, s, STARTING), ROLL_0);
    FirstHas(rolled, Stamped(Bought().facts, 7));
    FrameThenBatch(Screen(Some(TownStarted()), None, [], 5, false), rolled, false);
  }

  lemma Stages()
    ensures TownStarted().tick == 5 && AtMill().tick == 6
  {
  }

  lemma ShortRetained(log: seq<Event>, cursor: nat)
    requires |log| <= HISTORY_CAP
    ensures Retained(log, cursor)
  {
  }

  lemma {:induction false} FirstHas(rolled: seq<Event>, batch: seq<Event>)
    requires rolled != [] && batch != []
    ensures HasTick(rolled + batch, rolled[0].tick) && HasTick(rolled + batch, batch[0].tick)
  {
    assert (rolled + batch)[0] == rolled[0] && (rolled + batch)[|rolled|] == batch[0];
  }

  /** A frame that starts at another tick leaves this one unmarked, and takes the view no further than its events. */
  lemma {:induction false} FrameTicks(sc: Screen, frame: seq<Event>, last: nat)
    requires frame != [] && frame[0].tick != last && sc.view.Some? && sc.view.value.tick <= last && sc.applied == []
    requires forall e :: e in frame ==> e.tick <= last
    ensures var shown := ApplyEvents(sc, frame);
            last !in shown.applied && shown.view.Some? && shown.view.value.tick <= last
  {
    FoldTick(sc.view.value, frame, last);
    hide Fold;
  }

  lemma {:induction false} FoldTick(v: State, events: seq<Event>, last: nat)
    requires v.tick <= last && forall e :: e in events ==> e.tick <= last
    ensures Fold(v, events).tick <= last
  {
    if events == [] {
    } else {
      hide Reduce;
      FoldTick(v, events[..|events| - 1], last);
      assert events[|events| - 1] in events;
    }
  }

  lemma {:induction false} MillInv()
    ensures Inv(Town(), AtMill())
  {
    hide Step, Town, NewBoard, Inv;
    OpeningLeads();
    InitialInv(Town(), NewState(NewBoard(Town())));
    RunInv(Town(), NewState(NewBoard(Town())), OPENING);
  }
}
