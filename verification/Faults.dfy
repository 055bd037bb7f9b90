/**
 What a seat claim does when its commit is wrongly reported as failed. A claim does not read the store back as
 an action does, so the seat it made durable is out of anyone's reach (match.go).
 */
module Faults {
  import opened Config
  import opened Domain
  import opened Seats
  import opened Rules
  import opened Roster
  import opened Invariant
  import opened Runs
  import opened Engine
  import opened Store
  import opened Runtime
  import opened Durability
  import opened CatchUp

  // ---- nobody is in yet --------------------------------------------------------

  /** No seat can be bound, and the store is ahead of memory. */
  ghost predicate Shut(cfg: ValidConfig, m: LiveMatch) {
    Durable(cfg, m) && !InSync(m) && m.tokens == map[] && m.sessions == map[]
  }

  /** If the first claim on a fresh match is committed but reported as failed, the match is shut. */
  lemma {:induction false} FirstClaimShuts(cfg: ValidConfig, name: string, token: Token)
    requires NameOk(name)
    ensures Shut(cfg, Next(cfg, NewMatch(cfg), Claim(name, Some(token), FailsButCommits)))
  {
    hide Durable, Commit, Install;
    NewMatchDurable(cfg);
    assert ClaimReaches(cfg, NewMatch(cfg), name, Some(token));
    ClaimDurable(cfg, NewMatch(cfg), name, Some(token), FailsButCommits);
  }

  /** A shut match stays exactly as it is for ever: nobody is ever seated, bound or heard. */
  lemma {:induction false} ShutForEver(cfg: ValidConfig, m: LiveMatch, calls: seq<Call>)
    requires Shut(cfg, m) && PossibleRun(cfg, m, calls)
    ensures Run(cfg, m, calls) == m
  {
    hide Durable, ClaimSeat;
    if calls == [] {
    } else {
      var call := calls[|calls| - 1];
      ShutForEver(cfg, m, calls[..|calls| - 1]);
      if call.Claim? { ClaimDurable(cfg, m, call.name, call.token, call.outcome); }
    }
  }

  // ---- a seat nobody can take ----------------------------------------------------

  /** A lobby in which this seat is taken by a player who is not ready. */
  ghost predicate Unready(s: State, seat: nat) {
    s.phase == Lobby &&
    exists i :: 0 <= i < |s.players| && s.players[i].seat == seat && IsActive(s.players[i]) && !s.players[i].ready
  }

  /** The seat is taken in memory and in the store, and no token or session opens it. */
  ghost predicate Orphaned(cfg: ValidConfig, m: LiveMatch, seat: nat) {
    && Durable(cfg, m)
    && Unready(m.mem, seat) && Unready(m.db.state, seat)
    && Pl(seat) !in m.tokens
    && forall sid :: sid in m.sessions ==> m.sessions[sid].player != Pl(seat)
  }

  /** Whatever anyone else does, a player who is not ready stays and holds up the start. */
  lemma {:induction false} UnreadyStays(cfg: ValidConfig, s: State, seat: nat, i: Input)
    requires Inv(cfg, s) && Unready(s, seat) && i.actor != Pl(seat) && Accepted(cfg, s, i)
    ensures Unready(Apply(cfg, s, i.actor, i.action, i.dice).value.next, seat)
  {
    hide RollOf, Closing, LeaveLobby, LeaveMatch;
    var k :| 0 <= k < |s.players| && s.players[k].seat == seat && IsActive(s.players[k]) && !s.players[k].ready;
    var next := Apply(cfg, s, i.actor, i.action, i.dice).value.next;
    match i.action
    case Leave =>
      var qs := LeaveLobby(s, i.actor).players;
      StaysInLobby(s, i.actor, k);
    case Join(_) => assert next.players[k] == s.players[k];
    case Ready(_) => assert next.players[k].seat == seat;
    case _ =>
  }

  lemma {:induction false} StaysInLobby(s: State, actor: PlayerId, k: nat)
    requires Seated(s.players) && k < |s.players| && s.players[k].id != actor
    ensures LeaveLobby(s, actor).phase == s.phase
    ensures var qs, p := LeaveLobby(s, actor).players, s.players[k];
            exists j :: 0 <= j < |qs| && qs[j].seat == p.seat && qs[j].status == p.status && qs[j].ready == p.ready
  {
    var qs, remaining := LeaveLobby(s, actor).players, Without(s.players, actor);
    WithoutKeeps(s.players, actor);
    assert s.players[k] in remaining;
    if qs == remaining {
      var j :| 0 <= j < |qs| && qs[j] == s.players[k];
    } else {
      BySeatOrders(remaining);
      assert s.players[k] in BySeat(remaining);
      var j :| 0 <= j < |BySeat(remaining)| && BySeat(remaining)[j] == s.players[k];
      assert qs[j].seat == s.players[k].seat;
    }
  }

  lemma {:induction false} ClaimsOtherSeat(cfg: ValidConfig, s: State, seat: nat, name: string)
    requires Unready(s, seat) && ClaimTransition(cfg, s, name).Ok?
    ensures ClaimTransition(cfg, s, name).value.facts[0].id != Pl(seat)
  {
    assert Used(s.players, seat);
  }

  lemma {:induction false} OrphanUnopened(cfg: ValidConfig, m: LiveMatch, seat: nat, call: Call)
    requires Orphaned(cfg, m, seat) && Possible(m, call)
    ensures var n := Next(cfg, m, call);
            Pl(seat) !in n.tokens && forall sid :: sid in n.sessions ==> n.sessions[sid].player != Pl(seat)
  {
    hide Durable, Unready, Apply, Retain, BaseAfter, Commit, SnapshotFor, ClaimTransition;
    if call.Claim? && ClaimTransition(cfg, m.mem, call.name).Ok? { ClaimsOtherSeat(cfg, m.mem, seat, call.name); }
  }

  lemma {:induction false} OrphanStays(cfg: ValidConfig, m: LiveMatch, seat: nat, call: Call)
    requires Orphaned(cfg, m, seat) && Possible(m, call)
    ensures Orphaned(cfg, Next(cfg, m, call), seat)
  {
    NextDurable(cfg, m, call);
    OrphanUnopened(cfg, m, seat, call);
    var i := StoreMoves(cfg, m, call);
    MemoryKept(cfg, m);
    hide Durable, Unready, Apply, Next, Inv, Possible;
    if StoreStepped(cfg, m, Next(cfg, m, call), i) {
      UnreadyStays(cfg, m.mem, seat, i);
    }
  }

  lemma MemoryKept(cfg: ValidConfig, m: LiveMatch)
    requires Durable(cfg, m)
    ensures Inv(cfg, m.mem) && Inv(cfg, m.db.state)
  {
  }

  /** An orphaned seat is orphaned for ever, and its match never leaves the lobby. */
  lemma {:induction false} OrphanForEver(cfg: ValidConfig, m: LiveMatch, seat: nat, calls: seq<Call>)
    requires Orphaned(cfg, m, seat) && PossibleRun(cfg, m, calls)
    ensures Orphaned(cfg, Run(cfg, m, calls), seat) && Run(cfg, m, calls).mem.phase == Lobby
  {
    hide Durable, Next, Possible;
    if calls == [] {
    } else {
      OrphanForEver(cfg, m, seat, calls[..|calls| - 1]);
      OrphanStays(cfg, Run(cfg, m, calls[..|calls| - 1]), seat, calls[|calls| - 1]);
    }
  }

  /** How a seat is orphaned: its claim commits but is reported as failed, and a later action reads the store back. */
  lemma {:induction false} AdoptedClaimOrphans(cfg: ValidConfig, m: LiveMatch, claim: Call, act: Call)
    requires Durable(cfg, m) && InSync(m)
    requires claim.Claim? && ClaimReaches(cfg, m, claim.name, claim.token) && claim.outcome == FailsButCommits
    requires act.Act? && act.readable && ActReaches(cfg, m, act.sid, act.seqNo, act.action, act.dice)
    requires var id := ClaimTransition(cfg, m.mem, claim.name).value.facts[0].id;
             id !in m.tokens && forall sid :: sid in m.sessions ==> m.sessions[sid].player != id
    ensures Orphaned(cfg, Next(cfg, Next(cfg, m, claim), act), FreeSeat(m.mem.players))
  {
    hide Durable, Unready, Next, ClaimTransition, Published;
    var n := Next(cfg, m, claim);
    ClaimedButLost(cfg, m, claim);
    NextDurable(cfg, m, claim);
    ActionHeals(cfg, n, act);
    NextDurable(cfg, n, act);
    ClaimedSeat(cfg, m.mem, claim.name);
  }

  /** The lost claim: the store has the new seat, memory is as it was. */
  lemma {:induction false} ClaimedButLost(cfg: ValidConfig, m: LiveMatch, claim: Call)
    requires Durable(cfg, m) && InSync(m)
    requires claim.Claim? && ClaimReaches(cfg, m, claim.name, claim.token) && claim.outcome == FailsButCommits
    ensures var n := Next(cfg, m, claim);
            && n == m.(db := n.db) && !InSync(n)
            && n.db.state == ClaimTransition(cfg, m.mem, claim.name).value.next
  {
    hide Apply, Inv, Rowed, Install;
    JoinSpeaks(cfg, m.mem, claim.name);
    var i := Input(NoPlayer, Join(claim.name), NO_DICE);
    var t := Apply(cfg, m.mem, NoPlayer, Join(claim.name), NO_DICE).value;
    assert Accepted(cfg, m.mem, i);
    CommittedDurable(cfg, m, i, Some(SeatRow(t.facts[0].id, claim.token.value)), claim.outcome);
    CommitInSync(cfg, m, i, Some(SeatRow(t.facts[0].id, claim.token.value)), claim.outcome);
  }

  lemma {:induction false} ClaimedSeat(cfg: ValidConfig, s: State, name: string)
    requires ClaimTransition(cfg, s, name).Ok?
    ensures var t := ClaimTransition(cfg, s, name).value;
            t.facts[0].id == Pl(FreeSeat(s.players)) && Unready(t.next, FreeSeat(s.players))
  {
    var t := ClaimTransition(cfg, s, name).value;
    assert t.next.players[|s.players|].seat == FreeSeat(s.players);
  }

  // ---- a run that gets there ------------------------------------------------------

  const SEAT_A := Claim("A", Some("a"), Succeeds)
  const BIND_A := Attach(0, "a", Some(Pl(0)))
  const LOSE_B := Claim("B", Some("b"), FailsButCommits)
  const READY_A := Act(0, 1, Ready(true), NO_DICE, Succeeds, true)

  lemma {:induction false} RunSnoc(cfg: ValidConfig, m: LiveMatch, calls: seq<Call>, call: Call)
    ensures Run(cfg, m, calls + [call]) == Next(cfg, Run(cfg, m, calls), call)
    ensures PossibleRun(cfg, m, calls + [call]) <==> PossibleRun(cfg, m, calls) && Possible(Run(cfg, m, calls), call)
  {
    hide Next, Possible;
    assert (calls + [call])[..|calls|] == calls;
  }

  /** One player, seated and bound, in step with the store. */
  ghost predicate OneBound(cfg: ValidConfig, m: LiveMatch) {
    && Durable(cfg, m) && InSync(m)
    && m.mem == NewState(NewBoard(cfg)).(tick := 1,
                                         players := [Player(Pl(0), "A", 0, cfg.startingMoney, Active, false, true, 0)])
    && m.tokens == map[Pl(0) := "a"]
    && m.sessions == map[0 := Session(Pl(0), true, true, false, 0, None)]
    && m.history == [Event(1, PlayerJoined(Pl(0), "A", 0, cfg.startingMoney))] && m.base == 0
  }

  lemma {:induction false} BindsOne(cfg: ValidConfig)
    ensures PossibleRun(cfg, NewMatch(cfg), [SEAT_A, BIND_A])
    ensures OneBound(cfg, Run(cfg, NewMatch(cfg), [SEAT_A, BIND_A]))
  {
    hide Durable, Inv, Commit, Run, Possible, PossibleRun;
    var m := NewMatch(cfg);
    NewMatchDurable(cfg);
    FirstSeat();
    assert ClaimReaches(cfg, m, "A", Some("a"));
    ClaimDurable(cfg, m, "A", Some("a"), Succeeds);
    CommitInSync(cfg, m, Input(NoPlayer, Join("A"), NO_DICE), Some(SeatRow(Pl(0), "a")), Succeeds);
    RunSnoc(cfg, m, [], SEAT_A);
    RunSnoc(cfg, m, [SEAT_A], BIND_A);
    assert [] + [SEAT_A] == [SEAT_A] && [SEAT_A] + [BIND_A] == [SEAT_A, BIND_A];
    var n := Next(cfg, m, SEAT_A);
    DurableFrame(cfg, n, Next(cfg, n, BIND_A));
    Opens(cfg, n);
    NoCalls(cfg, m);
  }

  lemma {:induction false} NoCalls(cfg: ValidConfig, m: LiveMatch)
    ensures PossibleRun(cfg, m, []) && Run(cfg, m, []) == m && Possible(m, SEAT_A)
  {
  }

  lemma Opens(cfg: ValidConfig, m: LiveMatch)
    requires m.tokens == map[Pl(0) := "a"]
    ensures Possible(m, BIND_A)
  {
  }

  /** Whatever the configuration, four calls orphan seat 1. */
  lemma {:induction false} OrphanArises(cfg: ValidConfig)
    ensures var calls := [SEAT_A, BIND_A] + [LOSE_B] + [READY_A];
            PossibleRun(cfg, NewMatch(cfg), calls) && Orphaned(cfg, Run(cfg, NewMatch(cfg), calls), 1)
  {
    hide Durable, Inv, Next, Run, Orphaned, OneBound, NewMatch, PossibleRun;
    var s, two := NewMatch(cfg), [SEAT_A, BIND_A];
    BindsOne(cfg);
    var m := Run(cfg, s, two);
    RunSnoc(cfg, s, two, LOSE_B);
    RunSnoc(cfg, s, two + [LOSE_B], READY_A);
    SecondClaim(cfg, m);
    AdoptedClaimOrphans(cfg, m, LOSE_B, READY_A);
  }

  /** One player in, the second claim is of seat 1, and the first player's toggle gets through to the store. */
  lemma {:induction false} SecondClaim(cfg: ValidConfig, m: LiveMatch)
    requires OneBound(cfg, m)
    ensures Durable(cfg, m) && InSync(m) && m.tokens == map[Pl(0) := "a"]
    ensures FreeSeat(m.mem.players) == 1 && ClaimReaches(cfg, m, LOSE_B.name, LOSE_B.token)
    ensures ClaimTransition(cfg, m.mem, LOSE_B.name).value.facts[0].id == Pl(1)
    ensures forall sid :: sid in m.sessions ==> m.sessions[sid].player == Pl(0)
    ensures ActReaches(cfg, m, READY_A.sid, READY_A.seqNo, READY_A.action, READY_A.dice)
  {
    hide Durable, NewBoard, Inv;
    SecondSeat(m.mem.players);
  }

  // ---- and one that loses a tick of catch-up ------------------------------------------

  const LOSE_READY := Act(0, 1, Ready(true), NO_DICE, FailsButCommits, true)
  const UNREADY_A := Act(0, 1, Ready(false), NO_DICE, Succeeds, true)

  lemma {:induction false} LogSnoc(cfg: ValidConfig, m: LiveMatch, calls: seq<Call>, call: Call)
    ensures var n := Run(cfg, m, calls);
            && FullLog(cfg, m, calls + [call]) == FullLog(cfg, m, calls) + Published(cfg, n, call)
            && AdoptedTicks(cfg, m, calls + [call])
               == AdoptedTicks(cfg, m, calls) + if Adopts(cfg, n, call) then {Next(cfg, n, call).mem.tick} else {}
  {
    hide Next, Published, Adopts;
    assert (calls + [call])[..|calls|] == calls;
  }

  /** With one event retained and none dropped, that event is the whole log. */
  lemma {:induction false} OneLogged(cfg: ValidConfig, m: LiveMatch, log: seq<Event>)
    requires OneBound(cfg, m) && Windowed(m, log)
    ensures log == m.history
  {
    assert m.history[0].tick == 1;
  }

  lemma OneDurable(cfg: ValidConfig, m: LiveMatch)
    requires OneBound(cfg, m)
    ensures Durable(cfg, m) && m.mem.tick == 1 && |m.history| == 1
  {
  }

  /** A lost and adopted toggle, then its reversal. */
  lemma {:induction false} TogglesTwice(cfg: ValidConfig, m: LiveMatch)
    requires OneBound(cfg, m)
    ensures Adopts(cfg, m, LOSE_READY)
    ensures Published(cfg, Next(cfg, m, LOSE_READY), UNREADY_A) != []
  {
    hide Durable, Inv, Commit, Install, SnapshotFor, NewBoard;
    OneDurable(cfg, m);
    var i := Input(Pl(0), Ready(true), NO_DICE);
    var t := Apply(cfg, m.mem, Pl(0), Ready(true), NO_DICE).value;
    assert Accepted(cfg, m.mem, i) && t.facts == [ReadyChanged(Pl(0), true)];
    CommitInSync(cfg, m, i, None, FailsButCommits);
    var n := Next(cfg, m, LOSE_READY);
    NextDurable(cfg, m, LOSE_READY);
    assert n.mem == t.next && n.sessions == m.sessions && InSync(n);
    var j := Input(Pl(0), Ready(false), NO_DICE);
    assert Accepted(cfg, n.mem, j);
    AcceptedExplains(cfg, n.mem, Pl(0), Ready(false), NO_DICE);
    CommitInSync(cfg, n, j, None, Succeeds);
  }

  /** Whatever the configuration, after four calls a client at tick 1 is not served tick 2, and not warned. */
  lemma {:induction false} SkipArises(cfg: ValidConfig, viewer: PlayerId)
    ensures var calls := [SEAT_A, BIND_A] + [LOSE_READY] + [UNREADY_A];
            var p := Run(cfg, NewMatch(cfg), calls);
            && PossibleRun(cfg, NewMatch(cfg), calls) && p.mem.tick == 3
            && SkipsSilently(p, ResumeFor(cfg, p, Some(1), viewer), 1)
  {
    var s, two := NewMatch(cfg), [SEAT_A, BIND_A];
    BindsOne(cfg);
    var m := Run(cfg, s, two);
    RunSnoc(cfg, s, two, LOSE_READY);
    RunSnoc(cfg, s, two + [LOSE_READY], UNREADY_A);
    hide Durable, Inv, Next, Run, Windowed, ResumeFor, FullLog, AdoptedTicks, Published, NewMatch, OneBound, SkipsSilently;
    OneDurable(cfg, m);
    TogglesTwice(cfg, m);
    LogSnoc(cfg, s, two, LOSE_READY);
    LogSnoc(cfg, s, two + [LOSE_READY], UNREADY_A);
    HistoryIsWindow(cfg, two);
    OneLogged(cfg, m, FullLog(cfg, s, two));
    TickMoves(cfg, m, LOSE_READY);
    var n := Next(cfg, m, LOSE_READY);
    NextDurable(cfg, m, LOSE_READY);
    TickMoves(cfg, n, UNREADY_A);
    var events := Published(cfg, n, UNREADY_A);
    var log := m.history + [] + events;
    assert log[1].tick == 3;
    SkipsExactlyAdopted(cfg, two + [LOSE_READY] + [UNREADY_A], 1, viewer);
  }
}
