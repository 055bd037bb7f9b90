/** Who can act for whom: which seats a token opens, and whose connections a seat answers to (match.go). */
module Authority {
  import opened Config
  import opened Domain
  import opened Seats
  import opened Rules
  import opened Roster
  import opened Invariant
  import opened Runs
  import opened Outcomes
  import opened Engine
  import opened Store
  import opened Runtime
  import opened Durability
  import opened Faults

  // ---- every seat can be opened, unless its claim was lost -----------------------

  ghost predicate SeatsIn(s: State, tokens: map<PlayerId, Token>) {
    forall p :: p in s.players ==> p.id in tokens
  }

  /** No token is empty, and every connection belongs to a seat some token opens. */
  ghost predicate Keyed(m: LiveMatch) {
    && (forall id :: id in m.tokens ==> m.tokens[id] != "")
    && forall sid :: sid in m.sessions ==> m.sessions[sid].player in m.tokens
  }

  ghost predicate Opens(m: LiveMatch, id: PlayerId) { exists token :: Finds(m, token, Some(id)) }

  lemma {:induction false} OpensWhatItKeys(m: LiveMatch, id: PlayerId)
    requires Keyed(m)
    ensures Opens(m, id) <==> id in m.tokens
    ensures id in m.tokens ==> Finds(m, m.tokens[id], Some(id))
  {
    if id in m.tokens { assert Finds(m, m.tokens[id], Some(id)); }
  }

  lemma {:induction false} KeyedKept(cfg: ValidConfig, m: LiveMatch, call: Call)
    requires Keyed(m) && Possible(m, call)
    ensures Keyed(Next(cfg, m, call))
    ensures forall id :: id in m.tokens ==> id in Next(cfg, m, call).tokens
  {
    hide Apply, Commit, Retain, BaseAfter, SnapshotFor, ClaimTransition;
  }

  lemma {:induction false} AlwaysKeyed(cfg: ValidConfig, calls: seq<Call>)
    requires PossibleRun(cfg, NewMatch(cfg), calls)
    ensures Keyed(Run(cfg, NewMatch(cfg), calls))
  {
    hide Next, Possible;
    if calls == [] {
    } else {
      AlwaysKeyed(cfg, calls[..|calls| - 1]);
      KeyedKept(cfg, Run(cfg, NewMatch(cfg), calls[..|calls| - 1]), calls[|calls| - 1]);
    }
  }

  /** Only a join brings a new id. */
  lemma {:induction false} NoNewSeats(cfg: ValidConfig, s: State, i: Input, tokens: map<PlayerId, Token>)
    requires Inv(cfg, s) && Accepted(cfg, s, i) && !i.action.Join? && SeatsIn(s, tokens)
    ensures SeatsIn(Apply(cfg, s, i.actor, i.action, i.dice).value.next, tokens)
  {
    var next := Apply(cfg, s, i.actor, i.action, i.dice).value.next;
    if s.phase == Lobby && i.action == Leave {
      LeaverOnly(s, i.actor);
    } else {
      SameIdsKept(cfg, s, i);
      forall p | p in next.players ensures p.id in tokens {
        var k :| 0 <= k < |next.players| && next.players[k] == p;
        assert s.players[k] in s.players && s.players[k].id == p.id;
      }
    }
  }

  lemma {:induction false} LeaverOnly(s: State, actor: PlayerId)
    requires Seated(s.players)
    ensures forall q :: q in LeaveLobby(s, actor).players ==> exists p :: p in s.players && p.id == q.id
  {
    WithoutKeeps(s.players, actor);
    BySeatOrders(Without(s.players, actor));
    var remaining, qs := Without(s.players, actor), LeaveLobby(s, actor).players;
    hide Without, BySeat, Seated, SeatOrdered, DistinctSeats;
    forall q | q in qs ensures exists p :: p in s.players && p.id == q.id {
      var k :| 0 <= k < |qs| && qs[k] == q;
      var p := if qs == remaining then q else BySeat(remaining)[k];
      assert p in s.players && p.id == q.id;
    }
  }

  lemma {:induction false} RollKeepsIds(cfg: ValidConfig, s: State, i: nat, dice: Dice)
    requires i < |s.players| && RollOf(cfg, s, i, dice).Ok?
    ensures SameSeats(s.players, RollOf(cfg, s, i, dice).value.next.players)
  {
    hide ResolveLanding, Evaluate, Walk, MoveFacts, GoBonus;
    var moved := Moved(cfg, s, i, dice.d1 + dice.d2);
    assert SameSeats(s.players, moved.players);
    hide SameSeats;
    LandingKeepsPlaces(moved, i, moved.players[i].position);
    var l := ResolveLanding(moved, i, moved.players[i].position).value;
    ClosingEndsOrNot(cfg, Settled(cfg, l, Streak(cfg, s.turn.streak, dice)));
    SameSeatsChain(s.players, moved.players, l.next.players);
  }

  lemma SameSeatsChain(ps: seq<Player>, qs: seq<Player>, rs: seq<Player>)
    requires SameSeats(ps, qs) && SameSeats(qs, rs)
    ensures SameSeats(ps, rs)
  {
  }

  lemma {:induction false} SameIdsKept(cfg: ValidConfig, s: State, i: Input)
    requires Accepted(cfg, s, i) && !i.action.Join? && !(s.phase == Lobby && i.action == Leave)
    ensures SameSeats(s.players, Apply(cfg, s, i.actor, i.action, i.dice).value.next.players)
  {
    hide RollOf, Evaluate, EndIfShort, NextTurn, CanStart, LeaveLobby, Actives, ActiveSeats, NewBoard, OwnedIds, Release;
    if i.action == Roll && TurnError(s, i.actor, AwaitRoll) == None {
      RollKeepsIds(cfg, s, IndexOf(s.players, i.actor), i.dice);
    }
    forall x ensures Evaluate(cfg, x).next.players == x.players && EndIfShort(x).next.players == x.players {
      ClosingEndsOrNot(cfg, x);
      ShortKeepsPlayers(x);
    }
  }

  lemma ShortKeepsPlayers(s: State)
    ensures EndIfShort(s).next.players == s.players
  {
  }

  /** Both the state in memory and the one stored have a token for every seat. */
  ghost predicate AllKeyed(m: LiveMatch) { SeatsIn(m.mem, m.tokens) && SeatsIn(m.db.state, m.tokens) }

  lemma {:induction false} ClaimKeyed(cfg: ValidConfig, m: LiveMatch, call: Call)
    requires Durable(cfg, m) && AllKeyed(m) && call.Claim? && call.outcome != FailsButCommits
    ensures AllKeyed(Next(cfg, m, call))
  {
    hide Durable, Inv, Apply, SeatsIn, Retain, BaseAfter, InsertEvents;
    ClaimDurable(cfg, m, call.name, call.token, call.outcome);
    if ClaimReaches(cfg, m, call.name, call.token) {
      JoinSpeaks(cfg, m.mem, call.name);
      JoinKeyed(cfg, m.mem, call.name, m.tokens, call.token.value);
    }
  }

  lemma JoinKeyed(cfg: ValidConfig, s: State, name: string, tokens: map<PlayerId, Token>, token: Token)
    requires ClaimTransition(cfg, s, name).Ok? && SeatsIn(s, tokens)
    ensures var t := ClaimTransition(cfg, s, name).value; SeatsIn(t.next, tokens[t.facts[0].id := token])
  {
  }

  lemma {:induction false} AllKeyedKept(cfg: ValidConfig, m: LiveMatch, call: Call)
    requires Durable(cfg, m) && Keyed(m) && AllKeyed(m) && Possible(m, call)
    requires call.Claim? ==> call.outcome != FailsButCommits
    ensures AllKeyed(Next(cfg, m, call))
  {
    hide Durable, Inv, Apply, SeatsIn, Next;
    if call.Claim? {
      ClaimKeyed(cfg, m, call);
    } else {
      var i := StoreMoves(cfg, m, call);
      MemoryKept(cfg, m);
      TokensKept(cfg, m, call);
      if StoreStepped(cfg, m, Next(cfg, m, call), i) {
        AcceptedExplains(cfg, m.mem, i.actor, i.action, i.dice);
        NotAJoin(cfg, m, call);
        NoNewSeats(cfg, m.mem, i, m.tokens);
      }
    }
  }

  lemma {:induction false} TokensKept(cfg: ValidConfig, m: LiveMatch, call: Call)
    requires !call.Claim?
    ensures Next(cfg, m, call).tokens == m.tokens
  {
    hide Apply, Commit, Retain, BaseAfter, SnapshotFor;
  }

  /** Only a claim or an action moves the store. */
  lemma {:induction false} NotAJoin(cfg: ValidConfig, m: LiveMatch, call: Call)
    requires Possible(m, call) && !call.Claim? && Next(cfg, m, call).db != m.db
    ensures call.Act? && !call.action.Join?
  {
    hide Apply, Commit, Retain, BaseAfter, SnapshotFor;
  }

  /** In a run that loses no claim, some token opens every seat taken. */
  lemma {:induction false} EverySeatOpens(cfg: ValidConfig, calls: seq<Call>)
    requires PossibleRun(cfg, NewMatch(cfg), calls)
    requires forall call :: call in calls && call.Claim? ==> call.outcome != FailsButCommits
    ensures var m := Run(cfg, NewMatch(cfg), calls);
            AllKeyed(m) && forall p :: p in m.mem.players ==> Opens(m, p.id)
  {
    hide Next, Possible, Durable, Opens, Finds;
    if calls == [] {
      NobodyYet(cfg);
    } else {
      var before, call := calls[..|calls| - 1], calls[|calls| - 1];
      EverySeatOpens(cfg, before);
      NewMatchDurable(cfg);
      NeverDriftsApart(cfg, NewMatch(cfg), before);
      AlwaysKeyed(cfg, before);
      AllKeyedKept(cfg, Run(cfg, NewMatch(cfg), before), call);
    }
    AlwaysKeyed(cfg, calls);
    var m := Run(cfg, NewMatch(cfg), calls);
    forall p | p in m.mem.players ensures Opens(m, p.id) { OpensWhatItKeys(m, p.id); }
  }

  lemma NobodyYet(cfg: ValidConfig)
    ensures AllKeyed(NewMatch(cfg))
  {
  }

  /** The call reads the store back. */
  ghost predicate ReadsBack(cfg: ValidConfig, m: LiveMatch, call: Call) {
    call.Act? && call.readable && ActReaches(cfg, m, call.sid, call.seqNo, call.action, call.dice)
  }

  /** No call of this run reads the store back. */
  ghost predicate Unread(cfg: ValidConfig, m: LiveMatch, calls: seq<Call>) {
    calls != [] ==>
      var before := calls[..|calls| - 1];
      Unread(cfg, m, before) && !ReadsBack(cfg, Run(cfg, m, before), calls[|calls| - 1])
  }

  /** Behind the store, a call that does not read it back moves neither memory, nor store, nor tokens. */
  lemma {:induction false} UnreadStands(cfg: ValidConfig, m: LiveMatch, call: Call)
    requires Durable(cfg, m) && !InSync(m) && !ReadsBack(cfg, m, call)
    ensures var n := Next(cfg, m, call); n.mem == m.mem && n.db == m.db && n.tokens == m.tokens
  {
    hide Durable, Inv, Apply, Commit, Install, SnapshotFor, InSync;
    match call
    case Claim(name, token, outcome) => ClaimDurable(cfg, m, name, token, outcome);
    case Act(sid, seqNo, action, dice, outcome, readable) =>
      if ActReaches(cfg, m, sid, seqNo, action, dice) {
        NoCommitWhileAhead(cfg, m, Input(m.sessions[sid].player, action, dice), None, outcome);
      }
    case _ =>
  }

  lemma {:induction false} UnreadRun(cfg: ValidConfig, m: LiveMatch, calls: seq<Call>)
    requires Durable(cfg, m) && !InSync(m) && Keyed(m) && PossibleRun(cfg, m, calls) && Unread(cfg, m, calls)
    ensures var n := Run(cfg, m, calls);
            Durable(cfg, n) && Keyed(n) && n.mem == m.mem && n.db == m.db && n.tokens == m.tokens
  {
    hide Durable, Next, Possible, Keyed, ReadsBack;
    if calls == [] {
    } else {
      var before, call := calls[..|calls| - 1], calls[|calls| - 1];
      UnreadRun(cfg, m, before);
      var n := Run(cfg, m, before);
      UnreadStands(cfg, n, call);
      NextDurable(cfg, n, call);
      KeyedKept(cfg, n, call);
    }
  }

  /**
   A claim that commits but is reported as failed, once an action has read the store back, whatever was asked of the
   match in between: its seat is taken, and some token opens it exactly if somebody held the seat before, whose token it
   then is. Otherwise the seat is orphaned. A connection that still carried the seat's id carries it on.
   */
  lemma {:induction false} LostClaimOpens(cfg: ValidConfig, calls: seq<Call>, claim: Call, between: seq<Call>, act: Call)
    requires PossibleRun(cfg, NewMatch(cfg), calls)
    requires var m := Run(cfg, NewMatch(cfg), calls);
             InSync(m) && claim.Claim? && ClaimReaches(cfg, m, claim.name, claim.token) && claim.outcome == FailsButCommits
    requires var lost := Next(cfg, Run(cfg, NewMatch(cfg), calls), claim);
             PossibleRun(cfg, lost, between) && Unread(cfg, lost, between) && ReadsBack(cfg, Run(cfg, lost, between), act)
    ensures var m := Run(cfg, NewMatch(cfg), calls);
            var lost, seat := Next(cfg, m, claim), FreeSeat(m.mem.players);
            var later := Run(cfg, lost, between);
            var n := Next(cfg, later, act);
            && n == later.(mem := lost.db.state) && Unready(n.mem, seat)
            && (Opens(n, Pl(seat)) <==> Pl(seat) in m.tokens)
            && (Pl(seat) in m.tokens ==> Finds(n, m.tokens[Pl(seat)], Some(Pl(seat))))
            && (Orphaned(cfg, n, seat) <==> Pl(seat) !in m.tokens)
  {
    hide Next, Possible, Durable, Run, PossibleRun, NewMatch, Opens, Finds, Unready, ClaimTransition, Keyed, Unread, InSync;
    var m := Run(cfg, NewMatch(cfg), calls);
    NewMatchDurable(cfg);
    NeverDriftsApart(cfg, NewMatch(cfg), calls);
    AlwaysKeyed(cfg, calls);
    var lost := Next(cfg, m, claim);
    ClaimedButLost(cfg, m, claim);
    NextDurable(cfg, m, claim);
    LostKeyed(m, lost);
    UnreadRun(cfg, lost, between);
    var later := Run(cfg, lost, between);
    StillBehind(lost, later);
    ActionHeals(cfg, later, act);
    NextDurable(cfg, later, act);
    ClaimedSeat(cfg, m.mem, claim.name);
    LostKeyed(later, Next(cfg, later, act));
    OpensWhatItKeys(Next(cfg, later, act), Pl(FreeSeat(m.mem.players)));
    OrphanedIfUnkeyed(cfg, Next(cfg, later, act), FreeSeat(m.mem.players));
  }

  lemma StillBehind(m: LiveMatch, n: LiveMatch)
    requires !InSync(m) && n.mem == m.mem && n.db == m.db
    ensures !InSync(n)
  {
  }

  lemma LostKeyed(m: LiveMatch, n: LiveMatch)
    requires Keyed(m) && n.tokens == m.tokens && n.sessions == m.sessions
    ensures Keyed(n)
  {
  }

  lemma OrphanedIfUnkeyed(cfg: ValidConfig, m: LiveMatch, seat: nat)
    requires Durable(cfg, m) && Keyed(m) && Unready(m.mem, seat) && Unready(m.db.state, seat)
    ensures Orphaned(cfg, m, seat) <==> Pl(seat) !in m.tokens
  {
  }

  // ---- a connection acts for the seat its token opened ----------------------------------

  /** The token a connection was last bound with. */
  function Secret(calls: seq<Call>, sid: SessionId): Option<Token> {
    if calls == [] then None
    else
      var before := Secret(calls[..|calls| - 1], sid);
      match calls[|calls| - 1]
      case Attach(s, secret, found) => if s == sid && found.Some? then Some(secret) else before
      case Detach(s) => if s == sid then None else before
      case _ => before
  }

  /** Every connection is bound with the token that now opens the seat it acts for. */
  ghost predicate Rightful(m: LiveMatch, calls: seq<Call>) {
    forall sid :: sid in m.sessions ==>
      m.sessions[sid].player in m.tokens && Secret(calls, sid) == Some(m.tokens[m.sessions[sid].player])
  }

  /** The claim will take a seat whose id a connection still carries, and mint another token for it. */
  ghost predicate Displaces(cfg: ValidConfig, m: LiveMatch, call: Call) {
    && call.Claim? && ClaimReaches(cfg, m, call.name, call.token) && InSync(m) && call.outcome == Succeeds
    && var id := Pl(FreeSeat(m.mem.players));
       && id in m.tokens && m.tokens[id] != call.token.value
       && exists sid :: sid in m.sessions && m.sessions[sid].player == id
  }

  /** Connections act for the seats their tokens open exactly until such a claim. */
  lemma {:induction false} RightfulStep(cfg: ValidConfig, m: LiveMatch, calls: seq<Call>, call: Call)
    requires Durable(cfg, m) && Keyed(m) && Rightful(m, calls) && Possible(m, call)
    ensures Rightful(Next(cfg, m, call), calls + [call]) <==> !Displaces(cfg, m, call)
  {
    hide ClaimSeat, ApplyAction, Durable, ClaimReaches;
    assert (calls + [call])[..|calls|] == calls;
    match call
    case Claim(_, _, _) => RightfulClaim(cfg, m, calls, call);
    case Act(sid, seqNo, action, dice, outcome, readable) => ActKeepsSeats(cfg, m, call);
    case _ =>
  }

  /** At the start of the run and after each of its calls. */
  ghost predicate AlwaysRightful(cfg: ValidConfig, m: LiveMatch, calls: seq<Call>) {
    Rightful(Run(cfg, m, calls), calls) && (calls != [] ==> AlwaysRightful(cfg, m, calls[..|calls| - 1]))
  }

  ghost predicate NeverDisplaces(cfg: ValidConfig, m: LiveMatch, calls: seq<Call>) {
    calls != [] ==>
      var before := calls[..|calls| - 1];
      NeverDisplaces(cfg, m, before) && !Displaces(cfg, Run(cfg, m, before), calls[|calls| - 1])
  }

  /**
   In every run: at every moment every connection acts for the seat that the token it was bound with opens, exactly if
   none of the calls claims a seat whose id a connection still carries, under another token.
   */
  lemma {:induction false} RightfulUntilDisplaced(cfg: ValidConfig, calls: seq<Call>)
    requires PossibleRun(cfg, NewMatch(cfg), calls)
    ensures AlwaysRightful(cfg, NewMatch(cfg), calls) <==> NeverDisplaces(cfg, NewMatch(cfg), calls)
  {
    hide Next, Possible, Durable, Rightful, Displaces, Keyed;
    var s := NewMatch(cfg);
    if calls == [] {
      NobodyBound(cfg);
    } else {
      var before, call := calls[..|calls| - 1], calls[|calls| - 1];
      RightfulUntilDisplaced(cfg, before);
      NewMatchDurable(cfg);
      NeverDriftsApart(cfg, s, before);
      AlwaysKeyed(cfg, before);
      assert calls == before + [call];
      if Rightful(Run(cfg, s, before), before) { RightfulStep(cfg, Run(cfg, s, before), before, call); }
    }
  }

  lemma NobodyBound(cfg: ValidConfig)
    ensures Rightful(NewMatch(cfg), [])
  {
  }

  /** An action changes nobody's seat and no token. */
  lemma {:induction false} ActKeepsSeats(cfg: ValidConfig, m: LiveMatch, call: Call)
    requires call.Act?
    ensures var n := Next(cfg, m, call);
            && n.tokens == m.tokens && n.sessions.Keys == m.sessions.Keys
            && forall sid :: sid in m.sessions ==> n.sessions[sid].player == m.sessions[sid].player
  {
    hide Apply, Commit, Retain, BaseAfter, SnapshotFor;
  }

  lemma {:induction false} RightfulClaim(cfg: ValidConfig, m: LiveMatch, calls: seq<Call>, call: Call)
    requires Durable(cfg, m) && Keyed(m) && Rightful(m, calls) && call.Claim?
    requires forall sid :: Secret(calls + [call], sid) == Secret(calls, sid)
    ensures Rightful(Next(cfg, m, call), calls + [call]) <==> !Displaces(cfg, m, call)
  {
    hide Durable, Secret, Keyed, ClaimReaches, Next;
    ClaimTakes(cfg, m, call);
    var n, id := Next(cfg, m, call), Pl(FreeSeat(m.mem.players));
    if n.tokens != m.tokens && id in m.tokens && n.tokens[id] != m.tokens[id] {
      if sid :| sid in m.sessions && m.sessions[sid].player == id {
        assert sid in n.sessions;
      }
    }
  }

  /** A claim seats someone exactly if it reaches a store it is in step with and is not refused, in the lowest free seat. */
  lemma {:induction false} ClaimTakes(cfg: ValidConfig, m: LiveMatch, call: Call)
    requires Durable(cfg, m) && call.Claim?
    ensures var n := Next(cfg, m, call);
            && n.sessions == m.sessions
            && n.tokens == if ClaimReaches(cfg, m, call.name, call.token) && InSync(m) && call.outcome == Succeeds
                           then m.tokens[Pl(FreeSeat(m.mem.players)) := call.token.value] else m.tokens
  {
    hide Durable, Inv, Apply, Commit, Retain, BaseAfter, InSync, Unready, FreeSeat;
    ClaimDurable(cfg, m, call.name, call.token, call.outcome);
    if ClaimReaches(cfg, m, call.name, call.token) {
      ClaimedSeat(cfg, m.mem, call.name);
      JoinSpeaks(cfg, m.mem, call.name);
      var i := Input(NoPlayer, Join(call.name), NO_DICE);
      assert Accepted(cfg, m.mem, i);
      var t := Apply(cfg, m.mem, NoPlayer, Join(call.name), NO_DICE).value;
      CommittedDurable(cfg, m, i, Some(SeatRow(t.facts[0].id, call.token.value)), call.outcome);
    }
  }

  const LEAVE_A := Act(0, 1, Leave, NO_DICE, Succeeds, true)
  const SEAT_B := Claim("B", Some("b"), Succeeds)
  const READY_B := Act(0, 2, Ready(true), NO_DICE, Succeeds, true)

  /** One call in step with the store, committed as it is reported. */
  lemma {:induction false} ActCommits(cfg: ValidConfig, m: LiveMatch, act: Call)
    requires Durable(cfg, m) && InSync(m) && act.Act? && act.outcome == Succeeds
    requires ActReaches(cfg, m, act.sid, act.seqNo, act.action, act.dice)
    ensures var n, s := Next(cfg, m, act), m.sessions[act.sid];
            && Durable(cfg, n) && InSync(n)
            && n.mem == Apply(cfg, m.mem, s.player, act.action, act.dice).value.next
            && n.tokens == m.tokens
            && act.sid in n.sessions && n.sessions.Keys == m.sessions.Keys
            && n.sessions[act.sid].player == s.player && n.sessions[act.sid].bound
            && n.sessions[act.sid].lastSeq == act.seqNo
            && forall sid :: sid in m.sessions && sid != act.sid ==> n.sessions[sid] == m.sessions[sid]
  {
    hide Durable, Inv, Apply, Commit, Retain, BaseAfter, SnapshotFor;
    NextDurable(cfg, m, act);
    CommitInSync(cfg, m, Input(m.sessions[act.sid].player, act.action, act.dice), None, Succeeds);
  }

  lemma {:induction false} ClaimCommits(cfg: ValidConfig, m: LiveMatch, claim: Call)
    requires Durable(cfg, m) && InSync(m) && claim.Claim? && claim.outcome == Succeeds
    requires ClaimReaches(cfg, m, claim.name, claim.token)
    ensures var n, t := Next(cfg, m, claim), ClaimTransition(cfg, m.mem, claim.name).value;
            && Durable(cfg, n) && InSync(n) && n.mem == t.next && n.sessions == m.sessions
            && t.facts != [] && t.facts[0].PlayerJoined? && n.tokens == m.tokens[t.facts[0].id := claim.token.value]
  {
    hide Durable, Inv, Apply, Commit, Retain, BaseAfter, SnapshotFor;
    NextDurable(cfg, m, claim);
    JoinSpeaks(cfg, m.mem, claim.name);
    var t := ClaimTransition(cfg, m.mem, claim.name).value;
    CommitInSync(cfg, m, Input(NoPlayer, Join(claim.name), NO_DICE), Some(SeatRow(t.facts[0].id, claim.token.value)), Succeeds);
  }

  lemma {:induction false} LeavesEmpty(cfg: ValidConfig, s: State)
    requires |s.players| == 1 && s.players[0].id == Pl(0) && s.phase == Lobby
    ensures var r := Apply(cfg, s, Pl(0), Leave, NO_DICE);
            r.Ok? && r.value.next == s.(players := [], tick := s.tick + 1)
  {
    assert s.players[..0] == [];
    assert Without(s.players, Pl(0)) == [];
  }

  /**
   Whatever the configuration: a player leaves the lobby but stays connected, someone else claims the seat, and the old
   connection, bound with the old token, readies the newcomer.
   */
  lemma {:induction false} OldConnectionActsForNewcomer(cfg: ValidConfig)
    ensures var calls := [SEAT_A, BIND_A] + [LEAVE_A] + [SEAT_B] + [READY_B];
            var m := Run(cfg, NewMatch(cfg), calls);
            && PossibleRun(cfg, NewMatch(cfg), calls)
            && m.mem.players == [Player(Pl(0), "B", 0, cfg.startingMoney, Active, true, true, 0)]
            && m.tokens == map[Pl(0) := "b"] && Secret(calls, 0) == Some("a")
            && 0 in m.sessions && m.sessions[0].player == Pl(0)
  {
    hide Durable, Inv, Next, Run, PossibleRun, NewMatch, Rules.Apply, NewBoard;
    var s, two := NewMatch(cfg), [SEAT_A, BIND_A];
    BindsOne(cfg);
    var m := Run(cfg, s, two);
    RunSnoc(cfg, s, two, LEAVE_A);
    RunSnoc(cfg, s, two + [LEAVE_A], SEAT_B);
    RunSnoc(cfg, s, two + [LEAVE_A] + [SEAT_B], READY_B);
    LeavesEmpty(cfg, m.mem);
    ActCommits(cfg, m, LEAVE_A);
    var n := Next(cfg, m, LEAVE_A);
    JoinsEmpty(cfg, n.mem);
    ClaimCommits(cfg, n, SEAT_B);
    var p := Next(cfg, n, SEAT_B);
    ReadiesOne(cfg, p.mem);
    ActCommits(cfg, p, READY_B);
    SecretKept();
  }

  lemma {:induction false} JoinsEmpty(cfg: ValidConfig, s: State)
    requires s.players == [] && s.phase == Lobby
    ensures var r, p := ClaimTransition(cfg, s, "B"), Player(Pl(0), "B", 0, cfg.startingMoney, Active, false, true, 0);
            r.Ok? && r.value.next == s.(players := [p], tick := s.tick + 1) && |r.value.facts| == 1
            && r.value.facts[0] == PlayerJoined(Pl(0), "B", 0, cfg.startingMoney)
  {
    FirstSeat();
  }

  lemma ReadiesOne(cfg: ValidConfig, s: State)
    requires |s.players| == 1 && s.players[0].id == Pl(0) && !s.players[0].ready && s.phase == Lobby
    ensures var r := Apply(cfg, s, Pl(0), Ready(true), NO_DICE);
            r.Ok? && r.value.next == s.(players := [s.players[0].(ready := true)], tick := s.tick + 1)
  {
  }

  lemma {:induction false} SecretKept()
    ensures Secret([SEAT_A, BIND_A] + [LEAVE_A] + [SEAT_B] + [READY_B], 0) == Some("a")
  {
    var b := [SEAT_A, BIND_A];
    assert [SEAT_A, BIND_A][..1] == [SEAT_A];
    assert Secret(b, 0) == Some("a");
    assert (b + [LEAVE_A])[..|b|] == b;
    assert (b + [LEAVE_A] + [SEAT_B])[..|b| + 1] == b + [LEAVE_A];
    assert (b + [LEAVE_A] + [SEAT_B] + [READY_B])[..|b| + 2] == b + [LEAVE_A] + [SEAT_B];
    assert Secret(b + [LEAVE_A], 0) == Some("a");
    assert Secret(b + [LEAVE_A] + [SEAT_B], 0) == Some("a");
  }
}
