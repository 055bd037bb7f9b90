/** What a claimant is handed, and the durable seat rows that claims leave (match.go, store.go). */
module Keys {
  import opened Config
  import opened Domain
  import opened Seats
  import opened Rules
  import opened Invariant
  import opened Runs
  import opened Engine
  import opened Store
  import opened Runtime
  import opened Durability
  import opened Faults
  import opened Effects
  import opened Answers
  import opened Authority

  // ---- what a claimant is handed -----------------------------------------------------

  ghost function ClaimReplyOf(cfg: ValidConfig, m: LiveMatch, call: Call): ClaimReply
    requires call.Claim?
  {
    ClaimSeat(cfg, m, call.name, call.token, call.outcome).1
  }

  /** Each answer to a claim, exactly when it is given. */
  lemma {:induction false} ClaimAnswered(cfg: ValidConfig, m: LiveMatch, call: Call)
    requires Durable(cfg, m) && call.Claim?
    ensures var room := m.mem.phase == Lobby && 1 <= |call.name| <= 32 && |m.mem.players| < cfg.maxPlayers;
            match ClaimReplyOf(cfg, m, call)
            case SeatRefused(e) =>
              || (e == ErrAlreadyStarted && m.mem.phase != Lobby)
              || (e == ErrInvalidName && m.mem.phase == Lobby && !(1 <= |call.name| <= 32))
              || (e == ErrGameFull && m.mem.phase == Lobby && 1 <= |call.name| <= 32 && |m.mem.players| >= cfg.maxPlayers)
            case NoToken => room && call.token == None
            case SeatNotDurable => room && call.token != None && !(InSync(m) && call.outcome == Succeeds)
            case SeatClaimed(player, token, _) =>
              room && call.token == Some(token) && InSync(m) && call.outcome == Succeeds && player == Pl(FreeSeat(m.mem.players))
  {
    hide Durable, Inv, Commit, Retain, BaseAfter, InSync, FreeSeat, Apply, Unready;
    JoinAnswers(cfg, m.mem, NoPlayer, call.name, NO_DICE);
    if ClaimReaches(cfg, m, call.name, call.token) {
      ClaimedSeat(cfg, m.mem, call.name);
      JoinSpeaks(cfg, m.mem, call.name);
      var i := Input(NoPlayer, Join(call.name), NO_DICE);
      assert Accepted(cfg, m.mem, i);
      var t := Apply(cfg, m.mem, NoPlayer, Join(call.name), NO_DICE).value;
      CommittedDurable(cfg, m, i, Some(SeatRow(t.facts[0].id, call.token.value)), call.outcome);
    }
  }

  /**
   In every run a claimant who is handed a seat and a token that opened nothing before holds its key: the token opens that
   seat and no other, attaching with it binds the connection there, and the seat was free and is now theirs, under the name
   claimed, as exactly the published event says.
   */
  lemma {:induction false} ClaimHandsTheKey(cfg: ValidConfig, calls: seq<Call>, claim: Call, sid: SessionId)
    requires PossibleRun(cfg, NewMatch(cfg), calls) && claim.Claim? && Possible(Run(cfg, NewMatch(cfg), calls), claim)
    requires var m := Run(cfg, NewMatch(cfg), calls);
             var r := ClaimReplyOf(cfg, m, claim);
             r.SeatClaimed? && Finds(m, r.token, None)
    ensures var m := Run(cfg, NewMatch(cfg), calls);
            var n, r := Next(cfg, m, claim), ClaimReplyOf(cfg, m, claim);
            && Finds(n, r.token, Some(r.player)) && (forall found :: Finds(n, r.token, found) ==> found == Some(r.player))
            && (var b := Next(cfg, n, Attach(sid, r.token, Some(r.player)));
                sid in b.sessions && b.sessions[sid].player == r.player && b.sessions[sid].bound)
            && r.player.Pl? && !Taken(m.mem, r.player.seat)
            && |n.mem.players| == |m.mem.players| + 1
            && (var p := n.mem.players[|m.mem.players|];
                && p.id == r.player && p.seat == r.player.seat && p.name == claim.name
                && r.events == [Event(n.mem.tick, PlayerJoined(p.id, claim.name, p.seat, cfg.startingMoney))])
            && r.events == Published(cfg, m, claim)
  {
    hide PossibleRun, Run, NewMatch, Durable, Keyed, Taken;
    var m := Run(cfg, NewMatch(cfg), calls);
    NewMatchDurable(cfg);
    NeverDriftsApart(cfg, NewMatch(cfg), calls);
    ClaimAnswered(cfg, m, claim);
    ClaimTakes(cfg, m, claim);
    KeyOpens(m, Next(cfg, m, claim), ClaimReplyOf(cfg, m, claim).player, claim.token.value);
    ClaimSeats(cfg, m, claim);
    hide Next, ClaimSeat, Finds;
    BindsThere(cfg, Next(cfg, m, claim), sid, claim.token.value, ClaimReplyOf(cfg, m, claim).player);
  }

  lemma BindsThere(cfg: ValidConfig, m: LiveMatch, sid: SessionId, token: Token, id: PlayerId)
    ensures var b := Next(cfg, m, Attach(sid, token, Some(id)));
            sid in b.sessions && b.sessions[sid].player == id && b.sessions[sid].bound
  {
  }

  lemma KeyOpens(m: LiveMatch, n: LiveMatch, id: PlayerId, token: Token)
    requires token != "" && Finds(m, token, None) && n.tokens == m.tokens[id := token]
    ensures Finds(n, token, Some(id)) && forall found :: Finds(n, token, found) ==> found == Some(id)
  {
  }

  lemma {:induction false} ClaimSeats(cfg: ValidConfig, m: LiveMatch, claim: Call)
    requires claim.Claim? && ClaimReplyOf(cfg, m, claim).SeatClaimed?
    ensures var n, r := Next(cfg, m, claim), ClaimReplyOf(cfg, m, claim);
            && r.player.Pl? && !Taken(m.mem, r.player.seat) && |n.mem.players| == |m.mem.players| + 1
            && (var p := n.mem.players[|m.mem.players|];
                && p.id == r.player && p.seat == r.player.seat && p.name == claim.name
                && r.events == [Event(n.mem.tick, PlayerJoined(p.id, claim.name, p.seat, cfg.startingMoney))])
            && r.events == Published(cfg, m, claim)
  {
    JoinDoes(cfg, m.mem, NoPlayer, claim.name, NO_DICE);
    hide Apply, Commit, Retain, BaseAfter, Taken;
  }

  // ---- the durable seat rows --------------------------------------------------------------

  /** The claim commits this seat, whatever the claimant is told. */
  ghost predicate SeatsAs(cfg: ValidConfig, m: LiveMatch, call: Call, id: PlayerId) {
    && call.Claim? && ClaimReaches(cfg, m, call.name, call.token) && InSync(m) && call.outcome != Fails
    && id == Pl(FreeSeat(m.mem.players))
  }

  /** The latest claim of a run that committed this seat. */
  ghost function LastClaim(cfg: ValidConfig, m: LiveMatch, calls: seq<Call>, id: PlayerId): Option<Call> {
    if calls == [] then None
    else
      var before, call := calls[..|calls| - 1], calls[|calls| - 1];
      if SeatsAs(cfg, Run(cfg, m, before), call, id) then Some(call) else LastClaim(cfg, m, before, id)
  }

  /** A seat has a row exactly if some claim committed it: the latest one's token, which opens the seat unless it was lost. */
  ghost predicate RowIs(m: LiveMatch, id: PlayerId, last: Option<Call>) {
    && (id in m.db.seats <==> last.Some?)
    && (id in m.tokens ==> id in m.db.seats)
    && match last
       case None => true
       case Some(call) =>
         && call.Claim? && call.token.Some? && m.db.seats[id] == call.token.value
         && (call.outcome == Succeeds ==> id in m.tokens && m.tokens[id] == m.db.seats[id])
  }

  /** A call writes the row of the seat it commits, and no other. */
  lemma {:induction false} SeatsWritten(cfg: ValidConfig, m: LiveMatch, call: Call)
    requires Durable(cfg, m)
    ensures var n := Next(cfg, m, call);
            forall id ::
              if SeatsAs(cfg, m, call, id) then
                id in n.db.seats && n.db.seats[id] == call.token.value
                && (call.outcome == Succeeds ==> id in n.tokens && n.tokens[id] == call.token.value)
                && (call.outcome != Succeeds ==> n.tokens == m.tokens)
              else
                && (id in n.db.seats <==> id in m.db.seats) && (id in m.db.seats ==> n.db.seats[id] == m.db.seats[id])
                && (id in n.tokens <==> id in m.tokens) && (id in m.tokens ==> n.tokens[id] == m.tokens[id])
  {
    if call.Claim? {
      ClaimTakes(cfg, m, call);
      ClaimWrites(cfg, m, call);
    } else {
      OthersWrite(cfg, m, call);
    }
    hide Next, Durable, InSync, ClaimReaches, FreeSeat;
  }

  lemma {:induction false} ClaimWrites(cfg: ValidConfig, m: LiveMatch, call: Call)
    requires Durable(cfg, m) && call.Claim?
    ensures var n := Next(cfg, m, call);
            n.db.seats == if ClaimReaches(cfg, m, call.name, call.token) && InSync(m) && call.outcome != Fails
                          then m.db.seats[Pl(FreeSeat(m.mem.players)) := call.token.value] else m.db.seats
  {
    hide Durable, Inv, Apply, Retain, BaseAfter, Unready, FreeSeat, InsertEvents;
    if ClaimReaches(cfg, m, call.name, call.token) {
      ClaimedSeat(cfg, m.mem, call.name);
      JoinSpeaks(cfg, m.mem, call.name);
      var i := Input(NoPlayer, Join(call.name), NO_DICE);
      assert Accepted(cfg, m.mem, i);
      var t := Apply(cfg, m.mem, NoPlayer, Join(call.name), NO_DICE).value;
      var seat := Some(SeatRow(t.facts[0].id, call.token.value));
      if InSync(m) { CommitInSync(cfg, m, i, seat, call.outcome); } else { NoCommitWhileAhead(cfg, m, i, seat, call.outcome); }
      MovesOn(cfg, m.mem, i);
    }
  }

  lemma MovesOn(cfg: ValidConfig, s: State, i: Input)
    requires Accepted(cfg, s, i)
    ensures Apply(cfg, s, i.actor, i.action, i.dice).value.next != s
  {
    AcceptedExplains(cfg, s, i.actor, i.action, i.dice);
    hide Apply;
  }

  lemma {:induction false} OthersWrite(cfg: ValidConfig, m: LiveMatch, call: Call)
    requires !call.Claim?
    ensures Next(cfg, m, call).db.seats == m.db.seats && Next(cfg, m, call).tokens == m.tokens
  {
    hide Apply, InsertEvents, Retain, BaseAfter, SnapshotFor;
  }

  lemma {:induction false} RowStep(cfg: ValidConfig, m: LiveMatch, n: LiveMatch, call: Call, id: PlayerId, last: Option<Call>)
    requires Durable(cfg, m) && RowIs(m, id, last) && n == Next(cfg, m, call)
    ensures RowIs(n, id, if SeatsAs(cfg, m, call, id) then Some(call) else last)
  {
    SeatsWritten(cfg, m, call);
    hide Durable, Next, ClaimReaches, InSync, FreeSeat;
  }

  /**
   In every run every seat taken, in memory and in the store, has a durable row: the token of the latest claim that
   committed it, lost claims included, which is the token that opens it unless that claim was lost.
   */
  lemma {:induction false} SeatRowsAsClaimed(cfg: ValidConfig, calls: seq<Call>)
    requires PossibleRun(cfg, NewMatch(cfg), calls)
    ensures var m := Run(cfg, NewMatch(cfg), calls);
            && (forall id :: RowIs(m, id, LastClaim(cfg, NewMatch(cfg), calls, id)))
            && (forall p :: p in m.db.state.players ==> p.id in m.db.seats)
            && forall p :: p in m.mem.players ==> p.id in m.db.seats
  {
    hide Next, Possible, Durable, RowIs, SeatsAs;
    var s := NewMatch(cfg);
    NewMatchDurable(cfg);
    if calls == [] {
      NoRows(cfg);
    } else {
      var before, call := calls[..|calls| - 1], calls[|calls| - 1];
      SeatRowsAsClaimed(cfg, before);
      NeverDriftsApart(cfg, s, before);
      var m := Run(cfg, s, before);
      forall id ensures RowIs(Next(cfg, m, call), id, LastClaim(cfg, s, calls, id)) {
        RowStep(cfg, m, Next(cfg, m, call), call, id, LastClaim(cfg, s, before, id));
      }
      RowsKept(cfg, m, call);
    }
  }

  lemma NoRows(cfg: ValidConfig)
    ensures var m := NewMatch(cfg);
            m.mem.players == [] && m.db.state.players == [] && m.db.seats == map[] && m.tokens == map[]
            && forall id :: RowIs(m, id, None)
  {
  }

  ghost predicate HasRows(s: State, seats: map<PlayerId, Token>) { forall p :: p in s.players ==> p.id in seats }

  lemma {:induction false} RowsKept(cfg: ValidConfig, m: LiveMatch, call: Call)
    requires Durable(cfg, m) && Possible(m, call)
    requires HasRows(m.mem, m.db.seats) && HasRows(m.db.state, m.db.seats)
    ensures var n := Next(cfg, m, call); HasRows(n.mem, n.db.seats) && HasRows(n.db.state, n.db.seats)
  {
    hide Durable, Next, Possible, Inv, Apply;
    var n := Next(cfg, m, call);
    if call.Claim? {
      ClaimRows(cfg, m, call);
    } else {
      OthersWrite(cfg, m, call);
      MemoryKept(cfg, m);
      var i := StoreMoves(cfg, m, call);
      if StoreStepped(cfg, m, n, i) {
        AcceptedExplains(cfg, m.mem, i.actor, i.action, i.dice);
        NotAJoin(cfg, m, call);
        RowsCarried(cfg, m.mem, i, m.db.seats);
      }
    }
  }

  lemma {:induction false} RowsCarried(cfg: ValidConfig, s: State, i: Input, seats: map<PlayerId, Token>)
    requires Inv(cfg, s) && Accepted(cfg, s, i) && !i.action.Join? && HasRows(s, seats)
    ensures HasRows(Apply(cfg, s, i.actor, i.action, i.dice).value.next, seats)
  {
    NoNewSeats(cfg, s, i, seats);
    hide Inv, Apply;
  }

  lemma {:induction false} ClaimRows(cfg: ValidConfig, m: LiveMatch, call: Call)
    requires Durable(cfg, m) && call.Claim?
    requires HasRows(m.mem, m.db.seats) && HasRows(m.db.state, m.db.seats)
    ensures var n := Next(cfg, m, call); HasRows(n.mem, n.db.seats) && HasRows(n.db.state, n.db.seats)
  {
    hide Durable, Inv, Apply, Retain, BaseAfter, FreeSeat, Commit, HasRows;
    var n := Next(cfg, m, call);
    ClaimWrites(cfg, m, call);
    ClaimDurable(cfg, m, call.name, call.token, call.outcome);
    if ClaimReaches(cfg, m, call.name, call.token) && InSync(m) {
      var i := Input(NoPlayer, Join(call.name), NO_DICE);
      JoinSpeaks(cfg, m.mem, call.name);
      var t := Apply(cfg, m.mem, NoPlayer, Join(call.name), NO_DICE).value;
      CommitInSync(cfg, m, i, Some(SeatRow(t.facts[0].id, call.token.value)), call.outcome);
      NewRow(cfg, m.mem, call.name, m.db.seats, call.token.value);
      RowsGrow(m.mem, m.db.seats, Pl(FreeSeat(m.mem.players)), call.token.value);
    }
  }

  lemma RowsGrow(s: State, seats: map<PlayerId, Token>, id: PlayerId, token: Token)
    requires HasRows(s, seats)
    ensures HasRows(s, seats[id := token])
  {
  }

  lemma {:induction false} NewRow(cfg: ValidConfig, s: State, name: string, seats: map<PlayerId, Token>, token: Token)
    requires ClaimTransition(cfg, s, name).Ok? && HasRows(s, seats)
    ensures HasRows(ClaimTransition(cfg, s, name).value.next, seats[Pl(FreeSeat(s.players)) := token])
  {
  }
}
