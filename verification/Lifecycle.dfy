/** The lifecycle rules as they run: joining, leaving, readying up and starting (lifecycle.go, legality.go). */
module LifecycleRuleset {
  import opened Config
  import opened Domain
  import opened Seats
  import opened Rules
  import opened Roster
  import opened States
  import opened BoardRuleset
  import opened Legality

  method Join(cfg: ValidConfig, state: GameState, name: string) returns (reply: Reply)
    ensures Answers(reply, DoJoin(cfg, state.Value(), name))
    ensures reply.Accepted? ==> fresh(reply.next.Storage())
  {
    if state.phase == Playing { return Refused(ErrAlreadyStarted); }
    if state.phase != Lobby { return Refused(ErrOutOfPhase); }
    if !NameOk(name) { return Refused(ErrInvalidName); }
    if state.players.Length >= cfg.maxPlayers { return Refused(ErrGameFull); }
    var seat := state.NextSeat();
    var next := state.Clone();
    var player := Player(Pl(seat), name, seat, cfg.startingMoney, Active, false, next.players.Length == 0, 0);
    assert next.players.Length == 0 <==> state.players[..] == [];
    next.SetPlayers(next.players[..] + [player]);
    reply := Accepted(next, [PlayerJoined(player.id, player.name, player.seat, player.money)]);
  }

  /** Everyone but the leaver, and whether the leaver hosted. */
  method Remaining(state: GameState, actor: PlayerId) returns (remaining: seq<Player>, hostLeft: bool)
    requires Seated(state.players[..])
    ensures remaining == Without(state.players[..], actor)
    ensures var i := IndexOf(state.players[..], actor);
            hostLeft <==> i < state.players.Length && state.players[i].isHost
  {
    ghost var was := state.players[..];
    remaining, hostLeft := [], false;
    for k := 0 to state.players.Length
      invariant remaining == Without(was[..k], actor)
      invariant hostLeft <==> exists j :: 0 <= j < k && was[j].id == actor && was[j].isHost
    {
      assert was[..k + 1][..k] == was[..k];
      var p := state.players[k];
      assert p == was[k];
      if p.id == actor {
        IndexUnique(was, k);
        hostLeft := p.isHost;
      } else {
        remaining := remaining + [p];
      }
    }
    assert was[..state.players.Length] == was;
    HostLeft(was, actor);
  }

  /** The roster without the leaver; if they hosted, the lowest remaining seat succeeds them. */
  method RemoveFromLobby(next: GameState, actor: PlayerId)
    requires Seated(next.players[..])
    modifies next`players
    ensures next.Value() == LeaveLobby(old(next.Value()), actor)
    ensures fresh(next.players)
  {
    hide Seated;
    ghost var was := next.players[..];
    var remaining, hostLeft := Remaining(next, actor);
    if !hostLeft || |remaining| == 0 {
      next.SetPlayers(remaining);
      return;
    }
    SortedRemaining(was, actor);
    var sorted := SortBySeat(remaining);
    next.SetPlayers(sorted);
    Crown(next, was, sorted);
  }

  /** Makes the player with the successor's id the host. */
  method Crown(next: GameState, ghost was: seq<Player>, sorted: seq<Player>)
    requires Seated(was) && SeatOrdered(sorted) && sorted != [] && forall q :: q in sorted ==> q in was
    requires next.players[..] == sorted
    modifies next.players
    ensures next.players[..] == sorted[0 := sorted[0].(isHost := true)]
  {
    hide Seated, SeatOrdered;
    var successor := sorted[0].id;
    for k := 0 to next.players.Length
      invariant next.players[..] == if k == 0 then sorted else sorted[0 := sorted[0].(isHost := true)]
    {
      SuccessorFirst(was, sorted, k);
      if next.players[k].id == successor {
        next.players[k] := next.players[k].(isHost := true);
      }
    }
  }

  /** An active leaver goes out as a bankrupt does, whatever they hold reverting to the bank. */
  method EliminateLeaver(next: GameState, actor: PlayerId) returns (facts: seq<Fact>)
    requires Seated(next.players[..]) && Has(next.players[..], actor)
    modifies next.players, next.spaces
    ensures next.Value() == Out(old(next.Value()), IndexOf(old(next.players[..]), actor))
    ensures facts == GoneFacts(old(next.Value()), IndexOf(old(next.players[..]), actor))
    ensures Seated(next.players[..])
  {
    ghost var was := next.Value();
    ghost var h := IndexOf(was.players, actor);
    facts := [];
    for i := 0 to next.players.Length
      invariant next.Value() == if i <= h then was else Out(was, h)
      invariant facts == if i <= h then [] else GoneFacts(was, h)
      invariant Seated(next.players[..])
    {
      assert next.players[i] == next.players[..][i];
      if was.players[i].id == actor { IndexUnique(was.players, i); }
      if next.players[i].id == actor && next.players[i].status == Active {
        var released := ReleaseHoldings(next, actor);
        next.players[i] := next.players[i].(status := Eliminated);
        facts := facts + [PlayerBankrupt(actor, VoluntaryLeave, NoPlayer, 0, released), PlayerEliminated(actor, VoluntaryLeave)];
      }
    }
  }

  /** Eliminates the leaver, and ends the match or their turn if they were needed for it. */
  method RemoveFromMatch(next: GameState, actor: PlayerId) returns (facts: seq<Fact>)
    requires Seated(next.players[..]) && Has(next.players[..], actor)
    modifies next, next.players, next.spaces
    ensures next.players == old(next.players) && next.spaces == old(next.spaces)
    ensures Transition(next.Value(), [PlayerLeft(actor)] + facts)
            == LeaveMatch(old(next.Value()), IndexOf(old(next.players[..]), actor))
  {
    hide Out, GoneFacts, Seated, AdvanceFrom;
    var l := next.PlayerIndex(actor);
    var seat := next.players[l].seat;
    facts := EliminateLeaver(next, actor);
    var ended := MaybeEndForInsufficientPlayers(next);
    facts := facts + ended;
    if next.phase == Playing && seat == next.turn.seat {
      var advanced := PassTurn(next, seat);
      facts := facts + [advanced];
    }
  }

  method Leave(state: GameState, actor: PlayerId) returns (reply: Reply)
    requires Seated(state.players[..])
    ensures Answers(reply, DoLeave(state.Value(), actor))
    ensures reply.Accepted? ==> fresh(reply.next.Storage())
  {
    hide LeaveLobby, LeaveMatch;
    if state.phase == Ended || state.phase == Interrupted { return Refused(ErrOutOfPhase); }
    var i := state.PlayerIndex(actor);
    if i == state.players.Length { return Refused(ErrPlayerNotInGame); }
    var next := state.Clone();
    var consequences: seq<Fact> := [];
    if state.phase == Lobby {
      RemoveFromLobby(next, actor);
      assert [PlayerLeft(actor)] + consequences == [PlayerLeft(actor)];
    } else {
      consequences := RemoveFromMatch(next, actor);
    }
    reply := Accepted(next, [PlayerLeft(actor)] + consequences);
  }

  /** Changes a player's readiness; a toggle that changes nothing is refused. */
  method SetReady(state: GameState, actor: PlayerId, ready: bool) returns (reply: Reply)
    ensures Answers(reply, DoReady(state.Value(), actor, ready))
    ensures reply.Accepted? ==> fresh(reply.next.Storage())
  {
    if state.phase != Lobby { return Refused(ErrOutOfPhase); }
    var i := state.PlayerIndex(actor);
    if i == state.players.Length { return Refused(ErrPlayerNotInGame); }
    if state.players[i].ready == ready { return Refused(ErrNoChange); }
    var next := state.Clone();
    var p := next.PlayerIndex(actor);
    next.players[p] := next.players[p].(ready := ready);
    reply := Accepted(next, [ReadyChanged(actor, ready)]);
  }

  /** Enough active players, all of them ready. */
  method MayStart(cfg: ValidConfig, state: GameState) returns (ok: bool)
    ensures ok <==> CanStart(cfg, state.Value())
  {
    if state.phase != Lobby { return false; }
    var active := state.ActivePlayers();
    SameCount(active, Actives(state.players[..]));
    if |active| < cfg.minPlayers || |active| > cfg.maxPlayers { return false; }
    for k := 0 to |active|
      invariant forall j :: 0 <= j < k ==> active[j].ready
    {
      if !active[k].ready {
        assert active[k] in active;
        return false;
      }
    }
    AllListed(active, state.players[..]);
    return true;
  }

  method Start(cfg: ValidConfig, state: GameState, actor: PlayerId) returns (reply: Reply)
    ensures Answers(reply, DoStart(cfg, state.Value(), actor))
    ensures reply.Accepted? ==> fresh(reply.next.Storage())
  {
    hide CanStart, ActiveSeats, ActiveInOrder, ListsActive, Actives, DistinctSeats;
    if state.phase != Lobby { return Refused(ErrOutOfPhase); }
    var host := state.Host();
    if host == state.players.Length || state.players[host].id != actor { return Refused(ErrNotPermitted); }
    var active := state.ActivePlayers();
    SameCount(active, Actives(state.players[..]));
    if |active| > cfg.maxPlayers { return Refused(ErrGameFull); }
    if |active| < cfg.minPlayers { return Refused(ErrNotEnoughPlayers); }
    var ok := MayStart(cfg, state);
    if !ok { return Refused(ErrNotAllReady); }
    FirstIsLeast(active, state.players[..]);
    var next := state.Clone();
    Arm(cfg, next, active[0].seat);
    reply := Accepted(next, [GameStarted]);
  }

  /** Puts the match in play with the first turn at this seat. */
  method Arm(cfg: ValidConfig, next: GameState, first: nat)
    modifies next`phase, next`spaces, next`turn
    ensures next.Value() == old(next.Value()).(phase := Playing, turn := Turn(first, AwaitRoll, 1, 0, false),
                                               spaces := if old(next.spaces[..]) == [] then NewBoard(cfg) else old(next.spaces[..]))
    ensures next.spaces == old(next.spaces) || fresh(next.spaces)
  {
    next.phase := Playing;
    BuildBoard(cfg, next);
    next.turn := Turn(first, AwaitRoll, 1, 0, false);
  }

  /** Builds the board unless the match was created with it. */
  method BuildBoard(cfg: ValidConfig, next: GameState)
    modifies next`spaces
    ensures next.spaces[..] == if old(next.spaces[..]) == [] then NewBoard(cfg) else old(next.spaces[..])
    ensures next.spaces == old(next.spaces) || fresh(next.spaces)
  {
    if next.spaces.Length == 0 {
      assert next.spaces[..] == [];
      var board := cfg.board;
      next.spaces := new Space[|board|](k requires 0 <= k < |board| => Space(board[k], false, NoPlayer, 0));
      assert next.spaces[..] == NewBoard(cfg);
    } else {
      assert next.spaces[..] != [];
    }
  }

  /** The action types the engine would accept from `actor` now, in a fixed order. */
  method Legal(cfg: ValidConfig, state: GameState, actor: PlayerId) returns (out: seq<ActionType>)
    ensures out == LegalActions(cfg, state.Value(), actor)
  {
    hide CanStart;
    out := [];
    if actor == NoPlayer { return; }
    var i := state.PlayerIndex(actor);
    if i == state.players.Length { return; }
    var p := state.players[i];
    match state.phase {
      case Lobby =>
        out := out + [TLeave];
        out := out + [TReady];
        if p.isHost {
          var ok := MayStart(cfg, state);
          if ok { out := out + [TStart]; }
        }
      case Playing =>
        out := out + [TLeave];
        if p.status != Active || p.seat != state.turn.seat || p.position < 0 || p.position >= state.spaces.Length {
          return;
        }
        match state.turn.phase {
          case NoTurn =>
          case AwaitRoll => out := out + [TRoll];
          case AwaitBuyDecision =>
            var space := state.spaces[p.position];
            if space.def.kind == Property && !space.owned {
              out := out + [TDecline];
              if p.money >= space.def.price { out := out + [TBuy]; }
            }
          case TurnOver => out := out + [TEndTurn];
        }
      case Ended =>
      case Interrupted =>
    }
  }

  // ---- facts about the loops -------------------------------------------------

  lemma {:induction false} HostLeft(ps: seq<Player>, actor: PlayerId)
    requires Seated(ps)
    ensures (exists j :: 0 <= j < |ps| && ps[j].id == actor && ps[j].isHost)
            <==> Has(ps, actor) && ps[IndexOf(ps, actor)].isHost
  {
    forall j | 0 <= j < |ps| && ps[j].id == actor ensures j == IndexOf(ps, actor) {
      IndexUnique(ps, j);
    }
  }

  lemma {:induction false} SortedRemaining(ps: seq<Player>, actor: PlayerId)
    requires Seated(ps)
    ensures var sorted := BySeat(Without(ps, actor));
            SeatOrdered(sorted) && |sorted| == |Without(ps, actor)| && forall q :: q in sorted ==> q in ps
  {
    WithoutKeeps(ps, actor);
    BySeatOrders(Without(ps, actor));
  }

  /** Only the first of the sorted roster bears the successor's id. */
  lemma {:induction false} SuccessorFirst(ps: seq<Player>, sorted: seq<Player>, k: nat)
    requires Seated(ps) && SeatOrdered(sorted) && k < |sorted|
    requires forall q :: q in sorted ==> q in ps
    ensures sorted[k].id == sorted[0].id <==> k == 0
  {
    assert sorted[k] in ps && sorted[0] in ps;
  }

  lemma {:induction false} FirstIsLeast(active: seq<Player>, ps: seq<Player>)
    requires ListsActive(active, ps) && active != []
    ensures ActiveSeats(ps) != {} && Least(ActiveSeats(ps)) == active[0].seat
  {
    SeatsListed(active, ps);
    assert IsLeast(active[0].seat, ActiveSeats(ps));
  }

  lemma {:induction false} AllListed(active: seq<Player>, ps: seq<Player>)
    requires ListsActive(active, ps) && forall j :: 0 <= j < |active| ==> active[j].ready
    ensures forall i :: 0 <= i < |ps| && IsActive(ps[i]) ==> ps[i].ready
  {
    forall i | 0 <= i < |ps| && IsActive(ps[i]) ensures ps[i].ready {
      assert ps[i] in active;
    }
  }
}
