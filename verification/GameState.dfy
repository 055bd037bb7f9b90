/** The match state as the server holds it: players and spaces in arrays, written in place (state.go, board.go). */
module States {
  import opened Domain
  import opened Seats
  import opened Rules
  import opened Roster

  class GameState {
    var phase: Phase
    var tick: nat
    var players: array<Player>
    var spaces: array<Space>
    var turn: Turn
    var winner: Option<PlayerId>
    var endReason: EndReason

    /** The state as a plain value, which is also how it is stored. */
    function Value(): State
      reads this, players, spaces
    {
      State(phase, tick, players[..], spaces[..], turn, winner, endReason)
    }

    /** Everything that can be written through a state. */
    ghost function Storage(): set<object>
      reads this
    {
      {this, players, spaces}
    }

    /** The pristine pre-match state. */
    constructor (board: seq<Space>)
      ensures Value() == NewState(board)
      ensures fresh(players) && fresh(spaces)
    {
      phase, tick, turn := Lobby, 0, Turn(0, NoTurn, 0, 0, false);
      winner, endReason := None, NoReason;
      var ps := new Player[0];
      var bs := new Space[|board|](k requires 0 <= k < |board| => board[k]);
      players, spaces := ps, bs;
      new;
      assert spaces[..] == board;
    }

    /** A state read back from its stored value. */
    constructor FromValue(s: State)
      ensures Value() == s
      ensures fresh(players) && fresh(spaces)
    {
      phase, tick, turn, winner, endReason := s.phase, s.tick, s.turn, s.winner, s.endReason;
      players := new Player[|s.players|](k requires 0 <= k < |s.players| => s.players[k]);
      spaces := new Space[|s.spaces|](k requires 0 <= k < |s.spaces| => s.spaces[k]);
      new;
      assert players[..] == s.players && spaces[..] == s.spaces;
    }

    /** A deep copy: nothing that can be written is shared with the original. */
    method Clone() returns (out: GameState)
      ensures fresh(out.Storage())
      ensures out.Value() == Value()
    {
      out := new GameState([]);
      out.phase, out.tick, out.turn, out.winner, out.endReason := phase, tick, turn, winner, endReason;
      var ps, bs := players, spaces;
      out.players := new Player[ps.Length](i requires 0 <= i < ps.Length reads ps => ps[i]);
      out.spaces := new Space[bs.Length](k requires 0 <= k < bs.Length reads bs => bs[k]);
      assert out.players[..] == players[..];
      assert out.spaces[..] == spaces[..];
    }

    /** Replaces the roster by a new one, in storage of its own. */
    method SetPlayers(ps: seq<Player>)
      modifies this`players
      ensures fresh(players) && players[..] == ps
    {
      players := new Player[|ps|](i requires 0 <= i < |ps| => ps[i]);
    }

    method PlayerIndex(id: PlayerId) returns (i: nat)
      ensures i == IndexOf(players[..], id)
    {
      i := 0;
      while i < players.Length && players[i].id != id
        invariant i <= players.Length
        invariant forall k :: 0 <= k < i ==> players[k].id != id
      {
        i := i + 1;
      }
    }

    method Host() returns (h: nat)
      ensures h == HostIndex(players[..])
    {
      h := 0;
      while h < players.Length && !players[h].isHost
        invariant h <= players.Length
        invariant forall k :: 0 <= k < h ==> !players[k].isHost
      {
        h := h + 1;
      }
    }

    /** The active players in seat order. */
    method ActivePlayers() returns (out: seq<Player>)
      ensures multiset(out) == multiset(Actives(players[..]))
      ensures ListsActive(out, players[..])
      ensures DistinctSeats(players[..]) ==> ActiveInOrder(out, players[..])
    {
      var found: seq<Player> := [];
      for i := 0 to players.Length
        invariant found == Actives(players[..i])
      {
        assert players[..i + 1][..i] == players[..i];
        if IsActive(players[i]) { found := found + [players[i]]; }
      }
      assert players[..players.Length] == players[..];
      out := SortBySeat(found);
      SortedActives(players[..], out);
    }

    method ActivePlayerCount() returns (n: nat)
      ensures n == |Actives(players[..])|
    {
      n := 0;
      for i := 0 to players.Length
        invariant n == |Actives(players[..i])|
      {
        assert players[..i + 1][..i] == players[..i];
        if IsActive(players[i]) { n := n + 1; }
      }
      assert players[..players.Length] == players[..];
    }

    /** The lowest unused seat. */
    method NextSeat() returns (seat: nat)
      ensures seat == FreeSeat(players[..])
    {
      var used: set<nat> := {};
      for i := 0 to players.Length
        invariant forall s :: s in used <==> Used(players[..i], s)
      {
        UsedGrows(players[..], i);
        assert players[..][..i] == players[..i] && players[..][..i + 1] == players[..i + 1];
        used := used + {players[i].seat};
      }
      assert players[..players.Length] == players[..];
      seat := 0;
      while seat in used
        invariant forall s: nat :: s < seat ==> s in used
        decreases |players[..]| - seat
      {
        UsedPrefix(players[..], seat);
        seat := seat + 1;
      }
      FreeSeatUnique(players[..], seat);
    }

    method PropertiesOf(id: PlayerId) returns (out: seq<Space>)
      ensures out == Properties(spaces[..], id)
    {
      out := [];
      for k := 0 to spaces.Length
        invariant out == Properties(spaces[..k], id)
      {
        assert spaces[..k + 1][..k] == spaces[..k];
        if spaces[k].owned && spaces[k].owner == id { out := out + [spaces[k]]; }
      }
      assert spaces[..spaces.Length] == spaces[..];
    }

    /** Money plus the purchase price of every holding. */
    method NetWorth(id: PlayerId) returns (total: int)
      ensures total == if Has(players[..], id) then Worth(Value(), IndexOf(players[..], id)) else 0
    {
      var i := PlayerIndex(id);
      if i == players.Length { return 0; }
      total := players[i].money;
      var held := PropertiesOf(id);
      for k := 0 to |held|
        invariant total == players[i].money + Prices(held[..k])
      {
        assert held[..k + 1][..k] == held[..k];
        total := total + held[k].def.price;
      }
      assert held[..|held|] == held;
      PricesAreHoldings(spaces[..], id);
    }

    /** The active player of highest net worth, ties to the lowest seat. */
    method RichestActive() returns (best: Option<Player>)
      requires Seated(players[..])
      ensures ActiveSeats(players[..]) == {} ==> best == None
      ensures ActiveSeats(players[..]) != {} ==> best == Some(players[..][Richest(Value())])
    {
      var active := ActivePlayers();
      ActiveListed(active, players[..]);
      best := None;
      var bestWorth := 0;
      ghost var at := 0;
      for k := 0 to |active|
        invariant best == None <==> k == 0
        invariant best.Some? ==> 0 <= at < k && best.value == active[at] && bestWorth == WorthOf(Value(), active[at])
        invariant best.Some? ==> forall j :: 0 <= j < k ==> Outranks(Value(), active[at], active[j])
      {
        var w := NetWorth(active[k].id);
        ActiveMember(active, players[..], k);
        if best == None || w > bestWorth {
          best, bestWorth, at := Some(active[k]), w, k;
        }
      }
      if best.Some? {
        OutranksAll(Value(), active, at);
      }
    }
  }

  // ---- facts about the loops -------------------------------------------------

  /** out lists the active players, by rising seat. */
  ghost predicate ListsActive(out: seq<Player>, ps: seq<Player>) {
    SeatSorted(out) && forall p :: p in out <==> p in ps && IsActive(p)
  }

  /** The same, no two of them on one seat. */
  ghost predicate ActiveInOrder(out: seq<Player>, ps: seq<Player>) {
    SeatOrdered(out) && forall p :: p in out <==> p in ps && IsActive(p)
  }

  /** The library sort, by seat. */
  method SortBySeat(ps: seq<Player>) returns (r: seq<Player>)
    ensures r == BySeat(ps)
  {
    r := [];
    for i := 0 to |ps|
      invariant r == BySeat(ps[..i])
    {
      assert ps[..i + 1][..i] == ps[..i];
      r := InsertBySeat(r, ps[i]);
    }
    assert ps[..|ps|] == ps;
  }

  lemma {:induction false} SortedActives(ps: seq<Player>, out: seq<Player>)
    requires out == BySeat(Actives(ps))
    ensures multiset(out) == multiset(Actives(ps)) && ListsActive(out, ps)
    ensures DistinctSeats(ps) ==> ActiveInOrder(out, ps)
  {
    BySeatSorts(Actives(ps));
    forall p ensures p in out <==> p in ps && IsActive(p) {
      assert p in multiset(out) <==> p in multiset(Actives(ps));
      ActivesMembers(ps, p);
    }
    if DistinctSeats(ps) {
      ActivesDistinct(ps);
      DistinctOrdered(Actives(ps), out);
    }
  }

  lemma {:induction false} ActivesDistinct(ps: seq<Player>)
    requires DistinctSeats(ps)
    ensures DistinctSeats(Actives(ps))
  {
    if ps == [] {
    } else {
      var front, last := ps[..|ps| - 1], ps[|ps| - 1];
      ActivesDistinct(front);
      forall i | 0 <= i < |Actives(front)| ensures Actives(front)[i].seat != last.seat {
        ActivesMembers(front, Actives(front)[i]);
        var k :| 0 <= k < |front| && front[k] == Actives(front)[i];
      }
    }
  }

  lemma {:induction false} UsedGrows(ps: seq<Player>, i: nat)
    requires i < |ps|
    ensures forall s: nat :: Used(ps[..i + 1], s) <==> Used(ps[..i], s) || s == ps[i].seat
  {
    forall s: nat ensures Used(ps[..i + 1], s) <==> Used(ps[..i], s) || s == ps[i].seat {
      if Used(ps[..i + 1], s) {
        var k :| 0 <= k < i + 1 && ps[..i + 1][k].seat == s;
        if k < i { assert ps[..i][k].seat == s; }
      }
      if Used(ps[..i], s) {
        var k :| 0 <= k < i && ps[..i][k].seat == s;
        assert ps[..i + 1][k].seat == s;
      }
      assert ps[..i + 1][i] == ps[i];
    }
  }

  lemma {:induction false} UsedPrefix(ps: seq<Player>, seat: nat)
    requires forall s: nat :: s <= seat ==> Used(ps, s)
    ensures seat < |ps|
  {
    PrefixSize(SeatsUsed(ps), seat + 1);
  }

  lemma FreeSeatUnique(ps: seq<Player>, seat: nat)
    requires IsFreeSeat(ps, seat)
    ensures seat == FreeSeat(ps)
  {
  }

  function Prices(spaces: seq<Space>): int {
    if spaces == [] then 0 else Prices(spaces[..|spaces| - 1]) + spaces[|spaces| - 1].def.price
  }

  lemma {:induction false} PricesAreHoldings(spaces: seq<Space>, id: PlayerId)
    ensures Prices(Properties(spaces, id)) == Holdings(spaces, id)
  {
    if spaces == [] {
    } else {
      var front, last := spaces[..|spaces| - 1], spaces[|spaces| - 1];
      PricesAreHoldings(front, id);
      if OwnedBy(last, id) {
        assert (Properties(front, id) + [last])[..|Properties(front, id)|] == Properties(front, id);
      } else {
        assert Properties(spaces, id) == Properties(front, id);
      }
    }
  }

  ghost function WorthOf(s: State, p: Player): int { p.money + Holdings(s.spaces, p.id) }

  ghost predicate Outranks(s: State, p: Player, q: Player) {
    WorthOf(s, p) > WorthOf(s, q) || (WorthOf(s, p) == WorthOf(s, q) && p.seat <= q.seat)
  }

  lemma {:induction false} ActiveListed(out: seq<Player>, ps: seq<Player>)
    requires ListsActive(out, ps)
    ensures out == [] <==> ActiveSeats(ps) == {}
  {
    if out != [] {
      assert out[0] in out;
      var i :| 0 <= i < |ps| && ps[i] == out[0];
      assert ps[i].seat in ActiveSeats(ps);
    }
    if ActiveSeats(ps) != {} {
      var s :| s in ActiveSeats(ps);
      var i :| 0 <= i < |ps| && IsActive(ps[i]) && ps[i].seat == s;
      assert ps[i] in out;
    }
  }

  /** A listed player is found under their own id. */
  lemma {:induction false} ActiveMember(out: seq<Player>, ps: seq<Player>, k: nat)
    requires Seated(ps) && ActiveInOrder(out, ps) && k < |out|
    ensures Has(ps, out[k].id) && ps[IndexOf(ps, out[k].id)] == out[k] && IsActive(out[k])
  {
    assert out[k] in out;
    var i :| 0 <= i < |ps| && ps[i] == out[k];
    IndexUnique(ps, i);
  }

  lemma {:induction false} OutranksAll(s: State, active: seq<Player>, at: nat)
    requires Seated(s.players) && ActiveInOrder(active, s.players) && at < |active|
    requires forall j :: 0 <= j < |active| ==> Outranks(s, active[at], active[j])
    ensures ActiveSeats(s.players) != {} && active[at] == s.players[Richest(s)]
  {
    ActiveListed(active, s.players);
    ActiveMember(active, s.players, at);
    var i := IndexOf(s.players, active[at].id);
    forall j | 0 <= j < |s.players| && IsActive(s.players[j]) ensures Beats(s, i, j) {
      assert s.players[j] in active;
      var k :| 0 <= k < |active| && active[k] == s.players[j];
      assert Outranks(s, active[at], active[k]);
    }
    assert IsRichest(s, i);
    RichestUnique(s, i, Richest(s));
  }
}
