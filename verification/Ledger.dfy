/** The event log explains the economy: folding it rebuilds every balance and every deed. */
module Ledger {
  import opened Config
  import opened Domain
  import opened Seats
  import opened Rules
  import opened Roster
  import opened Invariant
  import opened Runs
  import opened Client
  import opened Simulation

  /** Balances by player, owners by space, and whether the match has started. */
  datatype Books = Books(balances: map<PlayerId, int>, owners: map<string, PlayerId>, started: bool)

  const EMPTY_BOOKS := Books(map[], map[], false)

  function Credit(balances: map<PlayerId, int>, id: PlayerId, amount: int): map<PlayerId, int> {
    if id in balances then balances[id := balances[id] + amount] else balances
  }

  /** One event, posted. */
  function Post(b: Books, f: Fact): Books {
    match f
    case PlayerJoined(id, _, _, money) => b.(balances := b.balances[id := money])
    case PlayerLeft(id) => if b.started then b else b.(balances := b.balances - {id})
    case GameStarted => b.(started := true)
    case PropertyBought(id, space, price) =>
      b.(balances := Credit(b.balances, id, -price), owners := b.owners[space := id])
    case RentPaid(payer, payee, _, amount) =>
      b.(balances := Credit(Credit(b.balances, payer, -amount), payee, amount))
    case BankTransfer(id, amount, direction, _) =>
      b.(balances := Credit(b.balances, id, if direction == ToPlayer then amount else -amount))
    case PlayerBankrupt(_, _, _, _, released) => b.(owners := b.owners - set name | name in released)
    case ReadyChanged(_, _) => b
    case PlayerEliminated(_, _) => b
    case GameEnded(_, _) => b
    case DiceRolled(_, _, _, _, _, _) => b
    case BuyDeclined(_, _) => b
    case TurnAdvanced(_, _) => b
  }

  function PostAll(b: Books, facts: seq<Fact>): Books {
    if facts == [] then b else Post(PostAll(b, facts[..|facts| - 1]), facts[|facts| - 1])
  }

  lemma {:induction false} PostConcat(b: Books, x: seq<Fact>, y: seq<Fact>)
    ensures PostAll(b, x + y) == PostAll(PostAll(b, x), y)
  {
    if y == [] {
      assert x + y == x;
    } else {
      assert (x + y)[..|x + y| - 1] == x + y[..|y| - 1];
      PostConcat(b, x, y[..|y| - 1]);
    }
  }

  // ---- the books a state calls for -------------------------------------------

  function Ids(ps: seq<Player>): set<PlayerId> { set i | 0 <= i < |ps| :: ps[i].id }

  function Balances(ps: seq<Player>): (m: map<PlayerId, int>)
    ensures forall id :: id in m <==> id in Ids(ps)
  {
    map id | id in Ids(ps) :: ps[IndexOfMember(ps, id)].money
  }

  function IndexOfMember(ps: seq<Player>, id: PlayerId): (i: nat)
    requires id in Ids(ps)
    ensures i < |ps| && ps[i].id == id
  {
    IndexOf(ps, id)
  }

  function Titles(spaces: seq<Space>): set<string> { set k | 0 <= k < |spaces| && spaces[k].owned :: spaces[k].def.id }

  function Owners(spaces: seq<Space>): (m: map<string, PlayerId>)
    ensures forall name :: name in m <==> name in Titles(spaces)
  {
    map name | name in Titles(spaces) :: spaces[TitleIndex(spaces, name)].owner
  }

  function TitleIndex(spaces: seq<Space>, name: string): (k: nat)
    requires name in Titles(spaces)
    ensures k < |spaces| && spaces[k].def.id == name
  {
    FindSpace(spaces, name)
  }

  function BooksOf(s: State): Books { Books(Balances(s.players), Owners(s.spaces), s.phase != Lobby) }

  lemma {:induction false} BalanceOf(ps: seq<Player>, i: nat)
    requires Seated(ps) && i < |ps|
    ensures ps[i].id in Balances(ps) && Balances(ps)[ps[i].id] == ps[i].money
  {
    IndexUnique(ps, i);
  }

  lemma {:induction false} BalancesAre(ps: seq<Player>, m: map<PlayerId, int>)
    requires Seated(ps)
    requires forall id :: id in m <==> id in Ids(ps)
    requires forall i :: 0 <= i < |ps| ==> ps[i].id in m && m[ps[i].id] == ps[i].money
    ensures Balances(ps) == m
  {
    forall id | id in Balances(ps) ensures Balances(ps)[id] == m[id] {
      var i :| 0 <= i < |ps| && ps[i].id == id;
      BalanceOf(ps, i);
    }
  }

  lemma {:induction false} OwnerOf(spaces: seq<Space>, k: nat)
    requires UniqueSpaces(spaces) && k < |spaces|
    ensures spaces[k].owned <==> spaces[k].def.id in Titles(spaces)
    ensures spaces[k].owned ==> Owners(spaces)[spaces[k].def.id] == spaces[k].owner
  {
    FindUnique(spaces, k);
    if spaces[k].def.id in Titles(spaces) {
      var j :| 0 <= j < |spaces| && spaces[j].owned && spaces[j].def.id == spaces[k].def.id;
      assert j == k;
    }
  }

  lemma {:induction false} OwnersAre(spaces: seq<Space>, m: map<string, PlayerId>)
    requires UniqueSpaces(spaces)
    requires forall name :: name in m ==> exists k :: 0 <= k < |spaces| && spaces[k].def.id == name
    requires forall k :: 0 <= k < |spaces| ==> (spaces[k].owned <==> spaces[k].def.id in m)
    requires forall k :: 0 <= k < |spaces| && spaces[k].owned ==> m[spaces[k].def.id] == spaces[k].owner
    ensures Owners(spaces) == m
  {
    forall name ensures name in Owners(spaces) <==> name in m {
      if name in m {
        var k :| 0 <= k < |spaces| && spaces[k].def.id == name;
        OwnerOf(spaces, k);
      }
    }
    forall name | name in m ensures Owners(spaces)[name] == m[name] {
      var k :| 0 <= k < |spaces| && spaces[k].def.id == name;
      OwnerOf(spaces, k);
    }
  }

  // ---- posting follows the view ----------------------------------------------

  lemma {:induction false} SameIds(ps: seq<Player>, qs: seq<Player>)
    requires SameSeats(ps, qs)
    ensures Ids(ps) == Ids(qs)
  {
    forall id | id in Ids(ps) ensures id in Ids(qs) {
      var i :| 0 <= i < |ps| && ps[i].id == id;
      assert qs[i].id == id;
    }
    forall id | id in Ids(qs) ensures id in Ids(ps) {
      var i :| 0 <= i < |qs| && qs[i].id == id;
      assert ps[i].id == id;
    }
  }

  lemma {:induction false} CreditFollows(ps: seq<Player>, id: PlayerId, delta: int)
    requires Seated(ps) && Covers(ps, id, delta)
    ensures Balances(Adjust(ps, id, delta)) == Credit(Balances(ps), id, delta)
    ensures SameSeats(ps, Adjust(ps, id, delta)) && Seated(Adjust(ps, id, delta))
  {
    hide Balances, Ids, IndexOf;
    var qs := Adjust(ps, id, delta);
    SameIds(ps, qs);
    forall i | 0 <= i < |qs|
      ensures var m := Credit(Balances(ps), id, delta); qs[i].id in m && m[qs[i].id] == qs[i].money
    {
      BalanceOf(ps, i);
    }
    BalancesAre(qs, Credit(Balances(ps), id, delta));
  }

  lemma {:induction false} SameMoney(ps: seq<Player>, qs: seq<Player>)
    requires Seated(ps) && SameSeats(ps, qs) && forall i :: 0 <= i < |ps| ==> qs[i].money == ps[i].money
    ensures Balances(qs) == Balances(ps) && Seated(qs)
  {
    SameIds(ps, qs);
    forall i | 0 <= i < |qs| ensures qs[i].id in Balances(ps) && Balances(ps)[qs[i].id] == qs[i].money {
      BalanceOf(ps, i);
    }
    BalancesAre(qs, Balances(ps));
  }

  ghost predicate SameDefs(a: seq<Space>, b: seq<Space>) {
    |a| == |b| && forall k :: 0 <= k < |a| ==> b[k].def == a[k].def
  }

  lemma {:induction false} BoughtFollows(spaces: seq<Space>, at: nat, id: PlayerId)
    requires UniqueSpaces(spaces) && at < |spaces|
    ensures Owners(spaces[at := spaces[at].(owned := true, owner := id)]) == Owners(spaces)[spaces[at].def.id := id]
  {
    var next := spaces[at := spaces[at].(owned := true, owner := id)];
    var m := Owners(spaces)[spaces[at].def.id := id];
    assert UniqueSpaces(next);
    forall name | name in m ensures exists k :: 0 <= k < |next| && next[k].def.id == name {
      if name in Titles(spaces) {
        var k :| 0 <= k < |spaces| && spaces[k].owned && spaces[k].def.id == name;
        assert next[k].def.id == name;
      } else {
        assert next[at].def.id == name;
      }
    }
    forall k | 0 <= k < |next|
      ensures next[k].owned <==> next[k].def.id in m
      ensures next[k].owned ==> m[next[k].def.id] == next[k].owner
    {
      OwnerOf(spaces, k);
      if k != at { assert spaces[k].def.id != spaces[at].def.id; }
    }
    OwnersAre(next, m);
  }

  lemma {:induction false} RevertedFollows(spaces: seq<Space>, id: PlayerId, released: seq<string>)
    requires UniqueSpaces(spaces)
    requires released == [] ==> forall k :: 0 <= k < |spaces| ==> spaces[k].owner != id
    ensures Owners(Revert(spaces, id, OmitEmpty(released))) == Owners(spaces) - set name | name in released
  {
    var next := Revert(spaces, id, OmitEmpty(released));
    var m := Owners(spaces) - set name | name in released;
    assert UniqueSpaces(next);
    forall name | name in m ensures exists k :: 0 <= k < |next| && next[k].def.id == name {
      var k :| 0 <= k < |spaces| && spaces[k].owned && spaces[k].def.id == name;
      assert next[k].def.id == name;
    }
    forall k | 0 <= k < |next|
      ensures next[k].owned <==> next[k].def.id in m
      ensures next[k].owned ==> m[next[k].def.id] == next[k].owner
    {
      OwnerOf(spaces, k);
    }
    OwnersAre(next, m);
  }

  lemma {:induction false} StatusPosts(ps: seq<Player>, id: PlayerId, ready: bool, pos: int)
    requires Seated(ps)
    ensures Balances(MarkReady(ps, id, ready)) == Balances(ps) && Seated(MarkReady(ps, id, ready))
    ensures Balances(MarkOut(ps, id)) == Balances(ps) && Seated(MarkOut(ps, id))
    ensures Balances(Move(ps, id, pos)) == Balances(ps) && Seated(Move(ps, id, pos))
  {
    hide Balances;
    SameMoney(ps, MarkReady(ps, id, ready));
    SameMoney(ps, MarkOut(ps, id));
    SameMoney(ps, Move(ps, id, pos));
  }

  lemma DefsKeptUnique(a: seq<Space>, b: seq<Space>)
    requires UniqueSpaces(a) && SameDefs(a, b)
    ensures UniqueSpaces(b)
  {
  }

  /** Posting an event to the books of a view gives the books of the reduced view. */
  lemma {:induction false} PostFollows(v: State, f: Fact)
    requires v.phase != Lobby && Seated(v.players) && UniqueSpaces(v.spaces) && Exact(v, f)
    ensures BooksOf(Reduce(v, f)) == Post(BooksOf(v), f)
    ensures Reduce(v, f).phase != Lobby && Seated(Reduce(v, f).players) && UniqueSpaces(Reduce(v, f).spaces)
  {
    hide Balances, Owners, Credit, Seated, UniqueSpaces, FindSpace, IndexOf, Covers;
    match f {
      case ReadyChanged(id, ready) => StatusPosts(v.players, id, ready, 0);
      case PlayerLeft(id) => StatusPosts(v.players, id, false, 0);
      case PlayerEliminated(id, _) => StatusPosts(v.players, id, false, 0);
      case PlayerBankrupt(id, _, _, _, released) =>
        StatusPosts(v.players, id, false, 0);
        RevertedFollows(v.spaces, id, released);
        DefsKeptUnique(v.spaces, Revert(v.spaces, id, OmitEmpty(released)));
      case DiceRolled(id, _, _, _, to, _) => StatusPosts(v.players, id, false, FindSpace(v.spaces, to));
      case PropertyBought(id, space, price) =>
        CreditFollows(v.players, id, -price);
        BoughtFollows(v.spaces, FindSpace(v.spaces, space), id);
        DefsKeptUnique(v.spaces, Reduce(v, f).spaces);
      case RentPaid(payer, payee, _, amount) =>
        CreditFollows(v.players, payer, -amount);
        CreditFollows(Adjust(v.players, payer, -amount), payee, amount);
      case BankTransfer(id, amount, direction, _) =>
        CreditFollows(v.players, id, if direction == ToPlayer then amount else -amount);
      case _ =>
    }
  }

  lemma {:induction false} PostAllFollows(v: State, facts: seq<Fact>)
    requires v.phase != Lobby && Seated(v.players) && UniqueSpaces(v.spaces) && AllExact(v, facts)
    ensures BooksOf(ReduceAll(v, facts)) == PostAll(BooksOf(v), facts)
    ensures ReduceAll(v, facts).phase != Lobby
    ensures Seated(ReduceAll(v, facts).players) && UniqueSpaces(ReduceAll(v, facts).spaces)
  {
    if facts == [] {
    } else {
      PostAllFollows(v, facts[..|facts| - 1]);
      hide BooksOf, Reduce, Post, Exact;
      PostFollows(ReduceAll(v, facts[..|facts| - 1]), facts[|facts| - 1]);
    }
  }

  // ---- the lobby -------------------------------------------------------------

  lemma {:induction false} JoinPosts(ps: seq<Player>, p: Player)
    requires Seated(ps + [p])
    ensures Balances(ps + [p]) == Balances(ps)[p.id := p.money]
  {
    var qs := ps + [p];
    assert Seated(ps) by {
      forall i, j | 0 <= i < j < |ps| ensures ps[i].seat != ps[j].seat { assert qs[i] == ps[i] && qs[j] == ps[j]; }
      forall i | 0 <= i < |ps| ensures ps[i].id == Pl(ps[i].seat) { assert qs[i] == ps[i]; }
    }
    var m := Balances(ps)[p.id := p.money];
    forall id ensures id in m <==> id in Ids(qs) {
      if id in Ids(ps) {
        var i :| 0 <= i < |ps| && ps[i].id == id;
        assert qs[i].id == id;
      }
      if id == p.id { assert qs[|ps|].id == id; }
    }
    forall i | 0 <= i < |qs| ensures qs[i].id in m && m[qs[i].id] == qs[i].money {
      if i < |ps| {
        assert qs[i] == ps[i] && qs[|ps|] == p;
        BalanceOf(ps, i);
      }
    }
    BalancesAre(qs, m);
  }

  /** q is one of these players, under the same id and with the same balance, and is not the leaver. */
  ghost predicate Stayer(ps: seq<Player>, gone: PlayerId, q: Player) {
    exists k :: 0 <= k < |ps| && ps[k].id != gone && ps[k].id == q.id && ps[k].money == q.money
  }

  /** Whoever stays keeps their balance, in whatever order they now sit and whoever is host. */
  lemma {:induction false} StayersPost(ps: seq<Player>, gone: PlayerId, qs: seq<Player>)
    requires Seated(ps) && Seated(qs)
    requires forall i :: 0 <= i < |qs| ==> Stayer(ps, gone, qs[i])
    requires forall k :: 0 <= k < |ps| && ps[k].id != gone ==> ps[k].id in Ids(qs)
    ensures Balances(qs) == Balances(ps) - {gone}
  {
    var m := Balances(ps) - {gone};
    forall i | 0 <= i < |qs| ensures qs[i].id in m && m[qs[i].id] == qs[i].money {
      assert Stayer(ps, gone, qs[i]);
      var k :| 0 <= k < |ps| && ps[k].id != gone && ps[k].id == qs[i].id && ps[k].money == qs[i].money;
      BalanceOf(ps, k);
    }
    forall other ensures other in m <==> other in Ids(qs) {
      if other in m {
        var k :| 0 <= k < |ps| && ps[k].id == other;
      }
      if other in Ids(qs) {
        var i :| 0 <= i < |qs| && qs[i].id == other;
      }
    }
    hide Balances, Ids, Stayer;
    BalancesAre(qs, m);
  }

  lemma {:induction false} StayersStay(ps: seq<Player>, gone: PlayerId, kept: seq<Player>, qs: seq<Player>)
    requires forall p :: p in kept <==> p in ps && p.id != gone
    requires |qs| == |kept| && forall i :: 0 <= i < |kept| ==> qs[i].id == kept[i].id && qs[i].money == kept[i].money
    ensures forall i :: 0 <= i < |qs| ==> Stayer(ps, gone, qs[i])
    ensures forall k :: 0 <= k < |ps| && ps[k].id != gone ==> ps[k].id in Ids(qs)
  {
    forall i | 0 <= i < |qs| ensures Stayer(ps, gone, qs[i]) {
      assert kept[i] in kept;
      var k :| 0 <= k < |ps| && ps[k] == kept[i];
    }
    forall k | 0 <= k < |ps| && ps[k].id != gone ensures ps[k].id in Ids(qs) {
      assert ps[k] in ps;
      assert ps[k] in kept;
      var i :| 0 <= i < |kept| && kept[i] == ps[k];
      assert qs[i].id == ps[k].id;
    }
  }

  lemma {:induction false} LeaveLobbyPosts(cfg: ValidConfig, s: State, actor: PlayerId)
    requires Inv(cfg, s) && s.phase == Lobby && Has(s.players, actor)
    ensures Balances(LeaveLobby(s, actor).players) == Balances(s.players) - {actor}
  {
    hide Inv, Seated, Balances, Without, BySeat, DistinctSeats, SeatOrdered, IndexOf;
    LeaveLobbyInv(cfg, s, actor);
    var qs := LeaveLobby(s, actor).players;
    LobbyRoster(cfg, s);
    LobbyRoster(cfg, LeaveLobby(s, actor));
    var remaining := Without(s.players, actor);
    SeatsDiffer(s.players);
    WithoutKeeps(s.players, actor);
    BySeatOrders(remaining);
    var kept := if s.players[IndexOf(s.players, actor)].isHost && remaining != [] then BySeat(remaining) else remaining;
    StayersStay(s.players, actor, kept, qs);
    StayersPost(s.players, actor, qs);
  }

  lemma SeatsDiffer(ps: seq<Player>)
    requires Seated(ps)
    ensures DistinctSeats(ps)
  {
  }

  lemma {:induction false} NoTitles(spaces: seq<Space>)
    requires forall k :: 0 <= k < |spaces| ==> !spaces[k].owned
    ensures Owners(spaces) == map[]
  {
    assert Titles(spaces) == {};
  }

  lemma {:induction false} PostsOne(b: Books, f: Fact)
    ensures PostAll(b, [f]) == Post(b, f)
  {
    assert [f][..0] == [];
  }

  lemma {:induction false} JoinLobbyPosts(cfg: ValidConfig, s: State, name: string)
    requires Inv(cfg, s) && DoJoin(cfg, s, name).Ok?
    ensures var t := DoJoin(cfg, s, name).value; BooksOf(t.next) == PostAll(BooksOf(s), t.facts)
  {
    var t := DoJoin(cfg, s, name).value;
    PostsOne(BooksOf(s), t.facts[0]);
    JoinInv(cfg, s, name);
    JoinPosts(s.players, t.next.players[|s.players|]);
  }

  lemma {:induction false} ReadyPosts(s: State, actor: PlayerId, ready: bool)
    requires Seated(s.players) && DoReady(s, actor, ready).Ok?
    ensures var t := DoReady(s, actor, ready).value; BooksOf(t.next) == PostAll(BooksOf(s), t.facts)
  {
    var t := DoReady(s, actor, ready).value;
    PostsOne(BooksOf(s), t.facts[0]);
    SameMoney(s.players, t.next.players);
  }

  lemma {:induction false} StartPosts(cfg: ValidConfig, s: State, actor: PlayerId)
    requires Inv(cfg, s) && DoStart(cfg, s, actor).Ok?
    ensures var t := DoStart(cfg, s, actor).value; BooksOf(t.next) == PostAll(BooksOf(s), t.facts)
  {
    var t := DoStart(cfg, s, actor).value;
    PostsOne(BooksOf(s), t.facts[0]);
    NoTitles(s.spaces);
    NoTitles(t.next.spaces);
  }

  lemma NoBoardInLobby(cfg: ValidConfig, s: State, actor: PlayerId, dice: Dice)
    requires s.phase == Lobby
    ensures DoRoll(cfg, s, actor, dice).Err? && DoBuy(cfg, s, actor).Err?
    ensures DoDecline(cfg, s, actor).Err? && DoEndTurn(cfg, s, actor).Err?
  {
  }

  lemma {:induction false} LobbyPosts(cfg: ValidConfig, s: State, actor: PlayerId, action: Action, dice: Dice)
    requires Inv(cfg, s) && s.phase == Lobby && Handle(cfg, s, actor, action, dice).Ok?
    ensures var t := Handle(cfg, s, actor, action, dice).value;
            BooksOf(t.next) == PostAll(BooksOf(s), t.facts)
  {
    LobbyRoster(cfg, s);
    NoBoardInLobby(cfg, s, actor, dice);
    hide Inv, Core, Seated, OneHost, LeaveLobby, LeaveMatch, BooksOf, DoRoll, DoBuy, DoDecline, DoEndTurn;
    match action {
      case Join(name) => JoinLobbyPosts(cfg, s, name);
      case Leave =>
        LeaveLobbyPosts(cfg, s, actor);
        PostsOne(BooksOf(s), PlayerLeft(actor));
      case Ready(ready) => ReadyPosts(s, actor, ready);
      case Start => StartPosts(cfg, s, actor);
      case _ =>
    }
  }

  // ---- every run -------------------------------------------------------------

  lemma AgreeBooks(v: State, s: State)
    requires Agrees(v, s)
    ensures BooksOf(v) == BooksOf(s)
  {
  }

  lemma {:induction false} StepPosts(cfg: ValidConfig, s: State, input: Input)
    requires Inv(cfg, s)
    ensures BooksOf(Step(cfg, s, input).next) == PostAll(BooksOf(s), Step(cfg, s, input).facts)
  {
    if Apply(cfg, s, input.actor, input.action, input.dice).Ok? {
      var t := Apply(cfg, s, input.actor, input.action, input.dice).value;
      if s.phase == Lobby {
        LobbyPosts(cfg, s, input.actor, input.action, input.dice);
        hide Inv, Handle, Balances, Owners;
      } else if s.phase == Playing {
        SpacesUnique(cfg, s);
        assert Seated(s.players);
        hide Inv, BooksOf, PostAll;
        ClientFollows(cfg, s, s, input.actor, input.action, input.dice);
        hide Apply;
        PostAllFollows(s, t.facts);
        AgreeBooks(ReduceAll(s, t.facts), t.next);
      } else {
        hide Inv;
        EndedIsFinal(cfg, s, input);
      }
    }
  }

  /**
   Folding the whole log of any run, from empty books, gives exactly the balance of every seated player
   and the owner of every owned space: chips and deeds move only through logged events.
   */
  lemma {:induction false} LogExplainsEconomy(cfg: ValidConfig, s: State, inputs: seq<Input>)
    requires Initial(cfg, s)
    ensures PostAll(EMPTY_BOOKS, Log(cfg, s, inputs)) == BooksOf(After(cfg, s, inputs))
  {
    InitialInv(cfg, s);
    if inputs == [] {
      NoTitles(s.spaces);
      assert Balances([]) == map[];
    } else {
      var front, last := inputs[..|inputs| - 1], inputs[|inputs| - 1];
      LogExplainsEconomy(cfg, s, front);
      RunInv(cfg, s, front);
      hide Inv, Initial, BooksOf, Step;
      StepPosts(cfg, After(cfg, s, front), last);
      PostConcat(EMPTY_BOOKS, Log(cfg, s, front), Step(cfg, After(cfg, s, front), last).facts);
    }
  }
}
