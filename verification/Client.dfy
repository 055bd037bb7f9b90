/** The client's reducer (game-store.ts): a second implementation of the economy, driven only by events. */
module Client {
  import opened Domain
  import opened Seats

  function Max(a: int, b: int): int { if a >= b then a else b }

  /** Balances change for whoever carries the id, and never show below zero. */
  function Adjust(ps: seq<Player>, id: PlayerId, delta: int): (r: seq<Player>)
    ensures |r| == |ps|
    ensures forall i :: 0 <= i < |ps| ==>
              r[i] == if ps[i].id == id then ps[i].(money := Max(0, ps[i].money + delta)) else ps[i]
  {
    seq(|ps|, i requires 0 <= i < |ps| => if ps[i].id == id then ps[i].(money := Max(0, ps[i].money + delta)) else ps[i])
  }

  function Move(ps: seq<Player>, id: PlayerId, pos: int): (r: seq<Player>)
    ensures |r| == |ps|
    ensures forall i :: 0 <= i < |ps| ==> r[i] == if ps[i].id == id then ps[i].(position := pos) else ps[i]
  {
    seq(|ps|, i requires 0 <= i < |ps| => if ps[i].id == id then ps[i].(position := pos) else ps[i])
  }

  function MarkOut(ps: seq<Player>, id: PlayerId): (r: seq<Player>)
    ensures |r| == |ps|
    ensures forall i :: 0 <= i < |ps| ==> r[i] == if ps[i].id == id then ps[i].(status := Eliminated) else ps[i]
  {
    seq(|ps|, i requires 0 <= i < |ps| => if ps[i].id == id then ps[i].(status := Eliminated) else ps[i])
  }

  function MarkReady(ps: seq<Player>, id: PlayerId, ready: bool): (r: seq<Player>)
    ensures |r| == |ps|
    ensures forall i :: 0 <= i < |ps| ==> r[i] == if ps[i].id == id then ps[i].(ready := ready) else ps[i]
  {
    seq(|ps|, i requires 0 <= i < |ps| => if ps[i].id == id then ps[i].(ready := ready) else ps[i])
  }

  /** An empty list is omitted on the wire. */
  function OmitEmpty(released: seq<string>): Option<seq<string>> {
    if released == [] then None else Some(released)
  }

  /** The named spaces revert to the bank; without names, whatever the player is shown to own. */
  predicate Reverts(released: Option<seq<string>>, id: PlayerId, sp: Space) {
    match released
    case Some(names) => sp.def.id in names
    case None => sp.owner == id
  }

  function Revert(spaces: seq<Space>, id: PlayerId, released: Option<seq<string>>): (r: seq<Space>)
    ensures |r| == |spaces|
    ensures forall k :: 0 <= k < |spaces| ==>
              r[k] == if Reverts(released, id, spaces[k]) then spaces[k].(owned := false, owner := NoPlayer) else spaces[k]
  {
    seq(|spaces|, k requires 0 <= k < |spaces| =>
      if Reverts(released, id, spaces[k]) then spaces[k].(owned := false, owner := NoPlayer) else spaces[k])
  }

  /** First space with this id, or -1. */
  function FindSpace(spaces: seq<Space>, id: string): (k: int)
    ensures -1 <= k < |spaces|
    ensures k >= 0 ==> spaces[k].def.id == id && forall j :: 0 <= j < k ==> spaces[j].def.id != id
    ensures k == -1 ==> forall j :: 0 <= j < |spaces| ==> spaces[j].def.id != id
  {
    if spaces == [] then -1
    else if spaces[0].def.id == id then 0
    else
      var k := FindSpace(spaces[1..], id);
      if k == -1 then -1 else k + 1
  }

  /** What one event does to the view. A view shows the same fields as the state it follows. */
  function Reduce(v: State, f: Fact): State {
    match f
    case PlayerJoined(id, name, seat, money) =>
      if Has(v.players, id) then v
      else v.(players := v.players + [Player(id, name, seat, money, Active, false, false, 0)])
    case ReadyChanged(id, ready) => v.(players := MarkReady(v.players, id, ready))
    case PlayerLeft(id) => v.(players := MarkOut(v.players, id))
    case PlayerEliminated(id, _) => v.(players := MarkOut(v.players, id))
    case PlayerBankrupt(id, _, _, _, released) =>
      v.(players := MarkOut(v.players, id), spaces := Revert(v.spaces, id, OmitEmpty(released)))
    case GameStarted => v.(phase := Playing)
    case DiceRolled(id, _, _, _, to, _) =>
      var k := FindSpace(v.spaces, to);
      var i := IndexOf(v.players, id);
      v.(players := Move(v.players, id, if k >= 0 then k else if i < |v.players| then v.players[i].position else 0))
    case PropertyBought(id, space, price) =>
      var k := FindSpace(v.spaces, space);
      v.(players := Adjust(v.players, id, -price),
         spaces := if k >= 0 then v.spaces[k := v.spaces[k].(owned := true, owner := id)] else v.spaces)
    case BuyDeclined(_, _) => v
    case RentPaid(payer, payee, _, amount) =>
      v.(players := Adjust(Adjust(v.players, payer, -amount), payee, amount))
    case BankTransfer(id, amount, direction, _) =>
      v.(players := Adjust(v.players, id, if direction == ToPlayer then amount else -amount))
    case TurnAdvanced(seat, round) => v.(turn := Turn(seat, AwaitRoll, round, 0, false))
    case GameEnded(winner, reason) => v.(phase := Ended, winner := winner, endReason := reason)
  }

  function ReduceAll(v: State, facts: seq<Fact>): State {
    if facts == [] then v else Reduce(ReduceAll(v, facts[..|facts| - 1]), facts[|facts| - 1])
  }
}
