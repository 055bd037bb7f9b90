/** Players by id and by seat: lookup, the set of active seats, and its order. */
module Seats {
  import opened Domain

  /** One player per seat, with the id that seat mints. */
  ghost predicate Seated(ps: seq<Player>) {
    && (forall i :: 0 <= i < |ps| ==> ps[i].id == Pl(ps[i].seat))
    && forall i, j :: 0 <= i < j < |ps| ==> ps[i].seat != ps[j].seat
  }

  /** Index of the first player with this id, or |ps|. */
  function IndexOf(ps: seq<Player>, id: PlayerId): (i: nat)
    ensures i <= |ps|
    ensures i < |ps| ==> ps[i].id == id
    ensures forall k :: 0 <= k < i ==> ps[k].id != id
  {
    if |ps| == 0 then 0
    else if ps[0].id == id then 0
    else 1 + IndexOf(ps[1..], id)
  }

  predicate Has(ps: seq<Player>, id: PlayerId) { IndexOf(ps, id) < |ps| }

  lemma {:induction false} IndexUnique(ps: seq<Player>, i: nat)
    requires Seated(ps) && i < |ps|
    ensures IndexOf(ps, ps[i].id) == i
  {
    assert IndexOf(ps, ps[i].id) <= i;
  }

  predicate IsActive(p: Player) { p.status == Active }

  ghost function ActiveSeats(ps: seq<Player>): set<nat> {
    set i | 0 <= i < |ps| && IsActive(ps[i]) :: ps[i].seat
  }

  /** The active players, in roster order. */
  function Actives(ps: seq<Player>): seq<Player> {
    if ps == [] then []
    else Actives(ps[..|ps| - 1]) + if IsActive(ps[|ps| - 1]) then [ps[|ps| - 1]] else []
  }

  /** No two players share a seat: there are as many active players as active seats. */
  lemma {:induction false} ActivesCounted(ps: seq<Player>)
    requires forall i, j :: 0 <= i < j < |ps| ==> ps[i].seat != ps[j].seat
    ensures |Actives(ps)| == |ActiveSeats(ps)|
  {
    if ps == [] {
    } else {
      var front, last := ps[..|ps| - 1], ps[|ps| - 1];
      ActivesCounted(front);
      assert ps == front + [last];
      ActiveSeatsSnoc(front, last);
      assert last.seat !in ActiveSeats(front);
    }
  }

  lemma {:induction false} ActiveSeatsSnoc(front: seq<Player>, p: Player)
    ensures ActiveSeats(front + [p]) == ActiveSeats(front) + if IsActive(p) then {p.seat} else {}
  {
    var all := front + [p];
    forall s | s in ActiveSeats(front) ensures s in ActiveSeats(all) {
      var k :| 0 <= k < |front| && IsActive(front[k]) && front[k].seat == s;
      assert all[k] == front[k];
    }
    assert all[|front|] == p;
  }

  lemma {:induction false} ActivesMembers(ps: seq<Player>, p: Player)
    ensures p in Actives(ps) <==> p in ps && IsActive(p)
  {
    if ps == [] {
    } else {
      ActivesMembers(ps[..|ps| - 1], p);
      assert ps == ps[..|ps| - 1] + [ps[|ps| - 1]];
    }
  }

  lemma {:induction false} ActivesSit(ps: seq<Player>)
    ensures Actives(ps) == [] <==> ActiveSeats(ps) == {}
  {
    if Actives(ps) != [] {
      ActivesMembers(ps, Actives(ps)[0]);
      var i :| 0 <= i < |ps| && ps[i] == Actives(ps)[0];
      assert ps[i].seat in ActiveSeats(ps);
    }
    if ActiveSeats(ps) != {} {
      var seat :| seat in ActiveSeats(ps);
      var i :| 0 <= i < |ps| && IsActive(ps[i]) && ps[i].seat == seat;
      ActivesMembers(ps, ps[i]);
    }
  }

  /** Same players in the same seats with the same ids; everything else may differ. */
  ghost predicate SameSeats(ps: seq<Player>, qs: seq<Player>) {
    |ps| == |qs| && forall i :: 0 <= i < |ps| ==> qs[i].seat == ps[i].seat && qs[i].id == ps[i].id
  }

  lemma {:induction false} SameActiveSeats(ps: seq<Player>, qs: seq<Player>)
    requires SameSeats(ps, qs)
    requires forall i :: 0 <= i < |ps| ==> IsActive(qs[i]) == IsActive(ps[i])
    ensures ActiveSeats(qs) == ActiveSeats(ps)
  {
    forall s | s in ActiveSeats(ps) ensures s in ActiveSeats(qs) {
      var i :| 0 <= i < |ps| && IsActive(ps[i]) && ps[i].seat == s;
      assert IsActive(qs[i]) && qs[i].seat == s;
    }
    forall s | s in ActiveSeats(qs) ensures s in ActiveSeats(ps) {
      var i :| 0 <= i < |qs| && IsActive(qs[i]) && qs[i].seat == s;
      assert IsActive(ps[i]) && ps[i].seat == s;
    }
  }

  /** An active seat is held by exactly one player. */
  lemma {:induction false} HolderOf(ps: seq<Player>, i: nat)
    requires Seated(ps) && i < |ps|
    ensures IsActive(ps[i]) <==> ps[i].seat in ActiveSeats(ps)
  {
    if ps[i].seat in ActiveSeats(ps) {
      var j :| 0 <= j < |ps| && IsActive(ps[j]) && ps[j].seat == ps[i].seat;
      assert j == i;
    }
  }

  lemma {:induction false} EliminateSeat(ps: seq<Player>, i: nat)
    requires Seated(ps) && i < |ps|
    ensures ActiveSeats(ps[i := ps[i].(status := Eliminated)]) == ActiveSeats(ps) - {ps[i].seat}
  {
    var qs := ps[i := ps[i].(status := Eliminated)];
    forall s | s in ActiveSeats(ps) && s != ps[i].seat ensures s in ActiveSeats(qs) {
      var k :| 0 <= k < |ps| && IsActive(ps[k]) && ps[k].seat == s;
      assert IsActive(qs[k]) && qs[k].seat == s;
    }
    forall s | s in ActiveSeats(qs) ensures s in ActiveSeats(ps) && s != ps[i].seat {
      var k :| 0 <= k < |qs| && IsActive(qs[k]) && qs[k].seat == s;
      assert k != i && IsActive(ps[k]) && ps[k].seat == s;
    }
  }

  ghost predicate IsLeast(m: nat, s: set<nat>) {
    m in s && forall x :: x in s ==> m <= x
  }

  lemma {:induction false} LeastExists(s: set<nat>) returns (m: nat)
    requires s != {}
    ensures IsLeast(m, s)
  {
    m :| m in s;
    assert forall x :: x in s ==> x == m || x in s - {m};
    if s - {m} != {} {
      var k := LeastExists(s - {m});
      if k < m { m := k; }
    }
  }

  ghost function Least(s: set<nat>): (m: nat)
    requires s != {}
    ensures IsLeast(m, s)
  {
    assert exists m: nat :: IsLeast(m, s) by { var m := LeastExists(s); }
    var m: nat :| IsLeast(m, s);
    m
  }

  /** Whoever is left alone is the holder of the one active seat. */
  lemma {:induction false} SoleActive(ps: seq<Player>)
    requires Seated(ps)
    ensures |Actives(ps)| == |ActiveSeats(ps)|
    ensures |Actives(ps)| == 1 ==> ActiveSeats(ps) != {} && Actives(ps)[0].id == Pl(Least(ActiveSeats(ps)))
  {
    ActivesCounted(ps);
    if |Actives(ps)| == 1 {
      ActivesSit(ps);
      ActivesMembers(ps, Actives(ps)[0]);
      var i :| 0 <= i < |ps| && ps[i] == Actives(ps)[0];
      var seats, seat := ActiveSeats(ps), ps[i].seat;
      hide ActiveSeats;
      HolderOf(ps, i);
      assert |seats - {seat}| == 0;
      assert IsLeast(seat, seats) by { assert forall x :: x in seats ==> x == seat || x in seats - {seat}; }
    }
  }

  ghost function Above(s: set<nat>, from: nat): (r: set<nat>)
    ensures forall x :: x in r <==> x in s && from < x
  {
    set x | x in s && from < x
  }

  /** Next active seat in seat order after `from`, wrapping to the lowest; the round counts wraps. */
  ghost function NextTurn(active: set<nat>, from: nat, round: int): (r: (nat, int)) {
    if Above(active, from) != {} then (Least(Above(active, from)), round)
    else if active != {} then (Least(active), round + 1)
    else (from, round)
  }

  ghost predicate Used(ps: seq<Player>, seat: nat) {
    exists i :: 0 <= i < |ps| && ps[i].seat == seat
  }

  /** The lowest unused seat. */
  ghost predicate IsFreeSeat(ps: seq<Player>, seat: nat) {
    !Used(ps, seat) && forall s: nat :: s < seat ==> Used(ps, s)
  }

  ghost function SeatsUsed(ps: seq<Player>): (r: set<nat>)
    ensures forall s :: s in r <==> Used(ps, s)
    ensures |r| <= |ps|
  {
    if ps == [] then {}
    else
      var last := ps[|ps| - 1];
      var r := SeatsUsed(ps[..|ps| - 1]) + {last.seat};
      assert forall s :: Used(ps, s) <==> Used(ps[..|ps| - 1], s) || s == last.seat by {
        assert last == ps[|ps| - 1];
        forall s | Used(ps, s) ensures Used(ps[..|ps| - 1], s) || s == last.seat {
          var i :| 0 <= i < |ps| && ps[i].seat == s;
          if i < |ps| - 1 { assert ps[..|ps| - 1][i].seat == s; }
        }
        forall s | Used(ps[..|ps| - 1], s) ensures Used(ps, s) {
          var i :| 0 <= i < |ps| - 1 && ps[..|ps| - 1][i].seat == s;
          assert ps[i].seat == s;
        }
      }
      r
  }

  /** k distinct numbers below k are all of them, so a set covering 0..k has at least k elements. */
  lemma {:induction false} PrefixSize(s: set<nat>, k: nat)
    requires forall x: nat :: x < k ==> x in s
    ensures k <= |s|
  {
    if k == 0 {
    } else {
      PrefixSize(s - {k - 1}, k - 1);
    }
  }

  lemma {:induction false} FreeSeatExists(ps: seq<Player>) returns (seat: nat)
    ensures IsFreeSeat(ps, seat) && seat <= |ps|
  {
    seat := 0;
    while Used(ps, seat)
      invariant forall s: nat :: s < seat ==> Used(ps, s)
      invariant seat <= |ps|
      decreases |ps| - seat
    {
      PrefixSize(SeatsUsed(ps), seat + 1);
      seat := seat + 1;
    }
  }

  ghost function FreeSeat(ps: seq<Player>): (seat: nat)
    ensures IsFreeSeat(ps, seat) && seat <= |ps|
  {
    assert exists s: nat :: IsFreeSeat(ps, s) && s <= |ps| by { var s := FreeSeatExists(ps); }
    var seat: nat :| IsFreeSeat(ps, seat) && seat <= |ps|;
    seat
  }

  lemma {:induction false} FirstSeat()
    ensures FreeSeat([]) == 0
  {
    assert !Used([], 0);
  }

  lemma {:induction false} SecondSeat(ps: seq<Player>)
    requires |ps| == 1 && ps[0].seat == 0
    ensures FreeSeat(ps) == 1
  {
    assert Used(ps, 0);
    assert !Used(ps, 1);
  }
}
