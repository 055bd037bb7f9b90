/** The lobby's roster: removing a player, putting players in seat order, and the order's uniqueness. */
module Roster {
  import opened Domain
  import opened Rules

  ghost predicate SeatOrdered(ps: seq<Player>) {
    forall i, j :: 0 <= i < j < |ps| ==> ps[i].seat < ps[j].seat
  }

  /** Seat order, players on one seat in any order. */
  ghost predicate SeatSorted(ps: seq<Player>) {
    forall i, j :: 0 <= i < j < |ps| ==> ps[i].seat <= ps[j].seat
  }

  ghost predicate DistinctSeats(ps: seq<Player>) {
    forall i, j :: 0 <= i < j < |ps| ==> ps[i].seat != ps[j].seat
  }

  lemma {:induction false} InsertOrders(ps: seq<Player>, p: Player)
    requires SeatOrdered(ps)
    requires forall q :: q in ps ==> q.seat != p.seat
    ensures SeatOrdered(InsertBySeat(ps, p))
    ensures forall q :: q in InsertBySeat(ps, p) <==> q in ps || q == p
    ensures |InsertBySeat(ps, p)| == |ps| + 1
  {
    if ps != [] && ps[|ps| - 1].seat > p.seat {
      var front, last := ps[..|ps| - 1], ps[|ps| - 1];
      var r := InsertBySeat(front, p);
      assert ps == front + [last] && InsertBySeat(ps, p) == r + [last];
      hide InsertBySeat;
      InsertOrders(front, p);
      forall i | 0 <= i < |r| ensures r[i].seat < last.seat {
        assert r[i] in r;
      }
    }
  }

  /** Putting players in seat order loses, adds and duplicates nobody. */
  lemma {:induction false} BySeatOrders(ps: seq<Player>)
    requires DistinctSeats(ps)
    ensures SeatOrdered(BySeat(ps))
    ensures forall q :: q in BySeat(ps) <==> q in ps
    ensures |BySeat(ps)| == |ps|
  {
    if ps == [] {
    } else {
      var front, last := ps[..|ps| - 1], ps[|ps| - 1];
      BySeatOrders(front);
      assert ps == front + [last];
      forall q | q in BySeat(front) ensures q.seat != last.seat {
        assert q in front;
      }
      InsertOrders(BySeat(front), last);
    }
  }

  /** Seats being distinct, the players alone decide the order. */
  lemma {:induction false} OrderUnique(ps: seq<Player>, qs: seq<Player>)
    requires SeatOrdered(ps) && SeatOrdered(qs)
    requires forall p :: p in ps <==> p in qs
    ensures ps == qs
  {
    if qs != [] { SameFirst(qs, ps); }
    if ps == [] {
    } else {
      SameFirst(ps, qs);
      RestApart(ps);
      RestApart(qs);
      hide SeatOrdered;
      OrderUnique(ps[1..], qs[1..]);
      assert ps == [ps[0]] + ps[1..] && qs == [qs[0]] + qs[1..];
    }
  }

  lemma {:induction false} SameFirst(ps: seq<Player>, qs: seq<Player>)
    requires SeatOrdered(ps) && SeatOrdered(qs) && ps != []
    requires forall p :: p in ps <==> p in qs
    ensures qs != [] && ps[0] == qs[0]
  {
    assert ps[0] in qs;
    var j :| 0 <= j < |qs| && qs[j] == ps[0];
    assert qs[0] in ps;
    var i :| 0 <= i < |ps| && ps[i] == qs[0];
  }

  /** The first player is not among the rest, which are ordered too. */
  lemma {:induction false} RestApart(ps: seq<Player>)
    requires SeatOrdered(ps) && ps != []
    ensures SeatOrdered(ps[1..]) && forall p :: p in ps[1..] <==> p in ps && p != ps[0]
  {
    assert ps == [ps[0]] + ps[1..];
  }

  /** Whatever the roster, everyone is there as often as before, in rising seat order. */
  lemma {:induction false} BySeatSorts(ps: seq<Player>)
    ensures multiset(BySeat(ps)) == multiset(ps)
    ensures SeatSorted(BySeat(ps))
  {
    if ps == [] {
    } else {
      var front, last := ps[..|ps| - 1], ps[|ps| - 1];
      assert ps == front + [last];
      BySeatSorts(front);
      InsertSorts(BySeat(front), last);
    }
  }

  lemma {:induction false} InsertSorts(ps: seq<Player>, p: Player)
    requires SeatSorted(ps)
    ensures multiset(InsertBySeat(ps, p)) == multiset(ps) + multiset{p}
    ensures SeatSorted(InsertBySeat(ps, p))
  {
    if ps != [] && ps[|ps| - 1].seat > p.seat {
      var front, last := ps[..|ps| - 1], ps[|ps| - 1];
      var r := InsertBySeat(front, p);
      assert ps == front + [last] && InsertBySeat(ps, p) == r + [last];
      hide InsertBySeat;
      InsertSorts(front, p);
      forall i | 0 <= i < |r| ensures r[i].seat <= last.seat {
        assert r[i] in multiset(r);
        assert r[i] in front || r[i] == p;
      }
    }
  }

  /** Whichever way the library sorts, players on distinct seats come out as they do here. */
  lemma {:induction false} AnySortIsThis(ps: seq<Player>, sorted: seq<Player>)
    requires DistinctSeats(ps)
    requires multiset(sorted) == multiset(ps) && SeatSorted(sorted)
    ensures sorted == BySeat(ps)
  {
    BySeatOrders(ps);
    forall p ensures p in sorted <==> p in ps { assert p in multiset(sorted) <==> p in multiset(ps); }
    DistinctOrdered(ps, sorted);
    OrderUnique(BySeat(ps), sorted);
  }

  lemma {:induction false} DistinctOrdered(ps: seq<Player>, sorted: seq<Player>)
    requires DistinctSeats(ps)
    requires multiset(sorted) == multiset(ps) && SeatSorted(sorted)
    ensures SeatOrdered(sorted)
  {
    forall i, j | 0 <= i < j < |sorted| ensures sorted[i].seat < sorted[j].seat {
      if sorted[i].seat == sorted[j].seat {
        assert sorted[i] in multiset(ps) && sorted[j] in multiset(ps);
        OneEach(ps, sorted[i]);
        TwoEach(sorted, i, j);
      }
    }
  }

  lemma {:induction false} OneEach(ps: seq<Player>, p: Player)
    requires DistinctSeats(ps)
    ensures multiset(ps)[p] <= 1
  {
    if ps == [] {
    } else {
      var front, last := ps[..|ps| - 1], ps[|ps| - 1];
      assert ps == front + [last];
      OneEach(front, p);
      assert p == last ==> p !in front;
    }
  }

  lemma {:induction false} TwoEach(ps: seq<Player>, i: nat, j: nat)
    requires i < j < |ps| && ps[i] == ps[j]
    ensures 2 <= multiset(ps)[ps[i]]
  {
    assert ps == ps[..j] + [ps[j]] + ps[j + 1..];
    assert ps[i] in ps[..j];
  }

  /** Only the player with the removed id goes, and the others keep their order. */
  lemma {:induction false} WithoutKeeps(ps: seq<Player>, id: PlayerId)
    requires DistinctSeats(ps)
    ensures forall q :: q in Without(ps, id) <==> q in ps && q.id != id
    ensures DistinctSeats(Without(ps, id)) && |Without(ps, id)| <= |ps|
  {
    if ps == [] {
    } else {
      var front, last := ps[..|ps| - 1], ps[|ps| - 1];
      WithoutKeeps(front, id);
      assert ps == front + [last];
      var r := Without(front, id);
      forall i | 0 <= i < |r| ensures r[i].seat != last.seat {
        assert r[i] in r;
        assert r[i] in front;
      }
    }
  }
}
