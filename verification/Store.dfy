/** The durable store, as an atomic commit that refuses a repeated tick (store.go). */
module Store {
  import opened Domain

  type Token = string

  /** The primary key of the event log: an event's tick and its place within its transition. */
  datatype Key = Key(tick: nat, index: nat)

  /** Snapshot, cursor, event rows and seat rows: what one transaction writes together. */
  datatype Database = Database(state: State, cursor: nat, rows: map<Key, Fact>, seats: map<PlayerId, Token>)

  /** What becomes of a transaction whose statements all went through. */
  datatype Outcome = Succeeds | Fails | FailsButCommits

  /** The player row of a seat claim. */
  datatype SeatRow = SeatRow(player: PlayerId, token: Token)

  /** The rows with a transition appended, or nothing if one of its keys is taken. */
  function InsertEvents(rows: map<Key, Fact>, events: seq<Event>): Option<map<Key, Fact>> {
    if events == [] then Some(rows)
    else
      var i := |events| - 1;
      var before, key := InsertEvents(rows, events[..i]), Key(events[i].tick, i);
      if before == None || key in before.value then None
      else Some(before.value[key := events[i].fact])
  }

  datatype Committed = Committed(db: Database, ok: bool)

  /** Everything of the transition becomes durable or nothing does; the caller may be told wrongly that nothing did. */
  function Commit(db: Database, next: State, events: seq<Event>, seat: Option<SeatRow>, outcome: Outcome): Committed {
    var rows := InsertEvents(db.rows, events);
    if rows == None || outcome == Fails then Committed(db, false)
    else
      var seats := if seat.Some? then db.seats[seat.value.player := seat.value.token] else db.seats;
      Committed(Database(next, next.tick, rows.value, seats), outcome == Succeeds)
  }

  class MatchStore {
    var state: State
    var cursor: nat
    var rows: map<Key, Fact>
    var seats: map<PlayerId, Token>

    ghost function Value(): Database
      reads this
    {
      Database(state, cursor, rows, seats)
    }

    constructor (state: State)
      ensures Value() == Database(state, state.tick, map[], map[])
    {
      this.state, cursor, rows, seats := state, state.tick, map[], map[];
    }

    /** Inserts the events into a transaction's own view of the log; a duplicate key abandons it. */
    method InsertRows(events: seq<Event>) returns (pending: Option<map<Key, Fact>>)
      ensures pending == InsertEvents(rows, events)
    {
      var view := rows;
      for i := 0 to |events|
        invariant InsertEvents(rows, events[..i]) == Some(view)
      {
        assert events[..i + 1][..i] == events[..i];
        var key := Key(events[i].tick, i);
        if key in view {
          RefusedOnceRefused(rows, events, i + 1);
          return None;
        }
        view := view[key := events[i].fact];
      }
      assert events[..|events|] == events;
      return Some(view);
    }

    method CommitTransition(next: State, events: seq<Event>, seat: Option<SeatRow>, outcome: Outcome) returns (ok: bool)
      modifies this
      ensures Committed(Value(), ok) == Commit(old(Value()), next, events, seat, outcome)
    {
      var pending := InsertRows(events);
      if pending == None { return false; }
      if outcome == Fails { return false; }
      rows := pending.value;
      state, cursor := next, next.tick;
      if seat.Some? {
        seats := seats[seat.value.player := seat.value.token];
      }
      return outcome == Succeeds;
    }
  }

  /** A prefix the log refuses refuses the whole transition. */
  lemma {:induction false} RefusedOnceRefused(rows: map<Key, Fact>, events: seq<Event>, n: nat)
    requires n <= |events| && InsertEvents(rows, events[..n]) == None
    ensures InsertEvents(rows, events) == None
    decreases |events| - n
  {
    if n < |events| {
      assert events[..n + 1][..n] == events[..n];
      RefusedOnceRefused(rows, events, n + 1);
    } else {
      assert events[..n] == events;
    }
  }

  // ---- what an accepted transition leaves behind ------------------------------

  ghost predicate Logged(rows: map<Key, Fact>, events: seq<Event>) {
    forall i :: 0 <= i < |events| ==> Key(events[i].tick, i) in rows && rows[Key(events[i].tick, i)] == events[i].fact
  }

  ghost predicate Extends(rows: map<Key, Fact>, more: map<Key, Fact>) {
    forall k :: k in rows ==> k in more && more[k] == rows[k]
  }

  /** Inserting a transition keeps every row there was, and adds exactly its own. */
  lemma {:induction false} InsertAddsExactly(rows: map<Key, Fact>, events: seq<Event>)
    requires InsertEvents(rows, events).Some?
    ensures var more := InsertEvents(rows, events).value;
            Extends(rows, more) && Logged(more, events)
            && forall k :: k in more ==> k in rows || exists i :: 0 <= i < |events| && k == Key(events[i].tick, i)
  {
    if events == [] {
    } else {
      var i := |events| - 1;
      InsertAddsExactly(rows, events[..i]);
      var before := InsertEvents(rows, events[..i]).value;
      forall k | k in before && k !in rows ensures exists j :: 0 <= j < |events| && k == Key(events[j].tick, j) {
        var j :| 0 <= j < i && k == Key(events[..i][j].tick, j);
        assert k == Key(events[j].tick, j);
      }
      forall j | 0 <= j < i ensures Key(events[j].tick, j) in before && before[Key(events[j].tick, j)] == events[j].fact {
        assert events[..i][j] == events[j];
      }
    }
  }

  /** A tick that is already durable is refused, whatever the transition says. */
  lemma {:induction false} RepeatedTickRefused(rows: map<Key, Fact>, events: seq<Event>)
    requires events != [] && Key(events[0].tick, 0) in rows
    ensures InsertEvents(rows, events) == None
  {
    assert events[..1][..0] == [];
    assert InsertEvents(rows, []) == Some(rows);
    assert events[..1][0] == events[0];
    RefusedOnceRefused(rows, events, 1);
  }

  /** A tick that is not durable yet is accepted. */
  lemma {:induction false} FreshTickAccepted(rows: map<Key, Fact>, events: seq<Event>, tick: nat)
    requires forall i :: 0 <= i < |events| ==> events[i].tick == tick
    requires forall k :: k in rows ==> k.tick != tick
    ensures InsertEvents(rows, events).Some?
    ensures forall k :: k in InsertEvents(rows, events).value && k.tick == tick ==> k.index < |events|
  {
    if events == [] {
    } else {
      FreshTickAccepted(rows, events[..|events| - 1], tick);
    }
  }
}
