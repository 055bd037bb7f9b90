/** The retained window of events, and what a reconnecting client is served from it (match.go). */
module CatchUp {
  import opened Config
  import opened Domain
  import opened Seats
  import opened Rules
  import opened Runs
  import opened Legality
  import opened Engine
  import opened Store
  import opened Runtime
  import opened Durability

  // ---- one transition's events --------------------------------------------------

  const MAX_FACTS := 6

  lemma FewClosingFacts(cfg: ValidConfig, s: State)
    ensures |Evaluate(cfg, s).facts| <= 1 && |EndIfShort(s).facts| <= 1
  {
  }

  lemma FewLandingFacts(s: State, i: nat, to: int)
    requires i < |s.players| && ResolveLanding(s, i, to).Ok?
    ensures |ResolveLanding(s, i, to).value.facts| <= 3
  {
  }

  lemma {:induction false} FewRollFacts(cfg: ValidConfig, s: State, i: nat, dice: Dice)
    requires i < |s.players| && RollOf(cfg, s, i, dice).Ok?
    ensures |RollOf(cfg, s, i, dice).value.facts| <= MAX_FACTS
  {
    hide ResolveLanding, Settled, Evaluate, Walk;
    var moved := Moved(cfg, s, i, dice.d1 + dice.d2);
    FewLandingFacts(moved, i, moved.players[i].position);
    var landing := ResolveLanding(moved, i, moved.players[i].position).value;
    FewClosingFacts(cfg, Settled(cfg, landing, Streak(cfg, s.turn.streak, dice)));
  }

  /** No action explains itself in more than six events. */
  lemma {:induction false} FewFacts(cfg: ValidConfig, s: State, actor: PlayerId, action: Action, dice: Dice)
    requires Apply(cfg, s, actor, action, dice).Ok?
    ensures |Apply(cfg, s, actor, action, dice).value.facts| <= MAX_FACTS
  {
    hide RollOf, AdvanceFrom, LeaveLobby, CanStart, Evaluate, EndIfShort;
    forall x ensures |Evaluate(cfg, x).facts| <= 1 && |EndIfShort(x).facts| <= 1 { FewClosingFacts(cfg, x); }
    if action == Roll && TurnError(s, actor, AwaitRoll) == None {
      FewRollFacts(cfg, s, IndexOf(s.players, actor), dice);
    }
  }

  // ---- windows on a log -----------------------------------------------------------

  ghost predicate TicksRise(log: seq<Event>) {
    forall i, j :: 0 <= i < j < |log| ==> log[i].tick <= log[j].tick
  }

  /** A suffix starting here splits no transition. */
  ghost predicate Aligned(log: seq<Event>, k: nat) {
    k <= |log| && (0 < k < |log| ==> log[k - 1].tick != log[k].tick)
  }

  /** No tick has more than `MAX_FACTS` events. */
  ghost predicate SmallTicks(log: seq<Event>) {
    forall i :: 0 <= i < |log| - MAX_FACTS ==> log[i].tick < log[i + MAX_FACTS].tick
  }

  ghost predicate TicksWithin(log: seq<Event>, last: nat) {
    forall i :: 0 <= i < |log| ==> 1 <= log[i].tick <= last
  }

  ghost predicate HasTick(log: seq<Event>, t: nat) { exists i :: 0 <= i < |log| && log[i].tick == t }

  ghost predicate WellTicked(log: seq<Event>, last: nat) {
    TicksRise(log) && SmallTicks(log) && TicksWithin(log, last)
  }

  function Start(log: seq<Event>): nat {
    if |log| <= HISTORY_CAP then 0 else CutAt(log, |log| - HISTORY_CAP)
  }

  lemma {:induction false} CutIsFirst(log: seq<Event>, drop: nat)
    requires 0 < drop <= |log|
    ensures Aligned(log, CutAt(log, drop))
    ensures forall k :: drop <= k < CutAt(log, drop) ==> !Aligned(log, k)
    ensures forall k :: drop <= k < CutAt(log, drop) ==> log[k].tick == log[drop - 1].tick
    decreases |log| - drop
  {
    if drop < |log| && log[drop].tick == log[drop - 1].tick {
      CutIsFirst(log, drop + 1);
    }
  }

  /** What is retained is the longest suffix of whole transitions within the cap. */
  lemma {:induction false} RetainsLongest(log: seq<Event>)
    ensures Start(log) <= |log| && Retain(log) == log[Start(log)..] && |Retain(log)| <= 1024
    ensures Aligned(log, Start(log))
    ensures forall k :: 0 <= k < Start(log) && Aligned(log, k) ==> |log| - k > 1024
  {
    if |log| > HISTORY_CAP { CutIsFirst(log, |log| - HISTORY_CAP); }
  }

  lemma {:induction false} RetainsSome(log: seq<Event>)
    requires SmallTicks(log) && log != []
    ensures Retain(log) != []
  {
    if |log| > HISTORY_CAP {
      var drop := |log| - HISTORY_CAP;
      CutIsFirst(log, drop);
      assert log[drop - 1].tick < log[drop - 1 + MAX_FACTS].tick;
    }
  }

  /** Cutting is the same whether or not a prefix before the cut is still there. */
  lemma {:induction false} CutShifts(log: seq<Event>, k: nat, drop: nat)
    requires k < drop <= |log|
    ensures CutAt(log, drop) == k + CutAt(log[k..], drop - k)
    decreases |log| - drop
  {
    if drop < |log| && log[drop].tick == log[drop - 1].tick { CutShifts(log, k, drop + 1); }
  }

  /** The window of a window with more events after it is the window of the whole log. */
  lemma {:induction false} RetainGrows(log: seq<Event>, events: seq<Event>)
    requires events != [] && (log != [] ==> log[|log| - 1].tick != events[0].tick)
    ensures Retain(Retain(log) + events) == Retain(log + events)
    ensures Start(log) <= Start(log + events)
    ensures Start(log + events) == Start(log) + Start(Retain(log) + events)
  {
    var all, k := log + events, Start(log);
    RetainsLongest(log);
    assert Retain(log) + events == all[k..];
    if |log| > HISTORY_CAP {
      WindowGrows(log, events);
    }
  }

  lemma SuffixOfSuffix(log: seq<Event>, k: nat, c: nat)
    requires k + c <= |log|
    ensures log[k..][c..] == log[k + c..]
  {
  }

  /** The window from k on is that of the whole log, when the cut of the whole log lies at or beyond k. */
  lemma {:induction false} WindowFrom(all: seq<Event>, k: nat, last: nat)
    requires last == |all| - HISTORY_CAP && 0 < last && k <= |all|
    requires k < last ==> CutAt(all, last) == k + CutAt(all[k..], last - k)
    requires last <= k ==> CutAt(all, last) == k
    ensures Retain(all[k..]) == Retain(all) && Start(all) == k + Start(all[k..])
  {
    hide CutAt;
    assert |all[k..]| == |all| - k;
    if k < last { SuffixOfSuffix(all, k, CutAt(all[k..], last - k)); }
  }

  lemma {:induction false} WindowGrows(log: seq<Event>, events: seq<Event>)
    requires |log| > HISTORY_CAP && events != [] && log[|log| - 1].tick != events[0].tick
    ensures var all, k := log + events, CutAt(log, |log| - HISTORY_CAP);
            Retain(all[k..]) == Retain(all) && Start(all) == k + Start(all[k..])
  {
    hide CutAt, Retain, Start;
    var all, drop, last := log + events, |log| - HISTORY_CAP, |log + events| - HISTORY_CAP;
    var k := CutAt(log, drop);
    CutOfLonger(log, events, drop);
    if k < last { CutShifts(all, k, last); } else { CutReached(all, drop, last); }
    WindowFrom(all, k, last);
  }

  /** Between a cut and the place it was sought from, seeking finds the same cut. */
  lemma {:induction false} CutReached(log: seq<Event>, drop: nat, from: nat)
    requires 0 < drop <= |log| && drop <= from <= CutAt(log, drop)
    ensures CutAt(log, from) == CutAt(log, drop)
    decreases from - drop
  {
    if drop < from { CutReached(log, drop + 1, from); }
  }

  lemma {:induction false} CutOfLonger(log: seq<Event>, events: seq<Event>, drop: nat)
    requires 0 < drop <= |log| && events != [] && log[|log| - 1].tick != events[0].tick
    ensures CutAt(log + events, drop) == CutAt(log, drop)
    decreases |log| - drop
  {
    if drop < |log| && log[drop].tick == log[drop - 1].tick { CutOfLonger(log, events, drop + 1); }
  }

  function BaseOf(log: seq<Event>): nat {
    if |log| <= HISTORY_CAP || Retain(log) == [] then 0 else Retain(log)[0].tick
  }

  lemma {:induction false} BaseGrows(log: seq<Event>, events: seq<Event>)
    requires events != [] && (log != [] ==> log[|log| - 1].tick != events[0].tick)
    requires SmallTicks(log) && SmallTicks(log + events)
    ensures BaseAfter(Retain(log) + events, BaseOf(log)) == BaseOf(log + events)
  {
    RetainGrows(log, events);
    RetainsSome(log + events);
    RetainsLongest(log);
    RetainsLongest(log + events);
    if |log| > HISTORY_CAP { RetainsSome(log); }
  }

  // ---- runs -----------------------------------------------------------------------

  /** Memory took over a stored transition it had been told was lost: its state moves, and nothing is published. */
  ghost predicate Adopts(cfg: ValidConfig, m: LiveMatch, call: Call) {
    Published(cfg, m, call) == [] && Next(cfg, m, call).mem != m.mem
  }

  /** The ticks a run has adopted. */
  ghost function AdoptedTicks(cfg: ValidConfig, m: LiveMatch, calls: seq<Call>): set<nat> {
    if calls == [] then {}
    else
      var before, call := calls[..|calls| - 1], calls[|calls| - 1];
      var n := Run(cfg, m, before);
      AdoptedTicks(cfg, m, before) + if Adopts(cfg, n, call) then {Next(cfg, n, call).mem.tick} else {}
  }

  /** Everything a run has published. */
  ghost function FullLog(cfg: ValidConfig, m: LiveMatch, calls: seq<Call>): seq<Event> {
    if calls == [] then []
    else FullLog(cfg, m, calls[..|calls| - 1]) + Published(cfg, Run(cfg, m, calls[..|calls| - 1]), calls[|calls| - 1])
  }

  /** A call publishes one whole transition and installs it, or publishes nothing and leaves the window alone. */
  ghost predicate PublishesTransition(m: LiveMatch, n: LiveMatch, events: seq<Event>) {
    if events == [] then n.history == m.history && n.base == m.base
    else
      && |events| <= MAX_FACTS && n.mem.tick == m.mem.tick + 1
      && (forall i :: 0 <= i < |events| ==> events[i].tick == n.mem.tick)
      && n.history == Retain(m.history + events) && n.base == BaseAfter(m.history + events, m.base)
  }

  lemma {:induction false} NextPublishes(cfg: ValidConfig, m: LiveMatch, call: Call)
    ensures PublishesTransition(m, Next(cfg, m, call), Published(cfg, m, call))
  {
    hide Apply, Commit, Retain, BaseAfter, SnapshotFor;
    match call
    case Claim(name, token, outcome) =>
      if ClaimReaches(cfg, m, name, token) {
        AcceptedExplains(cfg, m.mem, NoPlayer, Join(name), NO_DICE);
        FewFacts(cfg, m.mem, NoPlayer, Join(name), NO_DICE);
        JoinSpeaks(cfg, m.mem, name);
      }
    case Act(sid, seqNo, action, dice, outcome, readable) =>
      if ActReaches(cfg, m, sid, seqNo, action, dice) {
        AcceptedExplains(cfg, m.mem, m.sessions[sid].player, action, dice);
        FewFacts(cfg, m.mem, m.sessions[sid].player, action, dice);
      }
    case _ =>
  }

  /** An adoption moves memory on by exactly one tick, which is durable. */
  lemma {:induction false} AdoptionMoves(cfg: ValidConfig, m: LiveMatch, call: Call)
    requires Durable(cfg, m) && Adopts(cfg, m, call)
    ensures Next(cfg, m, call).mem.tick == m.mem.tick + 1
  {
    hide Apply, Commit, Install, SnapshotFor, Durable;
    NextDurable(cfg, m, call);
    CursorIsTick(cfg, Next(cfg, m, call));
    match call
    case Claim(name, token, outcome) =>
      if ClaimReaches(cfg, m, name, token) { JoinSpeaks(cfg, m.mem, name); }
    case Act(sid, seqNo, action, dice, outcome, readable) =>
      if ActReaches(cfg, m, sid, seqNo, action, dice) {
        AcceptedExplains(cfg, m.mem, m.sessions[sid].player, action, dice);
      }
    case _ =>
  }

  lemma CursorIsTick(cfg: ValidConfig, m: LiveMatch)
    requires Durable(cfg, m)
    ensures m.db.cursor == m.db.state.tick
  {
  }

  /** A call publishes the next tick, adopts it, or stays where memory is. */
  lemma {:induction false} TickMoves(cfg: ValidConfig, m: LiveMatch, call: Call)
    requires Durable(cfg, m)
    ensures var n, events := Next(cfg, m, call), Published(cfg, m, call);
            && PublishesTransition(m, n, events)
            && n.mem.tick == m.mem.tick + if events != [] || Adopts(cfg, m, call) then 1 else 0
  {
    hide Next, Published, Durable;
    NextPublishes(cfg, m, call);
    if Adopts(cfg, m, call) { AdoptionMoves(cfg, m, call); }
  }

  lemma {:induction false} TicksGrow(log: seq<Event>, last: nat, events: seq<Event>)
    requires WellTicked(log, last) && 0 < |events| <= MAX_FACTS
    requires forall i :: 0 <= i < |events| ==> events[i].tick == last + 1
    ensures WellTicked(log + events, last + 1)
  {
    var all := log + events;
    forall i | 0 <= i < |all| - MAX_FACTS ensures all[i].tick < all[i + MAX_FACTS].tick {
      assert i < |log|;
    }
  }

  /** Memory retains the window of the log, and knows where it starts. */
  ghost predicate Windowed(m: LiveMatch, log: seq<Event>) {
    WellTicked(log, m.mem.tick) && m.history == Retain(log) && m.base == BaseOf(log)
  }

  lemma {:induction false} WindowKept(m: LiveMatch, log: seq<Event>, n: LiveMatch, events: seq<Event>)
    requires Windowed(m, log) && PublishesTransition(m, n, events) && m.mem.tick <= n.mem.tick
    ensures Windowed(n, log + events)
  {
    hide Retain, BaseAfter, BaseOf;
    if events == [] {
      assert log + events == log;
    } else {
      TicksGrow(log, m.mem.tick, events);
      RetainGrows(log, events);
      BaseGrows(log, events);
    }
  }

  /**
   In every run the retained history is the longest suffix of everything published that splits no transition and
   fits the cap.
   */
  lemma {:induction false} HistoryIsWindow(cfg: ValidConfig, calls: seq<Call>)
    ensures Windowed(Run(cfg, NewMatch(cfg), calls), FullLog(cfg, NewMatch(cfg), calls))
  {
    hide Next, Published, PublishesTransition, Windowed, Durable;
    if calls == [] {
      NothingWindowed(cfg);
    } else {
      var before, call := calls[..|calls| - 1], calls[|calls| - 1];
      var m := Run(cfg, NewMatch(cfg), before);
      HistoryIsWindow(cfg, before);
      NewMatchDurable(cfg);
      NeverDriftsApart(cfg, NewMatch(cfg), before);
      TickMoves(cfg, m, call);
      WindowKept(m, FullLog(cfg, NewMatch(cfg), before), Next(cfg, m, call), Published(cfg, m, call));
    }
  }

  lemma NothingWindowed(cfg: ValidConfig)
    ensures Windowed(NewMatch(cfg), [])
  {
  }

  /** Every tick so far is in the log or was adopted, and none both. */
  ghost predicate Accounted(log: seq<Event>, adopted: set<nat>, last: nat) {
    && (forall t :: t in adopted ==> 1 <= t <= last && !HasTick(log, t))
    && forall t :: 1 <= t <= last ==> t in adopted || HasTick(log, t)
  }

  lemma {:induction false} LogHasTick(log: seq<Event>, events: seq<Event>, t: nat)
    ensures HasTick(log + events, t) <==> HasTick(log, t) || HasTick(events, t)
  {
    var all := log + events;
    if HasTick(log, t) {
      var i :| 0 <= i < |log| && log[i].tick == t;
      assert all[i].tick == t;
    }
    if HasTick(events, t) {
      var i :| 0 <= i < |events| && events[i].tick == t;
      assert all[|log| + i].tick == t;
    }
  }

  lemma {:induction false} AccountKept(log: seq<Event>, adopted: set<nat>, last: nat, events: seq<Event>, more: set<nat>)
    requires Accounted(log, adopted, last) && WellTicked(log, last)
    requires forall i :: 0 <= i < |events| ==> events[i].tick == last + 1
    requires more == if events == [] then more * {last + 1} else {}
    ensures Accounted(log + events, adopted + more, last + if events != [] || more != {} then 1 else 0)
  {
    var next := last + 1;
    forall t: nat ensures HasTick(log + events, t) <==> HasTick(log, t) || (events != [] && t == next) {
      LogHasTick(log, events, t);
      if events != [] { assert events[0].tick == next; }
    }
    assert more == {} || more == {next};
  }

  /** In every run, a tick is missing from what was published exactly if it was adopted. */
  lemma {:induction false} TicksAccounted(cfg: ValidConfig, calls: seq<Call>)
    ensures var m := NewMatch(cfg);
            Accounted(FullLog(cfg, m, calls), AdoptedTicks(cfg, m, calls), Run(cfg, m, calls).mem.tick)
  {
    hide Next, Published, Windowed, Durable, Accounted, Adopts;
    if calls == [] {
      NothingAccounted(cfg);
    } else {
      var before, call := calls[..|calls| - 1], calls[|calls| - 1];
      var m := Run(cfg, NewMatch(cfg), before);
      TicksAccounted(cfg, before);
      HistoryIsWindow(cfg, before);
      WindowTicks(m, FullLog(cfg, NewMatch(cfg), before));
      NewMatchDurable(cfg);
      NeverDriftsApart(cfg, NewMatch(cfg), before);
      TickMoves(cfg, m, call);
      AdoptsSilently(cfg, m, call);
      AccountKept(FullLog(cfg, NewMatch(cfg), before), AdoptedTicks(cfg, NewMatch(cfg), before), m.mem.tick,
                  Published(cfg, m, call), if Adopts(cfg, m, call) then {Next(cfg, m, call).mem.tick} else {});
    }
  }

  lemma AdoptsSilently(cfg: ValidConfig, m: LiveMatch, call: Call)
    ensures Adopts(cfg, m, call) ==> Published(cfg, m, call) == []
  {
  }

  lemma WindowTicks(m: LiveMatch, log: seq<Event>)
    requires Windowed(m, log)
    ensures WellTicked(log, m.mem.tick)
  {
  }

  lemma NothingAccounted(cfg: ValidConfig)
    ensures Accounted([], {}, NewMatch(cfg).mem.tick)
  {
  }

  // ---- what a returning client is served -------------------------------------------

  /** Every event after the cursor is in the part of the log from k on. */
  lemma {:induction false} LaterInSuffix(log: seq<Event>, k: nat, cursor: int)
    requires k <= |log| && forall i :: 0 <= i < k ==> log[i].tick <= cursor
    ensures Later(log, cursor) == Later(log[k..], cursor)
  {
    if k < |log| {
      var front := log[..|log| - 1];
      LaterInSuffix(front, k, cursor);
      assert log[k..][..|log[k..]| - 1] == front[k..];
    } else {
      NothingLater(log, cursor);
    }
  }

  lemma {:induction false} NothingLater(log: seq<Event>, cursor: int)
    requires forall i :: 0 <= i < |log| ==> log[i].tick <= cursor
    ensures Later(log, cursor) == []
  {
    if log == [] {
    } else {
      NothingLater(log[..|log| - 1], cursor);
    }
  }

  /** Exactly the ticks after the cursor are among the later events. */
  lemma {:induction false} LaterTicks(log: seq<Event>, cursor: nat, t: nat)
    ensures HasTick(Later(log, cursor), t) <==> HasTick(log, t) && cursor < t
  {
    if log == [] {
      NoTick(t);
    } else {
      hide HasTick;
      var front, last := log[..|log| - 1], log[|log| - 1];
      assert log == front + [last];
      LaterTicks(front, cursor, t);
      LogHasTick(front, [last], t);
      OneTick(last, t);
      if last.tick > cursor {
        LogHasTick(Later(front, cursor), [last], t);
      } else {
        assert Later(log, cursor) == Later(front, cursor);
      }
    }
  }

  lemma NoTick(t: nat)
    ensures !HasTick([], t)
  {
  }

  lemma {:induction false} OneTick(e: Event, t: nat)
    ensures HasTick([e], t) <==> e.tick == t
  {
    assert [e][0] == e;
  }

  /** The window still reaches back to the cursor. */
  predicate Retained(log: seq<Event>, cursor: int) { BaseOf(log) <= cursor + 1 }

  lemma {:induction false} RetainedLater(log: seq<Event>, last: nat, cursor: nat)
    requires WellTicked(log, last)
    ensures Retained(log, cursor) ==> Later(Retain(log), cursor) == Later(log, cursor)
    ensures !Retained(log, cursor) ==> cursor < last
    ensures Retain(log) == [] <==> log == []
    ensures log == [] ==> Retained(log, cursor)
  {
    var k := Start(log);
    RetainsLongest(log);
    if log != [] { RetainsSome(log); }
    if |log| > HISTORY_CAP {
      assert log[k - 1].tick < log[k].tick == BaseOf(log);
      if Retained(log, cursor) { LaterInSuffix(log, k, cursor); }
    }
  }

  lemma {:induction false} ServedExactly(cfg: ValidConfig, m: LiveMatch, log: seq<Event>, cursor: int, viewer: PlayerId)
    requires Windowed(m, log) && Int64(cursor)
    ensures var r, c := ResumeFor(cfg, m, Some(cursor), viewer), Unsigned(cursor);
            && r.snapshot.state == m.mem
            && (c > m.mem.tick ==> r.events == [] && r.resync)
            && (c <= m.mem.tick ==>
                  if Retained(log, c) && Later(log, c) != [] then r.events == Later(log, c) && !r.resync
                  else r.events == [] && (r.resync <==> 0 < c < m.mem.tick))
  {
    hide LegalActions, Retain, BaseOf, Start, SmallTicks;
    RetainedLater(log, m.mem.tick, Unsigned(cursor));
  }

  /** These are the events of the log after the cursor: all of them, in order, and no others. */
  ghost predicate RestOf(log: seq<Event>, cursor: int, events: seq<Event>) {
    && |events| <= |log| && events == log[|log| - |events|..]
    && (forall i :: 0 <= i < |log| - |events| ==> log[i].tick <= cursor)
    && forall i :: |log| - |events| <= i < |log| ==> cursor < log[i].tick
  }

  lemma {:induction false} LaterTail(log: seq<Event>, tail: seq<Event>, cursor: int)
    requires forall i :: 0 <= i < |log| ==> log[i].tick <= cursor
    requires forall i :: 0 <= i < |tail| ==> tail[i].tick > cursor
    ensures Later(log + tail, cursor) == tail
  {
    if tail == [] {
      assert log + tail == log;
      NothingLater(log, cursor);
    } else {
      var front := tail[..|tail| - 1];
      assert (log + tail)[..|log + tail| - 1] == log + front;
      LaterTail(log, front, cursor);
    }
  }

  ghost predicate HasLater(log: seq<Event>, cursor: int) { exists i :: 0 <= i < |log| && cursor < log[i].tick }

  lemma {:induction false} LaterIsRest(log: seq<Event>, cursor: int)
    requires TicksRise(log)
    ensures RestOf(log, cursor, Later(log, cursor)) && (Later(log, cursor) != [] <==> HasLater(log, cursor))
  {
    hide Later;
    var k := 0;
    while k < |log| && log[k].tick <= cursor
      invariant k <= |log| && forall i :: 0 <= i < k ==> log[i].tick <= cursor
    {
      k := k + 1;
    }
    var rest := log[k..];
    forall i | k <= i < |log| ensures cursor < log[i].tick { assert k == i || log[k].tick <= log[i].tick; }
    assert log[..k] + rest == log;
    LaterTail(log[..k], rest, cursor);
    assert rest != [] ==> cursor < log[k].tick;
  }

  lemma {:induction false} ServedAsLater(cfg: ValidConfig, calls: seq<Call>, cursor: int, viewer: PlayerId)
    requires Int64(cursor)
    ensures var m, log := Run(cfg, NewMatch(cfg), calls), FullLog(cfg, NewMatch(cfg), calls);
            var r, c := ResumeFor(cfg, m, Some(cursor), viewer), Unsigned(cursor);
            && TicksRise(log) && r.snapshot.state == m.mem
            && (c > m.mem.tick ==> r.events == [] && r.resync)
            && (c <= m.mem.tick ==>
                  if Retained(log, c) && Later(log, c) != [] then r.events == Later(log, c) && !r.resync
                  else r.events == [] && (r.resync <==> 0 < c < m.mem.tick))
  {
    hide Run, FullLog, NewMatch, SnapshotFor;
    HistoryIsWindow(cfg, calls);
    ServedExactly(cfg, Run(cfg, NewMatch(cfg), calls), FullLog(cfg, NewMatch(cfg), calls), cursor, viewer);
  }

  /**
   In every run, a cursor the match has reached is served every later event published, if the window reaches back to
   it and there is one; otherwise it is served none, and told to resynchronise unless it is 0 or current. A negative
   cursor is one the match has not reached.
   */
  lemma {:induction false} ResumeIsExact(cfg: ValidConfig, calls: seq<Call>, cursor: int, viewer: PlayerId)
    requires Int64(cursor)
    ensures var m, log := Run(cfg, NewMatch(cfg), calls), FullLog(cfg, NewMatch(cfg), calls);
            var r := ResumeFor(cfg, m, Some(cursor), viewer);
            var c := if cursor < 0 then cursor + 0x1_0000_0000_0000_0000 else cursor;
            && r.snapshot.state == m.mem
            && (c > m.mem.tick ==> r.events == [] && r.resync)
            && (c <= m.mem.tick ==>
                  if Retained(log, c) && HasLater(log, c) then RestOf(log, c, r.events) && !r.resync
                  else r.events == [] && (r.resync <==> 0 < c < m.mem.tick))
  {
    ServedAsLater(cfg, calls, cursor, viewer);
    hide Run, FullLog, NewMatch, ResumeFor, Retained, Later, TicksRise;
    LaterIsRest(FullLog(cfg, NewMatch(cfg), calls), Unsigned(cursor));
  }

  /** A catch-up is served without the flag, and a durable tick between its cursor and its snapshot is not in it. */
  ghost predicate SkipsSilently(m: LiveMatch, r: Resume, cursor: nat) {
    r.events != [] && !r.resync
    && exists t: nat :: cursor < t <= m.mem.tick && Key(t, 0) in m.db.rows && !HasTick(r.events, t)
  }

  /**
   In every run and for every cursor: a catch-up silently skips a durable tick exactly if one was adopted between the
   cursor and the snapshot, and the window serves the cursor anything at all.
   */
  lemma {:induction false} SkipsExactlyAdopted(cfg: ValidConfig, calls: seq<Call>, cursor: int, viewer: PlayerId)
    requires Int64(cursor) && Unsigned(cursor) <= Run(cfg, NewMatch(cfg), calls).mem.tick
    ensures var s := NewMatch(cfg);
            var m, log, c := Run(cfg, s, calls), FullLog(cfg, s, calls), Unsigned(cursor);
            SkipsSilently(m, ResumeFor(cfg, m, Some(cursor), viewer), c)
            <==> (Retained(log, c) && HasLater(log, c) && exists t :: t in AdoptedTicks(cfg, s, calls) && c < t)
  {
    hide Run, FullLog, NewMatch, SnapshotFor, AdoptedTicks, Retained, Later, Durable, ResumeFor, HasTick, TicksRise;
    var s, c := NewMatch(cfg), Unsigned(cursor);
    var m, log, adopted := Run(cfg, s, calls), FullLog(cfg, s, calls), AdoptedTicks(cfg, s, calls);
    ServedAsLater(cfg, calls, cursor, viewer);
    LaterIsRest(log, c);
    TicksAccounted(cfg, calls);
    NewMatchDurable(cfg);
    NeverDriftsApart(cfg, s, calls);
    forall t: nat | c < t <= m.mem.tick
      ensures Key(t, 0) in m.db.rows && (t in adopted <==> !HasTick(Later(log, c), t))
    {
      TickIsDurable(cfg, m, t);
      LaterTicks(log, c, t);
    }
  }

  lemma {:induction false} TickIsDurable(cfg: ValidConfig, m: LiveMatch, t: nat)
    requires Durable(cfg, m) && 1 <= t <= m.mem.tick
    ensures Key(t, 0) in m.db.rows
  {
    if !InSync(m) {
      var i: Input :| StepsTo(cfg, m.mem, i, m.db.state);
      AcceptedExplains(cfg, m.mem, i.actor, i.action, i.dice);
    }
  }
}
