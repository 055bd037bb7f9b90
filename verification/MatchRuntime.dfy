/** The live match as it runs: fields written under one lock, around the engine and the store (match.go, handler.go). */
module MatchRuntime {
  import opened Config
  import opened Domain
  import opened Seats
  import opened Rules
  import opened Invariant
  import opened Legality
  import opened States
  import opened LifecycleRuleset
  import opened Engine
  import opened Store
  import opened Runtime
  import opened Durability
  import opened CatchUp
  import opened Sessions
  import opened Limiter

  class Match {
    const engine: MatchEngine
    const store: MatchStore
    var state: GameState
    var history: seq<Event>
    var base: nat
    var sessions: map<SessionId, Session>
    var tokens: map<PlayerId, Token>

    ghost function Value(): LiveMatch
      reads this, state, state.players, state.spaces, store
    {
      LiveMatch(state.Value(), history, base, sessions, tokens, store.Value())
    }

    ghost predicate Valid()
      reads this, state, state.players, state.spaces, store
    {
      Sound(engine.cfg, Value())
    }

    constructor (engine: MatchEngine)
      ensures Valid() && Value() == NewMatch(engine.cfg)
      ensures this.engine == engine && fresh(store) && fresh(state.Storage())
    {
      var board := engine.cfg.board;
      var s := new GameState(NewBoard(engine.cfg));
      this.engine, state := engine, s;
      store := new MatchStore(s.Value());
      history, base, sessions, tokens := [], 0, map[], map[];
      new;
      NewMatchSound(engine.cfg);
    }

    // ---- the window ----------------------------------------------------------

    /** Drops the oldest events, up to a transition boundary. */
    method TrimHistory()
      modifies this`history, this`base
      ensures history == Retain(old(history)) && base == BaseAfter(old(history), old(base))
    {
      if |history| <= HISTORY_CAP { return; }
      var drop := |history| - HISTORY_CAP;
      var boundary := history[drop - 1].tick;
      while drop < |history| && history[drop].tick == boundary
        invariant 0 < drop <= |history| && history[drop - 1].tick == boundary
        invariant CutAt(history, |history| - HISTORY_CAP) == CutAt(history, drop)
      {
        drop := drop + 1;
      }
      history := history[drop..];
      if |history| > 0 {
        base := history[0].tick;
      }
    }

    /** Installs the engine's next state and records its events. */
    method CommitLocked(next: GameState, events: seq<Event>)
      modifies this`state, this`history, this`base
      ensures state == next && history == Retain(old(history) + events) && base == BaseAfter(old(history) + events, old(base))
    {
      state := next;
      for i := 0 to |events|
        invariant state == next && base == old(base)
        invariant history == old(history) + events[..i]
      {
        assert events[..i + 1] == events[..i] + [events[i]];
        history := history + [events[i]];
      }
      assert events[..|events|] == events;
      TrimHistory();
    }

    // ---- seat claims -----------------------------------------------------------

    method ClaimSeat(name: string, token: Option<Token>, outcome: Outcome) returns (reply: ClaimReply)
      requires Valid()
      modifies this, store
      ensures Valid()
      ensures (Value(), reply) == Runtime.ClaimSeat(engine.cfg, old(Value()), name, token, outcome)
    {
      hide Rules.Apply, Inv, Retain, BaseAfter, Store.Commit;
      ghost var was := Value();
      SoundSeated(engine.cfg, was);
      ClaimSound(engine.cfg, was, name, token, outcome);
      if state.phase != Lobby { return SeatRefused(ErrAlreadyStarted); }
      var a := engine.Apply(state, NoPlayer, Join(name), NO_DICE);
      if a.Rejected? { return SeatRefused(a.error); }
      if token == None { return NoToken; }
      JoinSpeaks(engine.cfg, was.mem, name);
      var next, events := a.next, a.events;
      var player := events[0].fact.id;
      var ok := store.CommitTransition(next.Value(), events, Some(SeatRow(player, token.value)), outcome);
      if !ok { return SeatNotDurable; }
      CommitLocked(next, events);
      tokens := tokens[player := token.value];
      TailKept(was, events);
      var tail := history[|history| - |events|..];
      reply := SeatClaimed(player, token.value, tail);
    }

    // ---- sessions --------------------------------------------------------------

    /** The seat a token opens, if it opens any. */
    method PlayerByToken(token: Token) returns (found: Option<PlayerId>)
      ensures Finds(Value(), token, found)
    {
      if token == "" { return None; }
      var ids := tokens.Keys;
      while ids != {}
        invariant ids <= tokens.Keys
        invariant forall id :: id in tokens && id !in ids ==> tokens[id] != token
        decreases |ids|
      {
        var id :| id in ids;
        if tokens[id] == token { return Some(id); }
        ids := ids - {id};
      }
      return None;
    }

    method Attach(sid: SessionId, token: Token) returns (found: Option<PlayerId>)
      requires Valid()
      modifies this`sessions
      ensures Valid() && Finds(old(Value()), token, found)
      ensures Value() == Bind(old(Value()), sid, found)
    {
      hide Inv;
      found := PlayerByToken(token);
      if found == None { return; }
      var s := Session(NoPlayer, false, false, false, 0, None);
      if sid in sessions { s := sessions[sid]; }
      s := s.(player := found.value, bound := true, connected := true);
      sessions := sessions[sid := s];
    }

    method Detach(sid: SessionId)
      requires Valid()
      modifies this`sessions
      ensures Valid() && Value() == Disconnect(old(Value()), sid)
    {
      hide Inv;
      sessions := sessions - {sid};
    }

    method Deliver(sid: SessionId)
      requires Valid()
      modifies this`sessions
      ensures Valid() && Value() == MarkReady(old(Value()), sid)
    {
      hide Inv;
      if sid in sessions {
        sessions := sessions[sid := sessions[sid].(ready := true)];
      }
    }

    // ---- actions -----------------------------------------------------------------

    /** Settles a commit of unknown outcome by reading the store back, if it can be read. */
    method ReconcileCommit(prev: GameState, readable: bool)
      modifies this`state
      ensures state.Value() == if readable && store.cursor == prev.tick + 1 then store.state else prev.Value()
      ensures state == prev || fresh(state.Storage())
    {
      if readable && store.cursor == prev.tick + 1 {
        state := new GameState.FromValue(store.state);
      } else {
        state := prev;
      }
    }

    /** Identity and sequence, then the engine, then the store, and only then memory. */
    method ApplyAction(sid: SessionId, seqNo: int, action: Action, dice: Dice, outcome: Outcome, readable: bool)
      returns (reply: Reply)
      requires Valid()
      modifies this, store
      ensures Valid()
      ensures (Value(), reply) == Runtime.ApplyAction(engine.cfg, old(Value()), sid, seqNo, action, dice, outcome, readable)
    {
      hide Rules.Apply, Inv, Retain, BaseAfter, Store.Commit, LegalActions;
      ghost var was := Value();
      SoundSeated(engine.cfg, was);
      ActSound(engine.cfg, was, sid, seqNo, action, dice, outcome, readable);
      if sid !in sessions || !sessions[sid].bound { return Unbound; }
      var s := sessions[sid];
      if seqNo < 1 || seqNo == MAX_INT64 { return OutOfRange; }
      if seqNo <= s.lastSeq {
        if s.lastAck == None || seqNo != s.lastSeq { return Stale; }
        return Acked(s.lastAck.value.(events := []), true);
      }
      var prev := state;
      var a := engine.Apply(state, s.player, action, dice);
      if a.Rejected? { return RefusedBy(a.error); }
      var next, events := a.next, a.events;
      var ok := store.CommitTransition(next.Value(), events, None, outcome);
      if !ok {
        ReconcileCommit(prev, readable);
        return NotDurable;
      }
      CommitLocked(next, events);
      SoundSeated(engine.cfg, Runtime.ApplyAction(engine.cfg, was, sid, seqNo, action, dice, outcome, readable).0);
      var legal := Legal(engine.cfg, next, s.player);
      var ack := Ack(events, Snapshot(next.Value(), legal), seqNo + 1);
      sessions := sessions[sid := s.(lastSeq := seqNo, lastAck := Some(ack))];
      reply := Acked(ack, false);
    }

    // ---- catch-up -----------------------------------------------------------------

    method SinceLocked(cursor: nat) returns (events: Option<seq<Event>>)
      ensures events == Since(Value(), cursor)
    {
      if |history| == 0 {
        if cursor == 0 { return Some([]); }
        return None;
      }
      if cursor + 1 < base { return None; }
      if cursor > state.tick { return None; }
      var out: seq<Event> := [];
      for i := 0 to |history|
        invariant out == Later(history[..i], cursor)
      {
        assert history[..i + 1][..i] == history[..i];
        if history[i].tick > cursor { out := out + [history[i]]; }
      }
      assert history[..|history|] == history;
      return Some(out);
    }

    /** Snapshot, catch-up and resynchronisation flag, all of one moment. */
    method Resume(cursor: Option<int>, viewer: PlayerId) returns (r: Runtime.Resume)
      requires Valid() && (cursor.Some? ==> Int64(cursor.value))
      ensures r == ResumeFor(engine.cfg, Value(), cursor, viewer)
    {
      hide Inv, LegalActions;
      SoundSeated(engine.cfg, Value());
      var legal := Legal(engine.cfg, state, viewer);
      var snap := Snapshot(state.Value(), legal);
      if cursor == None { return Runtime.Resume(snap, [], false); }
      var c := Unsigned(cursor.value);
      if c > state.tick { return Runtime.Resume(snap, [], true); }
      var events := SinceLocked(c);
      if events == None || |events.value| == 0 { return Runtime.Resume(snap, [], c > 0 && c < state.tick); }
      return Runtime.Resume(snap, events.value, false);
    }
  }

  // ---- the connection's side ------------------------------------------------------

  /** What the acting client is sent. */
  datatype Frame = AckFrame(nextSeq: int, snapshot: Snapshot) | Limited | Undecodable | Failed(reply: Reply)

  /** A join is refused where actions are decoded: seats are claimed elsewhere. */
  function Decoded(payload: Option<Action>): Option<Action> {
    if payload.Some? && payload.value.Join? then None else payload
  }

  /** What answers an applied action: an acknowledgement exactly for a success, fresh or replayed. */
  function FrameFor(reply: Reply): Frame {
    if reply.Acked? then AckFrame(reply.ack.nextSeq, reply.ack.snapshot) else Failed(reply)
  }

  /** Limit, decode, apply, publish only a success that is not a replay, then acknowledge. */
  method HandleAction(limiter: RateLimiter, m: Match, sid: SessionId, now: int, seqNo: int, payload: Option<Action>,
                      dice: Dice, outcome: Outcome, readable: bool) returns (published: seq<Event>, frame: Frame)
    requires m.Valid() && limiter.Valid()
    modifies m, m.store, limiter, limiter.Repr
    ensures m.Valid() && limiter.Valid()
    ensures limiter.Value() == Record(limiter.limit, limiter.window, old(limiter.Value()), Limiter.Call(sid, now))
    ensures var allowed := Answer(limiter.limit, limiter.window, old(limiter.Value()), Limiter.Call(sid, now));
            if !allowed || payload == None || payload.value.Join? then
              m.Value() == old(m.Value()) && published == [] && frame == if allowed then Undecodable else Limited
            else
              var call := Act(sid, seqNo, payload.value, dice, outcome, readable);
              && m.Value() == Next(m.engine.cfg, old(m.Value()), call)
              && published == Published(m.engine.cfg, old(m.Value()), call)
              && frame == FrameFor(ReplyOf(m.engine.cfg, old(m.Value()), call))
              && (published != [] ==>
                    && sid in old(m.Value()).sessions && frame.AckFrame? && frame.nextSeq == seqNo + 1
                    && Shown(m.engine.cfg, frame.snapshot, m.Value().mem, old(m.Value()).sessions[sid].player))
  {
    hide Shown, Inv, Rules.Apply, Retain, BaseAfter, Store.Commit, SnapshotFor, Answer, Record;
    published := [];
    ghost var was := m.Value();
    var allowed := limiter.Allow(sid, now);
    if !allowed { return published, Limited; }
    var action := Decoded(payload);
    if action == None { return published, Undecodable; }
    var reply := m.ApplyAction(sid, seqNo, action.value, dice, outcome, readable);
    if !reply.Acked? { return published, Failed(reply); }
    if !reply.replayed {
      published := reply.ack.events;
      FreshLeaves(m.engine.cfg, was, Act(sid, seqNo, action.value, dice, outcome, readable));
      SoundSeated(m.engine.cfg, m.Value());
      SnapshotShown(m.engine.cfg, m.Value().mem, was.sessions[sid].player);
    }
    frame := AckFrame(reply.ack.nextSeq, reply.ack.snapshot);
  }

  /**
   In every run a frame acknowledges exactly a success and hints at the sequence after its own; a fresh success is shown
   the state it led to, and a repeat what was shown before.
   */
  lemma {:induction false} FrameTells(cfg: ValidConfig, calls: seq<Runtime.Call>, call: Runtime.Call)
    requires PossibleRun(cfg, NewMatch(cfg), calls) && call.Act? && Int64(call.seqNo)
    ensures var m := Run(cfg, NewMatch(cfg), calls);
            var r, frame := ReplyOf(cfg, m, call), FrameFor(ReplyOf(cfg, m, call));
            && (frame.AckFrame? <==> r.Acked?) && (frame.AckFrame? ==> frame.nextSeq == call.seqNo + 1)
            && (r.Acked? ==> call.sid in m.sessions)
            && (r.Acked? && !r.replayed ==> Shown(cfg, frame.snapshot, Next(cfg, m, call).mem, m.sessions[call.sid].player))
            && (r.Acked? && r.replayed ==>
                  m.sessions[call.sid].lastAck.Some? && frame.snapshot == m.sessions[call.sid].lastAck.value.snapshot)
  {
    hide PossibleRun, Run, NewMatch, Durability.Durable, Next, ReplyOf, Shown;
    var m := Run(cfg, NewMatch(cfg), calls);
    NewMatchDurable(cfg);
    NeverDriftsApart(cfg, NewMatch(cfg), calls);
    HintNeverOverflows(cfg, calls, call);
    RepliesAsDeserved(cfg, m, call);
    if Fresh(cfg, m, call.sid, call) { AckShowsOutcome(cfg, calls, call); }
  }

  // ---- what every call keeps ----------------------------------------------------

  /** Memory and store hold reachable states, and nothing in the window is from the future. */
  ghost predicate Sound(cfg: ValidConfig, m: LiveMatch) {
    && Inv(cfg, m.mem) && Inv(cfg, m.db.state) && m.db.cursor == m.db.state.tick
    && forall e :: e in m.history ==> e.tick <= m.mem.tick
  }

  lemma NewMatchSound(cfg: ValidConfig)
    ensures Sound(cfg, NewMatch(cfg))
  {
  }

  lemma SoundSeated(cfg: ValidConfig, m: LiveMatch)
    requires Sound(cfg, m)
    ensures Seated(m.mem.players)
  {
  }

  lemma {:induction false} ClaimSound(cfg: ValidConfig, m: LiveMatch, name: string, token: Option<Token>, outcome: Outcome)
    requires Sound(cfg, m)
    ensures Sound(cfg, Runtime.ClaimSeat(cfg, m, name, token, outcome).0)
  {
    hide Inv, Apply, InsertEvents, BaseAfter, CutAt;
    if ClaimTransition(cfg, m.mem, name).Ok? {
      ApplyInv(cfg, m.mem, NoPlayer, Join(name), NO_DICE);
      AcceptedExplains(cfg, m.mem, NoPlayer, Join(name), NO_DICE);
    }
  }

  lemma {:induction false} ActSound(cfg: ValidConfig, m: LiveMatch, sid: SessionId, seqNo: int, action: Action, dice: Dice,
                                    outcome: Outcome, readable: bool)
    requires Sound(cfg, m)
    ensures Sound(cfg, Runtime.ApplyAction(cfg, m, sid, seqNo, action, dice, outcome, readable).0)
  {
    hide Inv, Apply, InsertEvents, BaseAfter, CutAt, SnapshotFor;
    if ActReaches(cfg, m, sid, seqNo, action, dice) {
      ApplyInv(cfg, m.mem, m.sessions[sid].player, action, dice);
      AcceptedExplains(cfg, m.mem, m.sessions[sid].player, action, dice);
    }
  }

  /** The newest transition is never trimmed away. */
  lemma {:induction false} TailKept(m: LiveMatch, events: seq<Event>)
    requires |events| == 1 && forall e :: e in m.history ==> e.tick < events[0].tick
    ensures var r := Retain(m.history + events); |events| <= |r| && r[|r| - |events|..] == events
  {
    var all := m.history + events;
    RetainsLongest(all);
    if |all| > HISTORY_CAP {
      CutIsFirst(all, |all| - HISTORY_CAP);
      assert Aligned(all, |m.history|);
    }
  }
}
