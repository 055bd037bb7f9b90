/** At most one fresh acknowledgement per sequence number, and no transition published twice (match.go, handler.go). */
module Sessions {
  import opened Config
  import opened Domain
  import opened Rules
  import opened Invariant
  import opened Runs
  import opened Legality
  import opened Engine
  import opened Store
  import opened Runtime
  import opened Durability
  import opened CatchUp

  // ---- the watermark ----------------------------------------------------------

  /** A success that was just applied, not served from the cache. */
  ghost predicate Fresh(cfg: ValidConfig, m: LiveMatch, sid: SessionId, call: Call) {
    call.Act? && call.sid == sid && ReplyOf(cfg, m, call).Acked? && !ReplyOf(cfg, m, call).replayed
  }

  /** The session stays open, and no fresh success of its own falls in between. */
  ghost predicate Undisturbed(cfg: ValidConfig, m: LiveMatch, sid: SessionId, calls: seq<Call>) {
    calls != [] ==>
      var before, call := calls[..|calls| - 1], calls[|calls| - 1];
      Undisturbed(cfg, m, sid, before) && call != Detach(sid) && !Fresh(cfg, Run(cfg, m, before), sid, call)
  }

  /** A fresh success moves the watermark up to its own sequence; nothing else but closing the session touches it. */
  lemma {:induction false} WatermarkMoves(cfg: ValidConfig, m: LiveMatch, sid: SessionId, call: Call)
    requires sid in m.sessions && call != Detach(sid)
    ensures var n := Next(cfg, m, call);
            && sid in n.sessions
            && (if Fresh(cfg, m, sid, call) then
                  && m.sessions[sid].lastSeq < call.seqNo == n.sessions[sid].lastSeq
                  && n.sessions[sid].lastAck == Some(ReplyOf(cfg, m, call).ack)
                else
                  && n.sessions[sid].lastSeq == m.sessions[sid].lastSeq
                  && n.sessions[sid].lastAck == m.sessions[sid].lastAck)
            && (m.sessions[sid].bound ==> n.sessions[sid].bound)
  {
    hide Apply, Commit, Retain, BaseAfter, SnapshotFor, ClaimTransition;
  }

  lemma {:induction false} WatermarkRises(cfg: ValidConfig, m: LiveMatch, sid: SessionId, calls: seq<Call>)
    requires sid in m.sessions && Detach(sid) !in calls
    ensures var n := Run(cfg, m, calls); sid in n.sessions && m.sessions[sid].lastSeq <= n.sessions[sid].lastSeq
  {
    hide Next, Fresh;
    if calls == [] {
    } else {
      var before := calls[..|calls| - 1];
      WatermarkRises(cfg, m, sid, before);
      WatermarkMoves(cfg, Run(cfg, m, before), sid, calls[|calls| - 1]);
    }
  }

  lemma {:induction false} FreshBound(cfg: ValidConfig, m: LiveMatch, sid: SessionId, call: Call)
    requires Fresh(cfg, m, sid, call)
    ensures BoundSession(m, sid) && call != Detach(sid)
    ensures 1 <= call.seqNo != MAX_INT64 && m.sessions[sid].lastSeq < call.seqNo
  {
    hide Apply, Commit, Install, SnapshotFor;
  }

  /** Within one session lifetime fresh successes have strictly increasing sequences: each sequence has at most one. */
  lemma {:induction false} FreshSequencesIncrease(cfg: ValidConfig, m: LiveMatch, sid: SessionId, first: Call, between: seq<Call>,
                                                second: Call)
    requires Fresh(cfg, m, sid, first) && Detach(sid) !in between
    requires Fresh(cfg, Run(cfg, Next(cfg, m, first), between), sid, second)
    ensures first.seqNo < second.seqNo
  {
    hide Next, Fresh, Run;
    FreshCalls(cfg, m, sid, first);
    FreshCalls(cfg, Run(cfg, Next(cfg, m, first), between), sid, second);
    FreshBound(cfg, m, sid, first);
    WatermarkMoves(cfg, m, sid, first);
    var n := Next(cfg, m, first);
    WatermarkRises(cfg, n, sid, between);
    assert (Run(cfg, n, between)).sessions[sid].lastSeq >= first.seqNo;
    FreshBound(cfg, Run(cfg, n, between), sid, second);
  }

  lemma FreshCalls(cfg: ValidConfig, m: LiveMatch, sid: SessionId, call: Call)
    requires Fresh(cfg, m, sid, call)
    ensures call.Act?
  {
  }

  lemma {:induction false} WatermarkStays(cfg: ValidConfig, m: LiveMatch, sid: SessionId, calls: seq<Call>)
    requires BoundSession(m, sid) && Undisturbed(cfg, m, sid, calls)
    ensures var n := Run(cfg, m, calls);
            BoundSession(n, sid) && n.sessions[sid].lastSeq == m.sessions[sid].lastSeq
            && n.sessions[sid].lastAck == m.sessions[sid].lastAck
  {
    hide Next, Fresh;
    if calls == [] {
    } else {
      var before := calls[..|calls| - 1];
      WatermarkStays(cfg, m, sid, before);
      WatermarkMoves(cfg, Run(cfg, m, before), sid, calls[|calls| - 1]);
    }
  }

  /**
   Repeating a sequence, with any action and under any storage, replays the same snapshot and next sequence with
   no events, commits nothing and changes nothing, until the session's next fresh success.
   */
  lemma {:induction false} RepeatReplays(cfg: ValidConfig, m: LiveMatch, sid: SessionId, first: Call, between: seq<Call>,
                                        again: Call)
    requires Fresh(cfg, m, sid, first) && again.Act? && again.sid == sid && again.seqNo == first.seqNo
    requires Undisturbed(cfg, Next(cfg, m, first), sid, between)
    ensures var n := Run(cfg, Next(cfg, m, first), between);
            && ReplyOf(cfg, n, again) == Acked(ReplyOf(cfg, m, first).ack.(events := []), true)
            && Next(cfg, n, again) == n && Published(cfg, n, again) == []
  {
    hide Fresh, Run, Undisturbed, Apply, Commit, Install, SnapshotFor, Retain;
    FreshBound(cfg, m, sid, first);
    WatermarkMoves(cfg, m, sid, first);
    WatermarkStays(cfg, Next(cfg, m, first), sid, between);
  }

  // ---- the next-sequence hint ----------------------------------------------------

  ghost predicate SessionOk(s: Session) {
    0 <= s.lastSeq < MAX_INT64 && (s.lastAck.Some? ==> s.lastAck.value.nextSeq == s.lastSeq + 1)
  }

  ghost predicate SessionsOk(m: LiveMatch) { forall sid :: sid in m.sessions ==> SessionOk(m.sessions[sid]) }

  lemma {:induction false} SessionsKept(cfg: ValidConfig, m: LiveMatch, call: Call)
    requires SessionsOk(m) && Possible(m, call)
    ensures SessionsOk(Next(cfg, m, call))
  {
    hide Apply, Commit, Retain, BaseAfter, SnapshotFor, ClaimTransition;
  }

  lemma {:induction false} SessionsAlwaysOk(cfg: ValidConfig, m: LiveMatch, calls: seq<Call>)
    requires SessionsOk(m) && PossibleRun(cfg, m, calls)
    ensures SessionsOk(Run(cfg, m, calls))
  {
    hide Next, SessionsOk, Possible;
    if calls == [] {
    } else {
      SessionsAlwaysOk(cfg, m, calls[..|calls| - 1]);
      SessionsKept(cfg, Run(cfg, m, calls[..|calls| - 1]), calls[|calls| - 1]);
    }
  }

  /** Every acknowledgement, fresh or replayed, hints at the sequence after its own, and never past the wire's range. */
  lemma {:induction false} HintNeverOverflows(cfg: ValidConfig, calls: seq<Call>, call: Call)
    requires PossibleRun(cfg, NewMatch(cfg), calls) && call.Act? && Int64(call.seqNo)
    ensures var r := ReplyOf(cfg, Run(cfg, NewMatch(cfg), calls), call);
            r.Acked? ==> r.ack.nextSeq == call.seqNo + 1 && 2 <= r.ack.nextSeq <= MAX_INT64
  {
    hide Apply, Commit, Install, SnapshotFor, Run, PossibleRun, NewBoard;
    SessionsAlwaysOk(cfg, NewMatch(cfg), calls);
  }

  // ---- publication ----------------------------------------------------------------

  lemma {:induction false} TickNeverFalls(cfg: ValidConfig, m: LiveMatch, calls: seq<Call>)
    requires Durable(cfg, m)
    ensures m.mem.tick <= Run(cfg, m, calls).mem.tick
  {
    hide Next, Durable;
    if calls == [] {
    } else {
      var before := calls[..|calls| - 1];
      TickNeverFalls(cfg, m, before);
      NeverDriftsApart(cfg, m, before);
      TickMoves(cfg, Run(cfg, m, before), calls[|calls| - 1]);
    }
  }

  /** Publications carry strictly increasing ticks, each a whole transition: none is ever published twice. */
  lemma {:induction false} PublishedOnce(cfg: ValidConfig, m: LiveMatch, first: Call, between: seq<Call>, second: Call,
                                        e: Event, f: Event)
    requires Durable(cfg, m)
    requires e in Published(cfg, m, first)
    requires f in Published(cfg, Run(cfg, Next(cfg, m, first), between), second)
    ensures e.tick < f.tick
  {
    hide Next, Published, Durable, Run;
    NextPublishes(cfg, m, first);
    NextDurable(cfg, m, first);
    TickNeverFalls(cfg, Next(cfg, m, first), between);
    NextPublishes(cfg, Run(cfg, Next(cfg, m, first), between), second);
  }

  // ---- what an action is answered ---------------------------------------------------

  /** The sequence is one a client may use. */
  predicate Usable(seqNo: int) { 1 <= seqNo && seqNo != MAX_INT64 }

  /** Which answer an action gets: each of them exactly when this holds. */
  ghost predicate Deserves(cfg: ValidConfig, m: LiveMatch, call: Call, r: Reply)
    requires call.Act?
  {
    var heard := call.sid in m.sessions && m.sessions[call.sid].bound;
    match r
    case Unbound => !heard
    case OutOfRange => heard && !Usable(call.seqNo)
    case Stale =>
      heard && Usable(call.seqNo) &&
      (call.seqNo < m.sessions[call.sid].lastSeq
       || (call.seqNo == m.sessions[call.sid].lastSeq && m.sessions[call.sid].lastAck == None))
    case RefusedBy(e) =>
      && heard && Usable(call.seqNo) && m.sessions[call.sid].lastSeq < call.seqNo
      && Apply(cfg, m.mem, m.sessions[call.sid].player, call.action, call.dice) == Err(e)
    case NotDurable =>
      ActReaches(cfg, m, call.sid, call.seqNo, call.action, call.dice) && !(InSync(m) && call.outcome == Succeeds)
    case Acked(ack, replayed) =>
      if replayed then
        && heard && Usable(call.seqNo) && call.seqNo == m.sessions[call.sid].lastSeq
        && m.sessions[call.sid].lastAck.Some? && ack == m.sessions[call.sid].lastAck.value.(events := [])
      else ActReaches(cfg, m, call.sid, call.seqNo, call.action, call.dice) && InSync(m) && call.outcome == Succeeds
  }

  /** Every action gets the answer it deserves. */
  lemma {:induction false} RepliesAsDeserved(cfg: ValidConfig, m: LiveMatch, call: Call)
    requires Durable(cfg, m) && call.Act?
    ensures Deserves(cfg, m, call, ReplyOf(cfg, m, call))
  {
    hide Durable, Apply, Retain, BaseAfter, SnapshotFor, Reconcile, InSync;
    if ActReaches(cfg, m, call.sid, call.seqNo, call.action, call.dice) {
      CommitDeserved(cfg, m, call);
    }
  }

  lemma {:induction false} CommitDeserved(cfg: ValidConfig, m: LiveMatch, call: Call)
    requires Durable(cfg, m) && call.Act? && ActReaches(cfg, m, call.sid, call.seqNo, call.action, call.dice)
    ensures var t := Apply(cfg, m.mem, m.sessions[call.sid].player, call.action, call.dice).value;
            Commit(m.db, t.next, Stamped(t.facts, t.next.tick), None, call.outcome).ok <==> InSync(m) && call.outcome == Succeeds
  {
    hide Durable, Apply, Commit, InSync;
    var i := Input(m.sessions[call.sid].player, call.action, call.dice);
    assert Accepted(cfg, m.mem, i);
    CommittedDurable(cfg, m, i, None, call.outcome);
  }

  /** What an acknowledgement shows: this state, and exactly what the player may do in it, joins apart. */
  ghost predicate Shown(cfg: ValidConfig, snapshot: Snapshot, s: State, viewer: PlayerId) {
    && snapshot.state == s
    && forall t: ActionType :: t != TJoin ==> (t in snapshot.legal <==> AcceptsType(cfg, s, viewer, t))
  }

  lemma {:induction false} SnapshotShown(cfg: ValidConfig, s: State, viewer: PlayerId)
    requires Inv(cfg, s)
    ensures Shown(cfg, SnapshotFor(cfg, s, viewer), s, viewer)
    ensures TJoin !in SnapshotFor(cfg, s, viewer).legal
  {
    forall t: ActionType | t != TJoin ensures t in LegalActions(cfg, s, viewer) <==> AcceptsType(cfg, s, viewer, t) {
      LegalityExact(cfg, s, viewer, t);
      NotBoth(cfg, s, viewer, t);
    }
    hide Inv, AcceptsType, RefusesType, CanStart;
  }

  lemma {:induction false} NotBoth(cfg: ValidConfig, s: State, viewer: PlayerId, t: ActionType)
    ensures !(AcceptsType(cfg, s, viewer, t) && RefusesType(cfg, s, viewer, t))
  {
    hide Accepts;
    if AcceptsType(cfg, s, viewer, t) {
      var a :| TypeOf(a) == t && forall d: Dice :: Accepts(cfg, s, viewer, a, d);
      assert Accepts(cfg, s, viewer, a, NO_DICE);
    }
  }

  /**
   In every run a fresh success is acknowledged with the state the call leaves, what its own player may now do there, and
   exactly the events that are published, which are at least one; and it hints at the next sequence.
   */
  lemma {:induction false} AckShowsOutcome(cfg: ValidConfig, calls: seq<Call>, call: Call)
    requires PossibleRun(cfg, NewMatch(cfg), calls)
    requires call.Act? && Fresh(cfg, Run(cfg, NewMatch(cfg), calls), call.sid, call)
    ensures var m := Run(cfg, NewMatch(cfg), calls);
            var n, ack := Next(cfg, m, call), ReplyOf(cfg, m, call).ack;
            && call.sid in m.sessions && Shown(cfg, ack.snapshot, n.mem, m.sessions[call.sid].player)
            && ack.events == Published(cfg, m, call) != [] && ack.nextSeq == call.seqNo + 1
  {
    hide PossibleRun, Run, NewMatch, Durable, Next, Published, Fresh, ReplyOf, Shown;
    var m := Run(cfg, NewMatch(cfg), calls);
    NewMatchDurable(cfg);
    NeverDriftsApart(cfg, NewMatch(cfg), calls);
    FreshLeaves(cfg, m, call);
    NextDurable(cfg, m, call);
    MemorySound(cfg, Next(cfg, m, call));
    SnapshotShown(cfg, Next(cfg, m, call).mem, m.sessions[call.sid].player);
  }

  lemma MemorySound(cfg: ValidConfig, m: LiveMatch)
    requires Durable(cfg, m)
    ensures Inv(cfg, m.mem)
  {
  }

  lemma {:induction false} FreshLeaves(cfg: ValidConfig, m: LiveMatch, call: Call)
    requires call.Act? && Fresh(cfg, m, call.sid, call)
    ensures var n, ack := Next(cfg, m, call), ReplyOf(cfg, m, call).ack;
            && call.sid in m.sessions && ack.snapshot == SnapshotFor(cfg, n.mem, m.sessions[call.sid].player)
            && ack.events == Published(cfg, m, call) != [] && ack.nextSeq == call.seqNo + 1
  {
    hide Apply, Commit, Retain, BaseAfter, SnapshotFor;
    if ActReaches(cfg, m, call.sid, call.seqNo, call.action, call.dice) {
      AcceptedExplains(cfg, m.mem, m.sessions[call.sid].player, call.action, call.dice);
    }
  }

  /** Whoever asks to resume is shown memory as it is, and exactly what they may do in it; without a cursor, nothing more. */
  lemma {:induction false} ResumeShows(cfg: ValidConfig, calls: seq<Call>, cursor: Option<int>, viewer: PlayerId)
    requires PossibleRun(cfg, NewMatch(cfg), calls) && (cursor.Some? ==> Int64(cursor.value))
    ensures var m := Run(cfg, NewMatch(cfg), calls);
            var r := ResumeFor(cfg, m, cursor, viewer);
            Shown(cfg, r.snapshot, m.mem, viewer) && (cursor == None ==> r.events == [] && !r.resync)
  {
    hide PossibleRun, Run, NewMatch, Durable, Shown, Since, SnapshotFor;
    var m := Run(cfg, NewMatch(cfg), calls);
    NewMatchDurable(cfg);
    NeverDriftsApart(cfg, NewMatch(cfg), calls);
    MemorySound(cfg, m);
    SnapshotShown(cfg, m.mem, viewer);
  }

  // ---- what a connection is ------------------------------------------------------------

  /** The connection was attached, and has not been closed since. */
  function Open(calls: seq<Call>, sid: SessionId): bool {
    if calls == [] then false
    else
      match calls[|calls| - 1]
      case Attach(x, _, found) => (x == sid && found.Some?) || Open(calls[..|calls| - 1], sid)
      case Detach(x) => x != sid && Open(calls[..|calls| - 1], sid)
      case _ => Open(calls[..|calls| - 1], sid)
  }

  /** The seat it was last attached to. */
  function BoundTo(calls: seq<Call>, sid: SessionId): PlayerId {
    if calls == [] then NoPlayer
    else
      match calls[|calls| - 1]
      case Attach(x, _, found) => if x == sid && found.Some? then found.value else BoundTo(calls[..|calls| - 1], sid)
      case _ => BoundTo(calls[..|calls| - 1], sid)
  }

  /** It was opened for publication while it has been open. */
  function Listening(calls: seq<Call>, sid: SessionId): bool {
    if calls == [] then false
    else
      var before := calls[..|calls| - 1];
      match calls[|calls| - 1]
      case Deliver(x) => if x == sid then Open(before, sid) else Listening(before, sid)
      case Detach(x) => x != sid && Listening(before, sid)
      case _ => Listening(before, sid)
  }

  /** Its last fresh success while it has been open: the sequence, and the acknowledgement. */
  ghost function LastFresh(cfg: ValidConfig, m: LiveMatch, calls: seq<Call>, sid: SessionId): Option<(int, Ack)> {
    if calls == [] then None
    else
      var before, call := calls[..|calls| - 1], calls[|calls| - 1];
      var n := Run(cfg, m, before);
      if call == Detach(sid) then None
      else if call.Act? && Fresh(cfg, n, sid, call) then Some((call.seqNo, ReplyOf(cfg, n, call).ack))
      else LastFresh(cfg, m, before, sid)
  }

  /** A connection exists exactly while it is open, and is then as the calls made it. */
  ghost predicate AsCalled(cfg: ValidConfig, m: LiveMatch, calls: seq<Call>, n: LiveMatch, sid: SessionId) {
    var last := LastFresh(cfg, m, calls, sid);
    && (sid in n.sessions <==> Open(calls, sid))
    && (!Open(calls, sid) ==> !Listening(calls, sid) && last == None)
    && (sid in n.sessions ==>
          n.sessions[sid] == Session(BoundTo(calls, sid), true, true, Listening(calls, sid),
                                     if last.Some? then last.value.0 else 0,
                                     if last.Some? then Some(last.value.1) else None))
  }

  lemma {:induction false} StepAsCalled(cfg: ValidConfig, m: LiveMatch, calls: seq<Call>, call: Call, sid: SessionId)
    requires AsCalled(cfg, m, calls, Run(cfg, m, calls), sid)
    ensures AsCalled(cfg, m, calls + [call], Next(cfg, Run(cfg, m, calls), call), sid)
  {
    hide Run, Apply, Commit, Retain, BaseAfter, SnapshotFor, ClaimTransition;
    assert (calls + [call])[..|calls|] == calls;
    var n := Run(cfg, m, calls);
    assert Open(calls + [call], sid) == match call
                                        case Attach(x, _, found) => (x == sid && found.Some?) || Open(calls, sid)
                                        case Detach(x) => x != sid && Open(calls, sid)
                                        case _ => Open(calls, sid);
    hide Open, BoundTo, Listening, LastFresh;
  }

  /** In every run every connection is exactly what the calls about it made it. */
  lemma {:induction false} SessionsAsCalled(cfg: ValidConfig, calls: seq<Call>, sid: SessionId)
    ensures AsCalled(cfg, NewMatch(cfg), calls, Run(cfg, NewMatch(cfg), calls), sid)
  {
    if calls == [] {
    } else {
      var before, call := calls[..|calls| - 1], calls[|calls| - 1];
      SessionsAsCalled(cfg, before, sid);
      StepAsCalled(cfg, NewMatch(cfg), before, call, sid);
      assert before + [call] == calls;
      hide Next, AsCalled;
    }
  }
}
