/**
 One live match around the engine, as functions on values: seat claims, sessions, durable commits and the
 retained window of events. Class `Match` of module `MatchRuntime` is proved to compute these (match.go).
 */
module Runtime {
  import opened Config
  import opened Domain
  import opened Rules
  import opened Legality
  import opened Store

  const HISTORY_CAP := 1024
  const MAX_INT64 := 0x7fff_ffff_ffff_ffff

  predicate Int64(x: int) { -MAX_INT64 - 1 <= x <= MAX_INT64 }

  type SessionId = nat

  /** What one viewer is shown: the state and what they may do in it. */
  datatype Snapshot = Snapshot(state: State, legal: seq<ActionType>)

  datatype Ack = Ack(events: seq<Event>, snapshot: Snapshot, nextSeq: int)

  /** A connection; `lastAck` is the cached acknowledgement of sequence `lastSeq`. */
  datatype Session = Session(player: PlayerId, bound: bool, connected: bool, ready: bool,
                             lastSeq: int, lastAck: Option<Ack>)

  datatype LiveMatch = LiveMatch(mem: State, history: seq<Event>, base: nat, sessions: map<SessionId, Session>,
                             tokens: map<PlayerId, Token>, db: Database)

  datatype Reply =
    | Unbound | OutOfRange | Stale
    | RefusedBy(error: Error)
    | NotDurable
    | Acked(ack: Ack, replayed: bool)

  datatype ClaimReply =
    | SeatRefused(error: Error) | NoToken | SeatNotDurable
    | SeatClaimed(player: PlayerId, token: Token, events: seq<Event>)

  ghost function SnapshotFor(cfg: ValidConfig, s: State, viewer: PlayerId): Snapshot {
    Snapshot(s, LegalActions(cfg, s, viewer))
  }

  // ---- the retained window ----------------------------------------------------

  /** The first index from `drop` on whose tick is not the one before it. */
  function CutAt(h: seq<Event>, drop: nat): (cut: nat)
    requires 0 < drop <= |h|
    ensures drop <= cut <= |h|
    decreases |h| - drop
  {
    if drop == |h| || h[drop].tick != h[drop - 1].tick then drop else CutAt(h, drop + 1)
  }

  /** Cuts the oldest whole transitions until at most the cap is left. */
  function Retain(h: seq<Event>): seq<Event> {
    if |h| <= HISTORY_CAP then h else h[CutAt(h, |h| - HISTORY_CAP)..]
  }

  /** Oldest retained tick, 0 until something has been dropped. */
  function BaseAfter(h: seq<Event>, base: nat): nat {
    if |h| <= HISTORY_CAP || Retain(h) == [] then base else Retain(h)[0].tick
  }

  /** Installs a committed transition. */
  function Install(m: LiveMatch, next: State, events: seq<Event>): LiveMatch {
    m.(mem := next, history := Retain(m.history + events), base := BaseAfter(m.history + events, m.base))
  }

  // ---- seat claims ------------------------------------------------------------

  ghost function ClaimTransition(cfg: ValidConfig, s: State, name: string): Result<Transition> {
    if s.phase != Lobby then Err(ErrAlreadyStarted) else Apply(cfg, s, NoPlayer, Join(name), NO_DICE)
  }

  /** Claims a seat: a failed commit changes nothing in memory, and is not looked into. */
  ghost function ClaimSeat(cfg: ValidConfig, m: LiveMatch, name: string, token: Option<Token>, outcome: Outcome)
    : (LiveMatch, ClaimReply)
  {
    var t := ClaimTransition(cfg, m.mem, name);
    if t.Err? then (m, SeatRefused(t.error))
    else if token == None then (m, NoToken)
    else
      var next, player := t.value.next, t.value.facts[0].id;
      var events := Stamped(t.value.facts, next.tick);
      var c := Commit(m.db, next, events, Some(SeatRow(player, token.value)), outcome);
      if !c.ok then (m.(db := c.db), SeatNotDurable)
      else
        (Install(m, next, events).(db := c.db, tokens := m.tokens[player := token.value]),
         SeatClaimed(player, token.value, events))
  }

  // ---- sessions ---------------------------------------------------------------

  /** `found` is the seat this token opens, if it opens any. */
  ghost predicate Finds(m: LiveMatch, token: Token, found: Option<PlayerId>) {
    match found
    case None => token == "" || forall id :: id in m.tokens ==> m.tokens[id] != token
    case Some(id) => token != "" && id in m.tokens && m.tokens[id] == token
  }

  /** A rebound connection keeps its watermark. */
  function Bind(m: LiveMatch, sid: SessionId, found: Option<PlayerId>): LiveMatch {
    if found == None then m
    else
      var s := if sid in m.sessions then m.sessions[sid] else Session(NoPlayer, false, false, false, 0, None);
      m.(sessions := m.sessions[sid := s.(player := found.value, bound := true, connected := true)])
  }

  function Disconnect(m: LiveMatch, sid: SessionId): LiveMatch { m.(sessions := m.sessions - {sid}) }

  function MarkReady(m: LiveMatch, sid: SessionId): LiveMatch {
    if sid in m.sessions then m.(sessions := m.sessions[sid := m.sessions[sid].(ready := true)]) else m
  }

  // ---- actions ----------------------------------------------------------------

  predicate BoundSession(m: LiveMatch, sid: SessionId) { sid in m.sessions && m.sessions[sid].bound }

  /** The durable cursor is read back: if it moved the commit happened, and memory adopts what is stored. */
  function Reconcile(m: LiveMatch, prev: State, readable: bool): LiveMatch {
    if readable && m.db.cursor == prev.tick + 1 then m.(mem := m.db.state) else m.(mem := prev)
  }

  /** The commit of an action the engine accepted. */
  ghost function CommitAction(cfg: ValidConfig, m: LiveMatch, sid: SessionId, seqNo: int, t: Transition,
                              outcome: Outcome, readable: bool): (LiveMatch, Reply)
    requires sid in m.sessions
  {
    var s, events := m.sessions[sid], Stamped(t.facts, t.next.tick);
    var c := Commit(m.db, t.next, events, None, outcome);
    if !c.ok then (Reconcile(m.(db := c.db), m.mem, readable), NotDurable)
    else
      var ack := Ack(events, SnapshotFor(cfg, t.next, s.player), seqNo + 1);
      (Install(m, t.next, events).(db := c.db, sessions := m.sessions[sid := s.(lastSeq := seqNo, lastAck := Some(ack))]),
       Acked(ack, false))
  }

  ghost function ApplyAction(cfg: ValidConfig, m: LiveMatch, sid: SessionId, seqNo: int, action: Action, dice: Dice,
                             outcome: Outcome, readable: bool): (LiveMatch, Reply)
  {
    if !BoundSession(m, sid) then (m, Unbound)
    else
      var s := m.sessions[sid];
      if seqNo < 1 || seqNo == MAX_INT64 then (m, OutOfRange)
      else if seqNo <= s.lastSeq then
        if s.lastAck == None || seqNo != s.lastSeq then (m, Stale)
        else (m, Acked(s.lastAck.value.(events := []), true))
      else
        var t := Apply(cfg, m.mem, s.player, action, dice);
        if t.Err? then (m, RefusedBy(t.error))
        else CommitAction(cfg, m, sid, seqNo, t.value, outcome, readable)
  }

  // ---- catch-up ---------------------------------------------------------------

  function Later(h: seq<Event>, cursor: int): seq<Event> {
    if h == [] then []
    else Later(h[..|h| - 1], cursor) + if h[|h| - 1].tick > cursor then [h[|h| - 1]] else []
  }

  /** Retained events strictly after a cursor, or nothing if it is out of the window's reach. */
  function Since(m: LiveMatch, cursor: nat): Option<seq<Event>> {
    if m.history == [] then if cursor == 0 then Some([]) else None
    else if cursor + 1 < m.base then None
    else if cursor > m.mem.tick then None
    else Some(Later(m.history, cursor))
  }

  /** The wire's signed cursor, read as unsigned. */
  function Unsigned(cursor: int): nat
    requires Int64(cursor)
  {
    if cursor < 0 then cursor + 0x1_0000_0000_0000_0000 else cursor
  }

  datatype Resume = Resume(snapshot: Snapshot, events: seq<Event>, resync: bool)

  ghost function ResumeFor(cfg: ValidConfig, m: LiveMatch, cursor: Option<int>, viewer: PlayerId): Resume
    requires cursor.Some? ==> Int64(cursor.value)
  {
    var snap := SnapshotFor(cfg, m.mem, viewer);
    if cursor == None then Resume(snap, [], false)
    else
      var c := Unsigned(cursor.value);
      if c > m.mem.tick then Resume(snap, [], true)
      else
        var events := Since(m, c);
        if events == None || events.value == [] then Resume(snap, [], 0 < c < m.mem.tick)
        else Resume(snap, events.value, false)
  }

  // ---- everything a match is asked to do ----------------------------------------

  datatype Call =
    | Claim(name: string, token: Option<Token>, outcome: Outcome)
    | Attach(sid: SessionId, secret: Token, found: Option<PlayerId>)
    | Detach(sid: SessionId)
    | Deliver(sid: SessionId)
    | Act(sid: SessionId, seqNo: int, action: Action, dice: Dice, outcome: Outcome, readable: bool)

  /** A minted token is not empty, sequence numbers fit the wire, and no join arrives on a connection. */
  ghost predicate Possible(m: LiveMatch, call: Call) {
    match call
    case Claim(_, token, _) => token != Some("")
    case Attach(_, secret, found) => Finds(m, secret, found)
    case Act(_, seqNo, action, _, _, _) => Int64(seqNo) && !action.Join?
    case Detach(_) => true
    case Deliver(_) => true
  }

  ghost function Next(cfg: ValidConfig, m: LiveMatch, call: Call): LiveMatch {
    match call
    case Claim(name, token, outcome) => ClaimSeat(cfg, m, name, token, outcome).0
    case Attach(sid, secret, found) => Bind(m, sid, found)
    case Detach(sid) => Disconnect(m, sid)
    case Deliver(sid) => MarkReady(m, sid)
    case Act(sid, seqNo, action, dice, outcome, readable) =>
      ApplyAction(cfg, m, sid, seqNo, action, dice, outcome, readable).0
  }

  /** The runtime after a run; the lock makes every call atomic, so a run is a sequence of calls. */
  ghost function Run(cfg: ValidConfig, m: LiveMatch, calls: seq<Call>): LiveMatch {
    if calls == [] then m else Next(cfg, Run(cfg, m, calls[..|calls| - 1]), calls[|calls| - 1])
  }

  ghost predicate PossibleRun(cfg: ValidConfig, m: LiveMatch, calls: seq<Call>) {
    calls != [] ==>
      PossibleRun(cfg, m, calls[..|calls| - 1]) && Possible(Run(cfg, m, calls[..|calls| - 1]), calls[|calls| - 1])
  }

  ghost function ReplyOf(cfg: ValidConfig, m: LiveMatch, call: Call): Reply
    requires call.Act?
  {
    ApplyAction(cfg, m, call.sid, call.seqNo, call.action, call.dice, call.outcome, call.readable).1
  }

  /** What the call hands to the broadcast: a replayed acknowledgement hands over nothing. */
  ghost function Published(cfg: ValidConfig, m: LiveMatch, call: Call): seq<Event> {
    match call
    case Claim(name, token, outcome) =>
      var r := ClaimSeat(cfg, m, name, token, outcome).1;
      if r.SeatClaimed? then r.events else []
    case Act(sid, seqNo, action, dice, outcome, readable) =>
      var r := ApplyAction(cfg, m, sid, seqNo, action, dice, outcome, readable).1;
      if r.Acked? && !r.replayed then r.ack.events else []
    case Attach(_, _, _) => []
    case Detach(_) => []
    case Deliver(_) => []
  }

  /** A match as created: board built, nobody seated, nothing logged. */
  ghost function NewMatch(cfg: ValidConfig): LiveMatch {
    var s := NewState(NewBoard(cfg));
    LiveMatch(s, [], 0, map[], map[], Database(s, 0, map[], map[]))
  }
}
