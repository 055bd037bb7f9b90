/** The values of a match: players, spaces, turn, state, actions and events (state.go, board.go, action.go, event.go). */
module Domain {
  import opened Config

  datatype Option<+T> = None | Some(value: T)

  datatype Result<+T> = Ok(value: T) | Err(error: Error)

  /** Ids are minted from the seat alone, injectively; `NoPlayer` is the empty id. */
  datatype PlayerId = NoPlayer | Pl(seat: nat)

  datatype Phase = Lobby | Playing | Ended | Interrupted

  datatype TurnPhase = NoTurn | AwaitRoll | AwaitBuyDecision | TurnOver

  datatype Status = Active | Eliminated | Disconnected

  datatype Player = Player(id: PlayerId, name: string, seat: nat, money: int, status: Status,
                           ready: bool, isHost: bool, position: int)

  /** A board space with live ownership; `def` is its configured, unchanging part. */
  datatype Space = Space(def: BoardSpace, owned: bool, owner: PlayerId, level: int)

  datatype Turn = Turn(seat: nat, phase: TurnPhase, round: int, streak: int, award: bool)

  datatype EndReason = NoReason | ByLastStanding | ByShortage | ByTargetWealth | ByRoundLimit

  datatype State = State(phase: Phase, tick: nat, players: seq<Player>, spaces: seq<Space>, turn: Turn,
                         winner: Option<PlayerId>, endReason: EndReason)

  datatype Cause = BankruptcyTax | BankruptcyRent | VoluntaryLeave

  datatype BankReason = PassGo | LandGo | TaxDue

  datatype Direction = ToPlayer | ToBank

  /** What an event says; the tick is stamped on by the engine. */
  datatype Fact =
    | PlayerJoined(id: PlayerId, name: string, seat: nat, startingMoney: int)
    | PlayerLeft(id: PlayerId)
    | ReadyChanged(id: PlayerId, ready: bool)
    | GameStarted
    | PlayerEliminated(id: PlayerId, cause: Cause)
    | GameEnded(winner: Option<PlayerId>, reason: EndReason)
    | DiceRolled(id: PlayerId, die1: int, die2: int, fromSpace: string, toSpace: string, passedGo: bool)
    | PropertyBought(id: PlayerId, space: string, price: int)
    | BuyDeclined(id: PlayerId, space: string)
    | RentPaid(payer: PlayerId, payee: PlayerId, space: string, amount: int)
    | BankTransfer(id: PlayerId, amount: int, direction: Direction, why: BankReason)
    | PlayerBankrupt(id: PlayerId, cause: Cause, creditor: PlayerId, owed: int, released: seq<string>)
    | TurnAdvanced(seat: nat, round: int)

  datatype Event = Event(tick: nat, fact: Fact)

  datatype Action = Join(name: string) | Leave | Ready(ready: bool) | Start | Roll | Buy | Decline | EndTurn

  datatype ActionType = TJoin | TLeave | TReady | TStart | TRoll | TBuy | TDecline | TEndTurn

  function TypeOf(a: Action): ActionType {
    match a
    case Join(_) => TJoin
    case Leave => TLeave
    case Ready(_) => TReady
    case Start => TStart
    case Roll => TRoll
    case Buy => TBuy
    case Decline => TDecline
    case EndTurn => TEndTurn
  }

  datatype Error =
    | ErrOutOfPhase | ErrNotPermitted | ErrGameFull | ErrNotEnoughPlayers | ErrNoChange | ErrAlreadyStarted
    | ErrNotAllReady | ErrInvalidName | ErrPlayerNotInGame | ErrNotYourTurn | ErrCorrupt

  datatype DicePair = DicePair(d1: int, d2: int)

  /** Two dice, whatever the generator draws. */
  type Dice = d: DicePair | 1 <= d.d1 <= 6 && 1 <= d.d2 <= 6 witness DicePair(1, 1)

  /** For the actions that draw no dice. */
  const NO_DICE: Dice := DicePair(1, 1)

  const MAX_DISPLAY_NAME_LEN := 32

  predicate NameOk(name: string) { 1 <= |name| <= MAX_DISPLAY_NAME_LEN }
}
