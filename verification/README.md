# HighJack, verified

HighJack is a server-authoritative board game. This project models its match engine, the runtime that makes a
match durable and serves its clients, the action limiter and the client's event-driven reducer, and proves what
they promise for every configuration, roster, action sequence, dice roll, storage outcome and delivery order.

## How it is laid out

The match is described twice. `Rules` says what every action does, as functions on values; every theorem about a
match is a lemma about those functions. `States`, `BoardRuleset`, `LifecycleRuleset` and `Engine` are the code as it
runs: a `GameState` object holds its players and spaces in arrays, a handler writes them in place on a clone, and each
method is proved to compute exactly its function of `Rules`, on storage of its own. The runtime is built the same
way: `Runtime` has the steps as functions on a `LiveMatch` value, `MatchRuntime.Match` and `Store.MatchStore` are the
classes proved to take them. So are the limiter (`Limiter`) and the client (`Client`, `ClientStore`).

What these functions come to is stated once more without naming them: `Effects` tells every action by balances, places,
deeds, readiness, the turn and the log, `Answers` says who is refused and why, `Sessions` what an acknowledgement shows and
what a connection is, `Keys` what a claimant is handed and what the store keeps of it.

| module | what is in it |
|---|---|
| `Config`, `Domain` | configuration and its validator; players, spaces, turns, actions, events |
| `Seats`, `Roster`, `Rules` | lookup by id and seat; seat order; what every action does |
| `States`, `BoardRuleset`, `LifecycleRuleset`, `Engine` | the engine in place on arrays, proved against `Rules` |
| `Invariant`, `Runs`, `Outcomes` | what every reachable state satisfies; runs; victory, rolls, host succession |
| `Effects`, `Answers` | what every action comes to, event by event; who is answered what, in any state |
| `Legality` | the legality projection is exact |
| `Turns`, `Rotation`, `Termination` | the turn over runs: fairness, finite turns, finite matches |
| `Economy`, `Ledger` | bounds on money; the event log explains every balance and title |
| `Client`, `Simulation`, `ClientStore` | the client's fold follows the server; redelivery |
| `Views` | what a view shows of the lobby and of the stage of a turn |
| `Reflection`, `Overtaken` | a transition that arrives at a screen already showing a later state |
| `Store`, `Runtime`, `MatchRuntime` | atomic commits, the live match, the connection's side of an action |
| `Durability`, `CatchUp`, `Sessions`, `Faults` | memory against store, catch-up, sequence numbers, lost claims and adoptions |
| `Authority`, `Keys` | which seats a token opens, and whose connections a seat answers to; keys handed out, durable seat rows |
| `EndToEnd`, `Frames` | from the match lock to the screen; a catch-up frame of several ticks |
| `Limiter` | the forgetting limiter answers as one that never forgets |

Dice are an arbitrary pair in 1..6 and a player id is an injective function of the seat, as it is derived from the
seat alone. A validated configuration is the subset type `Config.ValidConfig`, and `Config.Validate` is proved to
report no issue exactly on it. A run is any sequence of inputs by anyone; a refused input changes nothing. The match
lock makes every call on a live match atomic, so a run of the runtime is a sequence of calls. A commit has one of
three outcomes, and whether a read-back succeeds is an input of each action.

## What turned out not to hold

Six promises fail. Each has the input that breaks it and the exact condition under which it holds.

* **A seat claim is not reconciled.** `server/internal/match/match.go:54-55` says that an indeterminate commit is
  reconciled rather than trusted; an action's is, a seat claim's is not (`match.go:217-226`). A claim in step with the
  store breaks step exactly when it commits but is reported as failed, and no claim ever mends that
  (`Durability.ClaimDurable`). On a fresh match nobody can be bound, so no action can mend it either: the match is shut
  for ever (`Faults.FirstClaimShuts`, `Faults.ShutForEver`).
* **A lost claim can orphan its seat.** When a later action reads such a claim back, whatever was asked of the match in
  between, memory takes over a seat whose token was discarded. Some token opens that seat exactly if somebody held the
  seat before, and it is then the earlier holder's; otherwise nobody can ever act for it, it is never ready, and the
  match never leaves its lobby (`Authority.LostClaimOpens`, `Faults.OrphanForEver`; four calls get there,
  `Faults.OrphanArises`). In a run that loses no claim every seat taken is opened by some token
  (`Authority.EverySeatOpens`).
* **An adopted transition reaches nobody.** A transition taken over by reading it back is neither published nor appended
  to the history. Through any run of a started match, a connected screen fed everything published stays in step exactly
  if no transition it would show is adopted, and all are shown but declined purchases, departures of the eliminated and
  rolls that leave every player as they were and the match running (`EndToEnd.InStepExactly`, `EndToEnd.UnseenExactly`);
  any adopted purchase is an input (`EndToEnd.AdoptionMissed`). And in every run and for every cursor, a returning client
  is served without an adopted tick, and not told to resynchronise, exactly when one lies after its cursor, the window
  reaches back to the cursor, and there is anything later to serve (`CatchUp.SkipsExactlyAdopted`; four calls get there,
  `Faults.SkipArises`). What was published is always served exactly (`CatchUp.ResumeIsExact`).
* **A snapshot marks no tick as applied.** `docs/game/GAME_DESIGN.md:94-95` makes the tick the client's dedup key. Let a
  screen, by whatever route, already show some state the match reached with or after a transition of running play, and
  let that transition's events arrive. The screen is still right exactly if their tick is marked, or the state shown
  still has everything they say and its balances survive their amounts once more (`Overtaken.RightExactly`). Read before
  the events are folded, that is:
  - an ended turn: the turn has not moved on since (`Overtaken.EndTurnRightExactly`);
  - a declined purchase: always (`Overtaken.DeclineAlwaysRight`);
  - a departure: nothing given up has been bought since and the turn, if it was the leaver's, has not moved on
    (`Overtaken.LeaveRightExactly`);
  - a purchase: the space is still the buyer's, who has no money left (`Overtaken.BuyRightExactly`);
  - a roll: the roller stands where it led, what a bankruptcy gave up is still free and the turn has not moved on since
    it, and it named no rent and its bonus and tax once more change nothing (`Overtaken.RollRightExactly`).

  Two inputs: a given match reaches a purchase that is charged twice (`Overtaken.ChargedTwiceArises`), and in any running
  match with three players or more an ended turn is put back on screen once its next holder has left
  (`Overtaken.TurnPutBack`). While the snapshot comes first and transitions follow in order, the view stays right under
  any redelivery within the bound (`ClientStore.ViewFollowsMatch`), and the bound of 2048 is tight
  (`ClientStore.ForgottenAtTheBound`).
* **A tick can be applied twice.** `apps/game/src/state/game-store.ts:236` applies a tick at most once, but of a catch-up
  frame only the first tick is marked. Any other of its ticks is folded again when delivered again, exactly unless it was
  marked before (`ClientStore.CatchUpMarksFirstTick`), and the screen is then right as above. Nine calls get a client
  served a frame of two ticks whose purchase is then charged twice (`Frames.FrameChargesTwice`).
* **A connection can act for somebody else's player.** `docs/game/GAME_DESIGN.md:90` binds an actor by its token, but a
  player who leaves the lobby stays bound, and the next claim of that seat mints the same id. Five calls make the old
  connection ready the newcomer (`Authority.OldConnectionActsForNewcomer`). In every run, every connection acts at every
  moment for the seat its token opens, exactly if no claim takes a seat whose id a connection still carries, under
  another token (`Authority.RightfulUntilDisplaced`). If such a claim is lost and read back, no other token is minted:
  the old one keeps opening the seat, and the old connection acts for the newcomer all the same
  (`Authority.LostClaimOpens`).

The round limit is passed by one round, and only by a departure: `Termination.OneRoundPast` and
`Termination.PastLimitExactly` say exactly when.

A view keeps whoever leaves the lobby: `apps/game/src/state/game-store.ts:313-318` marks a leaver as eliminated, where the
server removes them and frees the seat. Of what a lobby accepts a view follows every join and toggle, and the start exactly
if the match was created with its board (`Views.LobbyFollows`); it follows no departure, and differs by exactly the leaver
still listed (`Views.LobbyLeaverStays`). Of the stage of a turn it shows what it was when the turn was last passed on
(`Views.StageFollows`).

## Model

| member | source | states |
|---|---|---|
| Config.Validate | server/internal/game/config_validate.go:109-121 | reports exactly the structural faults, or, if there are none, exactly the semantic ones; nothing exactly when the configuration is valid |
| Config.ValidateStructural | server/internal/game/config_validate.go:123-174 | an issue is reported exactly for every field whose bound is broken and every fault of the board |
| Config.ValidateBoardStructural | server/internal/game/config_validate.go:176-223 | a board of the wrong size is that one issue; otherwise exactly the faults of the first space and of every space, repeated ids included |
| Config.SpaceIssues | server/internal/game/config_validate.go:189-221 | exactly the faults of this space, its id refused if an earlier space has it |
| Config.ValidateSemantics | server/internal/game/config_validate.go:225-260 | an issue is reported exactly for every cross-field rule that is broken |
| Config.StructureNothingWrong | server/internal/game/config_validate.go:123-174 | a configuration has the right structure exactly when none of its fields is at fault |
| Config.BoardNothingWrong | server/internal/game/config_validate.go:176-223 | a board is well formed exactly when no space of it is at fault, ids being unique exactly when none is repeated |
| States.GameState.constructor | server/internal/game/engine.go:41-48 | a new match is an empty lobby on storage of its own |
| States.GameState.Clone | server/internal/game/state.go:60-82 | the copy has the same value and shares no writable storage |
| States.GameState.PlayerIndex | server/internal/game/state.go:84-92 | finds the first player with the id, or none |
| States.GameState.Host | server/internal/game/state.go:94-102 | finds the first host, or none |
| States.GameState.ActivePlayers | server/internal/game/state.go:104-118 | lists exactly the active players, each as often as the roster does, by rising seat; strictly, if no seat is shared |
| States.GameState.ActivePlayerCount | server/internal/game/state.go:120-132 | counts the active players |
| Seats.ActivesCounted | server/internal/game/state.go:120-132 | if no seat is shared, the count is that of the distinct active seats |
| States.GameState.NextSeat | server/internal/game/state.go:134-145 | finds the lowest seat nobody holds |
| States.GameState.PropertiesOf | server/internal/game/board.go:86-95 | lists what a player owns in board order |
| States.GameState.NetWorth | server/internal/game/board.go:97-110 | money plus the price of every space owned, 0 for a stranger |
| States.GameState.RichestActive | server/internal/game/board.go:112-130 | the one active player whom nobody exceeds in worth, nor equals from a lower seat |
| BoardRuleset.AdvanceSeat | server/internal/game/board.go:132-152 | the least active seat above, or the least of all with the round advanced |
| BoardRuleset.EvaluateMatchEnd | server/internal/game/board.go:154-197 | ends the match in place exactly as the victory conditions in their priority say |
| BoardRuleset.MaybeEndForInsufficientPlayers | server/internal/game/lifecycle.go:239-261 | ends a playing match exactly when fewer than two active players are left |
| BoardRuleset.RequireTurn | server/internal/game/board_ruleset.go:33-69 | the first of the shared preconditions that fails, or none |
| BoardRuleset.ReleaseHoldings | server/internal/game/board_ruleset.go:237-248 | frees exactly the owner's spaces in place and names them in board order |
| BoardRuleset.GoBankrupt | server/internal/game/board_ruleset.go:250-273 | eliminates the player, reverts their spaces and passes the turn on, in one step |
| BoardRuleset.Land | server/internal/game/board_ruleset.go:171-223 | applies the space landed on, with every branch of tax, rent, offer and insolvency, or reports it corrupt |
| BoardRuleset.MoveToken | server/internal/game/board_ruleset.go:92-124 | quotient and remainder move the player and pay the bonus as walking space by space does |
| BoardRuleset.Roll | server/internal/game/board_ruleset.go:71-162 | a roll computes the specified transition or refusal on fresh storage |
| BoardRuleset.Buy | server/internal/game/board_ruleset.go:275-309 | a purchase computes the specified transition or refusal on fresh storage |
| BoardRuleset.Decline | server/internal/game/board_ruleset.go:311-338 | a refusal to buy computes the specified transition or refusal on fresh storage |
| BoardRuleset.EndTurn | server/internal/game/board_ruleset.go:340-358 | ending a turn computes the specified transition or refusal on fresh storage |
| LifecycleRuleset.Join | server/internal/game/lifecycle.go:33-76 | a join computes the specified transition or refusal on fresh storage |
| LifecycleRuleset.Leave | server/internal/game/lifecycle.go:78-158 | a departure computes the specified transition or refusal on fresh storage |
| LifecycleRuleset.RemoveFromLobby | server/internal/game/lifecycle.go:92-111 | the roster without the leaver, re-sorted and crowned in place if the host left |
| LifecycleRuleset.EliminateLeaver | server/internal/game/lifecycle.go:112-134 | the loop eliminates the leaver once, if still active, and says so |
| LifecycleRuleset.SetReady | server/internal/game/lifecycle.go:160-186 | a toggle computes the specified transition, and a toggle that changes nothing is refused |
| LifecycleRuleset.Start | server/internal/game/lifecycle.go:188-237 | a start computes the specified transition or refusal on fresh storage |
| LifecycleRuleset.MayStart | server/internal/game/legality.go:84-100 | enough active players and every one of them ready |
| LifecycleRuleset.Legal | server/internal/game/legality.go:26-77 | the advertised types, in order |
| Engine.MatchEngine.Apply | server/internal/game/engine.go:50-72 | the input is never written, the result shares no storage with it, and every one of its one or more events carries the new tick |
| Engine.MatchEngine.Handle | server/internal/game/ruleset.go:14-23 | every action reaches the handler that computes its specification |
| Engine.NewEngine | server/internal/game/engine.go:25-36 | an engine exists exactly for a valid configuration |
| Engine.AcceptedExplains | server/internal/game/engine.go:58-72 | an accepted action has at least one event and advances the tick by one |
| Roster.BySeatOrders | server/internal/game/state.go:116-117 | putting players in seat order loses, adds and repeats nobody |
| Roster.BySeatSorts | server/internal/game/state.go:116-117 | on any roster the order keeps everyone as often as before, by rising seat |
| Roster.AnySortIsThis | server/internal/game/state.go:116-117 | if no seat is shared, every sort by seat, stable or not, gives the order of this one |
| Economy.WalkIsDivMod | server/internal/game/board_ruleset.go:92-95 | remainder and quotient are the end and the crossings of a walk one space at a time |
| Economy.CrossingsBounded | server/internal/game/board_ruleset.go:92-95 | two dice close the smallest loop at most six times |
| Economy.GoBonusIsProduct | server/internal/game/board_ruleset.go:112-124 | one bonus per crossing, and no other, is paid |
| Economy.WealthBounded | server/internal/game/board.go:97-110 | in every run all money and titled prices together stay within six million per tick |
| Economy.NoOverflow | server/internal/game/board_ruleset.go:117-124 | below tick 10^12 no balance or net worth, nor one more gain, leaves a signed 64-bit integer |
| Invariant.EvaluateInv | server/internal/game/board.go:158-197 | looking at the victory conditions leaves a playing match undecided for a reason, or a rightly decided one |
| Invariant.BoardMid | server/internal/game/board_ruleset.go:71-358 | every accepted board action uses up part of the turn or passes it on, and eliminates nobody but its holder |
| Invariant.LandingMid | server/internal/game/board_ruleset.go:174-223 | in a reachable match every landing resolves, and keeps roster, deeds and offers consistent |
| Invariant.LeaveMatchInv | server/internal/game/lifecycle.go:112-154 | a mid-match departure keeps the invariant, whoever leaves |
| Invariant.LeaveLobbyInv | server/internal/game/lifecycle.go:92-111 | a lobby departure leaves exactly one host |
| Invariant.JoinInv | server/internal/game/lifecycle.go:33-76 | a join keeps seats and ids distinct and below the maximum |
| Invariant.StartInv | server/internal/game/lifecycle.go:188-237 | a start gives the first turn to an active seat of a built board |
| Invariant.ApplyInv | server/internal/game/engine.go:50-72 | every accepted action keeps the invariant: money, positions, ids, seats, one host, deeds, turn, outcome |
| Runs.RunInv | server/internal/game/engine.go:50-72 | every state of every run satisfies the invariant |
| Runs.EndedIsFinal | server/internal/game/lifecycle.go:78-84 | an ended match accepts nothing |
| Outcomes.VictoryIsSound | server/internal/game/board.go:158-197 | nobody plays on at the target; a match has a winner exactly when ended, the active player whom nobody exceeds in worth nor equals from a lower seat, and never ends with an empty table |
| Outcomes.WinnerIsSetOnce | server/internal/game/state.go:54-56 | nothing after the end changes anything |
| Outcomes.RollLeadsTo | server/internal/game/board_ruleset.go:77-155 | a solvent roller rolls again exactly on earned doubles, and is offered a purchase exactly where one can be paid for |
| Outcomes.DecisionKeepsPromise | server/internal/game/board_ruleset.go:297-302 | buying or declining keeps the extra roll promised and grants none other |
| Outcomes.HostSuccession | server/internal/game/lifecycle.go:92-111 | only the leaver goes; a leaving host is succeeded by the lowest remaining seat |
| Effects.RollPays | server/internal/game/board_ruleset.go:92-223 | after a roll, balance by balance: the roller is paid one bonus per closed loop and then pays the tax, or the rent to its owner, or is out exactly if they cannot, having paid nothing; nobody else changes |
| Effects.RollLeaves | server/internal/game/board_ruleset.go:136-273 | whoever is out has given up exactly their deeds and the turn is the next active seat's; otherwise no deed changes and the turn waits for a purchase, another roll or its end, exactly as offered and earned |
| Effects.RollSpeaks | server/internal/game/board_ruleset.go:97-273 | every event of a roll and its order: dice, places, the bonus and its reason, the tax or rent paid, or the cause, creditor and amount of the bankruptcy, and the end of the match |
| Effects.NamedInBoardOrder | server/internal/game/board_ruleset.go:237-248 | what a player owns is listed, and what they give up named, by rising place on the board, all of it and nothing else |
| Effects.BuyDoes | server/internal/game/board_ruleset.go:275-309 | the buyer pays exactly the price and has the space, nobody's worth changes, the match goes on, and the promised roll or the end of the turn is next |
| Effects.DeclineDoes | server/internal/game/board_ruleset.go:311-338 | a refusal to buy changes the turn's stage and nothing else |
| Effects.EndTurnDoes | server/internal/game/board_ruleset.go:340-358 | the turn is the next active seat's, fresh; the match ends exactly if that begins a round past the limit |
| Effects.JoinDoes | server/internal/game/lifecycle.go:33-76 | the newcomer has the lowest free seat, the name, the starting money, and is host exactly on an empty roster; everyone else is as before |
| Effects.ReadyDoes | server/internal/game/lifecycle.go:160-186 | exactly the actor's readiness becomes what was asked for, and one event says so |
| Effects.ReadyAsSaid | server/internal/game/lifecycle.go:160-186 | in every run everyone is ready exactly as the log last said of them since they joined, and not if it said nothing |
| Effects.StartDoes | server/internal/game/lifecycle.go:188-237 | the lowest seat has the first turn of round one, on the pristine board; everyone is as before |
| Effects.LobbyLeaveDoes | server/internal/game/lifecycle.go:92-111 | the leaver is gone, everyone else as before but for the host, who is the first in seat order if the leaver hosted |
| Effects.DepartureDoes | server/internal/game/lifecycle.go:112-158 | the leaver is out and their deeds free; the match ends, won by the one other, exactly if one other was left, and otherwise the turn goes on exactly if it was theirs |
| Effects.EndReasonIs | server/internal/game/board.go:158-197 | in every run an ended match gives the reason that comes first in the order of priority |
| Answers.JoinAnswers | server/internal/game/lifecycle.go:33-52 | exactly which joins are accepted, and the reason of every refusal |
| Answers.ReadyAnswers | server/internal/game/lifecycle.go:160-178 | exactly which toggles are accepted, and the reason of every refusal |
| Answers.LeaveAnswers | server/internal/game/lifecycle.go:78-91 | exactly which departures are accepted, and the reason of every refusal |
| Answers.StartAnswers | server/internal/game/lifecycle.go:188-224 | in every reachable state exactly which starts are accepted, and the reason of every refusal |
| Answers.BoardAnswers | server/internal/game/board_ruleset.go:33-69 | in every reachable state a board action is accepted exactly from the active holder of the turn at its stage, and the reason of every refusal |
| Answers.NeverCorrupt | server/internal/game/board_ruleset.go:33-69 | no input to a reachable state finds it corrupt |
| Answers.TurnAnswers | server/internal/game/board_ruleset.go:33-69 | in any state whatever, which of the shared preconditions fails first |
| Answers.LandingAnswers | server/internal/game/board_ruleset.go:174-223 | in any state whatever, a landing is corrupt exactly off the board or on an unknown kind of space |
| Answers.NobodyToPay | server/internal/game/board_ruleset.go:194-206 | rent is owed to nobody who is absent or out, and a free property is offered to whoever can pay |
| Answers.NobodyLeft | server/internal/game/lifecycle.go:239-261 | with nobody left the turn stays, and the match ends without a winner |
| Answers.StartOnAny | server/internal/game/lifecycle.go:188-224 | on any roster exactly which starts are accepted, and the reason of every refusal |
| Legality.LegalityExact | server/internal/game/legality.go:10-17 | in every reachable state a type other than join is advertised exactly when some payload of it is accepted, whatever the dice |
| Legality.NeverStuck | server/internal/game/legality.go:52-70 | the seat holder always has a legal board action, and a pending purchase can be both paid and declined |
| Answers.LegalInOrder | server/internal/game/legality.go:26-77 | what is advertised is advertised once each, in one fixed order |
| Rotation.StepMoves | server/internal/game/board.go:135-152 | an accepted action keeps the turn where it is or moves it strictly later in round and seat |
| Rotation.TurnAdvances | server/internal/game/board.go:135-152 | over a run the turn never moves back, so a seat has at most one turn in a round |
| Rotation.TurnsCounted | server/internal/game/board.go:135-152 | a seat still active has been given exactly the turns that the present turn implies |
| Rotation.FairRotation | server/internal/game/board.go:132-152 | between two turns of one player everyone who stays active gets exactly as many |
| Rotation.StaysStarted | server/internal/game/lifecycle.go:188-203 | a started match is never a lobby again |
| Termination.TurnIsFinite | server/internal/game/board_ruleset.go:77-155 | one turn holds at most the streak cap of rolls and twice that plus one of board actions |
| Termination.RankDrops | server/internal/game/board_ruleset.go:71-358 | under a round limit every accepted action of an active player ends the match or lowers a rank |
| Termination.MatchTerminates | server/internal/game/board.go:188-196 | in any run at all, refusals and departures of the eliminated included, at most 6084 (limit + 2) actions of active players are accepted |
| Termination.OneRoundPast | server/internal/game/board.go:188-196 | the round passes the limit by at most one, by a departure, to a first roll on the lowest active seat |
| Termination.PastLimitExactly | server/internal/game/lifecycle.go:140-152 | exactly which departures carry a match past its limit |
| Ledger.PostFollows | server/internal/game/event.go:33-180 | one event moves the books as it moves the state it describes |
| Ledger.StepPosts | server/internal/game/board_ruleset.go:97-223 | the events of any accepted action carry the books from state to state |
| Ledger.LogExplainsEconomy | server/internal/game/board_ruleset.go:228-236 | folding the whole log from empty books gives every seated balance and every title exactly |
| Client.FindSpace | apps/game/src/state/game-store.ts:288-288 | the first space with the id, or none |
| Simulation.RevertIsRelease | apps/game/src/state/game-store.ts:319-332 | reverting the released names is what the server's release did, with or without the fallback |
| Simulation.ClientFollows | apps/game/src/state/game-store.ts:251-385 | a view that agrees before a transition of a running match agrees after it, with no clamp and no fallback taken |
| ClientStore.GameStore.MarkApplied | apps/game/src/state/game-store.ts:220-230 | remembers the tick, truncated to the newest half past the bound |
| ClientStore.GameStore.Receive | apps/game/src/state/game-store.ts:251-277 | folds a batch, the last roll included, at most once while its tick is remembered, and marks it |
| ClientStore.GameStore.Show | apps/game/src/state/game-store.ts:182-200 | shows a snapshot unless the view is newer |
| ClientStore.RedeliveryIsIdempotent | apps/game/src/state/game-store.ts:208-230 | a batch applied once changes neither view nor last roll again while fewer than 2048 new ticks were marked since |
| ClientStore.ForgottenAtTheBound | apps/game/src/state/game-store.ts:227-229 | after exactly 2048 new ticks it can be forgotten |
| ClientStore.ViewFollowsMatch | apps/game/src/state/game-store.ts:232-277 | from a snapshot of a running match on, the view follows the server under in-order delivery with any recent redelivery |
| ClientStore.RollFollows | apps/game/src/state/game-store.ts:335-346 | through the same deliveries the last roll on screen is the last one accepted |
| ClientStore.SnapshotStartsFollowing | apps/game/src/state/game-store.ts:182-200 | a snapshot no older than the view and the marks is where following starts |
| ClientStore.StoreKeepsUp | apps/game/src/state/game-store.ts:181-277 | whatever is delivered, the cursor is the latest tick heard of, the flag the latest snapshot's, and the view never goes back |
| Views.LobbyFollows | apps/game/src/state/game-store.ts:290-334 | of what a lobby accepts, a view follows joins and toggles, and the start exactly if the match was created with its board |
| Views.LobbyLeaverStays | apps/game/src/state/game-store.ts:313-318 | a lobby departure is not followed: the leaver stays listed, marked as out |
| Views.StageFollows | apps/game/src/state/game-store.ts:367-375 | through any run and redelivery the turn on screen, stage included, is the one last passed on |
| Views.NobodyListedTwice | apps/game/src/state/game-store.ts:291-307 | whatever arrives, however often, nobody is ever listed twice |
| Views.NowhereToGo | apps/game/src/state/game-store.ts:335-341 | a roll to a space the view does not have moves nobody |
| ClientStore.CatchUpMarksFirstTick | apps/game/src/state/game-store.ts:251-276 | a frame of several ticks marks only the first; another tick, delivered again, is folded again exactly unless it was marked before |
| Reflection.TransitionReflected | apps/game/src/state/game-store.ts:279-385 | in a running match whatever an accepted action says, amounts apart, is how its outcome already is |
| Reflection.TransitionApart | apps/game/src/state/game-store.ts:279-385 | no event of an accepted action overwrites what folding another did |
| Reflection.FoldsRight | apps/game/src/state/game-store.ts:279-385 | a view of any state stays one under such events exactly if the state has everything they say and its balances survive their amounts |
| Reflection.RunKept | server/internal/game/lifecycle.go:112-134 | through any run of a started match seats and board stay, nobody comes back, and what is over stays over |
| Overtaken.RightExactly | apps/game/src/state/game-store.ts:181-277 | a screen showing any state reached with or after a transition is right after its events arrive exactly if their tick is marked, or the state still has everything they say and its balances survive their amounts |
| Overtaken.QuietAlwaysRight | apps/game/src/state/game-store.ts:181-277 | leaving, declining and ending a turn are right when they arrive after the snapshot of their own outcome |
| Overtaken.EndTurnRightExactly | apps/game/src/state/game-store.ts:367-375 | an ended turn is right exactly if its tick is marked or the turn has not moved on since |
| Overtaken.DeclineAlwaysRight | apps/game/src/state/game-store.ts:358-359 | a declined purchase is right whenever it arrives |
| Overtaken.LeaveRightExactly | apps/game/src/state/game-store.ts:313-331 | a departure is right exactly if its tick is marked, or nothing given up has been bought since and the turn, if the leaver's, has not moved on |
| Overtaken.TurnPutBack | apps/game/src/state/game-store.ts:367-375 | in any running match of three or more, an ended turn arriving after its next holder has left puts the turn back |
| Overtaken.BuyRightExactly | apps/game/src/state/game-store.ts:348-357 | a purchase is right exactly if its tick is marked, or the space is still the buyer's and the buyer has nothing left |
| Overtaken.RollRightExactly | apps/game/src/state/game-store.ts:335-366 | a roll is right exactly if its tick is marked, or the roller stands where it led, a bankruptcy's spaces are free and the turn unmoved since, it named no rent, and bonus and tax once more change nothing |
| Overtaken.OvertakenBatchChargesTwice | apps/game/src/state/game-store.ts:181-200 | a purchase overtaken by its snapshot charges the buyer twice exactly when its tick is unmarked |
| Overtaken.ChargedTwiceArises | apps/game/src/state/game-store.ts:181-200 | a given match, from its creation on, reaches a purchase that is charged twice |
| Limiter.RateLimiter.Allow | server/internal/match/ratelimiter.go:30-66 | answers and remembers exactly as specified, no two keys sharing a buffer |
| Limiter.RateLimiter.EvictIdle | server/internal/match/ratelimiter.go:47-51 | drops exactly the keys with nothing inside the window |
| Limiter.FilterInPlace | server/internal/match/ratelimiter.go:54-59 | filters a slice within its own buffer |
| Limiter.RemembersRecent | server/internal/match/ratelimiter.go:37-64 | inside any window still to come exactly the grants there were are remembered |
| Limiter.AnswersAlike | server/internal/match/ratelimiter.go:30-66 | under a clock that never runs back every call is answered as by a limiter that forgets nothing |
| Limiter.GrantedBelowLimit | server/internal/match/ratelimiter.go:30-66 | a call is granted exactly if fewer than the limit of its key were granted within the window, one exactly as old as the window no longer counting |
| Limiter.SweepsEvery64th | server/internal/match/ratelimiter.go:44-52 | exactly every 64th call sweeps |
| Limiter.TrackedBounded | server/internal/match/ratelimiter.go:37-78 | the keys held never exceed those live at the last sweep by more than 64 |
| Store.MatchStore.InsertRows | server/internal/persistence/store.go:166-184 | all rows of a transition are added to the transaction's view, or the first taken key abandons it |
| Store.MatchStore.CommitTransition | server/internal/persistence/store.go:132-164 | state, cursor, rows and seat become durable together or not at all, whatever the caller is told |
| Store.InsertAddsExactly | server/internal/persistence/store.go:166-184 | a commit keeps every earlier row and adds exactly its own |
| Store.RepeatedTickRefused | server/internal/persistence/store.go:166-169 | a tick that is already durable is refused |
| Store.FreshTickAccepted | server/internal/persistence/store.go:166-184 | a tick that is not durable yet is accepted |
| MatchRuntime.Match.constructor | server/internal/match/registry.go:120-123 | a created match has its board, nobody seated and nothing logged, in memory and in the store |
| MatchRuntime.Match.ClaimSeat | server/internal/match/match.go:178-238 | a claim takes the specified step, and its published tail is exactly its own events |
| MatchRuntime.Match.Attach | server/internal/match/match.go:240-267 | a token binds the seat it was minted for and keeps the session's watermark, or nothing changes |
| MatchRuntime.Match.PlayerByToken | server/internal/match/match.go:269-287 | finds a seat the token opens exactly when there is one |
| MatchRuntime.Match.Detach | server/internal/match/match.go:289-318 | drops the session and nothing else |
| MatchRuntime.Match.Deliver | server/internal/match/match.go:699-705 | opens the session for publication |
| MatchRuntime.Match.ApplyAction | server/internal/match/match.go:337-404 | an action takes the specified step: identity, sequence, engine, store, memory |
| MatchRuntime.Match.ReconcileCommit | server/internal/match/match.go:658-682 | memory adopts the stored state exactly when it can be read and its cursor moved |
| MatchRuntime.Match.CommitLocked | server/internal/match/match.go:406-435 | installs the state and the trimmed history |
| MatchRuntime.Match.TrimHistory | server/internal/match/match.go:452-474 | cuts the oldest whole transitions |
| MatchRuntime.Match.SinceLocked | server/internal/match/match.go:522-545 | the retained events after a cursor, or none |
| MatchRuntime.Match.Resume | server/internal/match/match.go:476-511 | snapshot, events and flag of one moment |
| MatchRuntime.HandleAction | server/internal/realtime/handler.go:220-261 | a limited or undecodable action touches nothing; otherwise exactly a fresh success is published, exactly a success is acknowledged, a publication comes with the state it led to, and the limiter remembers the call |
| MatchRuntime.FrameTells | server/internal/realtime/handler.go:220-261 | in every run exactly a success is acknowledged; a fresh one shows the state it led to and what may be done there, a repeat what was shown before |
| Durability.NoCommitWhileAhead | server/internal/persistence/store.go:166-169 | while the store is ahead every commit memory attempts is refused |
| Durability.ClaimDurable | server/internal/match/match.go:178-238 | a claim keeps store and memory within one transition, breaks step exactly when wrongly told it failed, and mends nothing |
| Durability.ActDurable | server/internal/match/match.go:386-396 | an action that reaches the store ends in step exactly when it can read back, or was in step and not wrongly told it failed |
| Durability.ActionHeals | server/internal/match/match.go:658-677 | behind the store, an action that can read it back adopts what is stored and does nothing else |
| Durability.NeverDriftsApart | server/internal/match/match.go:337-404 | in every run memory is the durable state or exactly one engine transition behind |
| Durability.PublishedIsDurable | server/internal/match/match.go:5-8 | whatever is handed to the broadcast is durable by then and ever after |
| Durability.DurableLogIsARun | server/internal/persistence/store.go:132-164 | the durable state and rows are at every moment those of some run of the engine, and memory is on that run |
| CatchUp.FewFacts | server/internal/game/board_ruleset.go:97-161 | no action explains itself in more than six events |
| CatchUp.RetainsLongest | server/internal/match/match.go:437-474 | what is retained is the longest suffix of whole transitions within 1024 events |
| CatchUp.RetainGrows | server/internal/match/match.go:452-474 | trimming as it goes is trimming the whole log once |
| CatchUp.HistoryIsWindow | server/internal/match/match.go:410-474 | in every run the history is the longest window of everything published, and the base its first tick |
| CatchUp.TicksAccounted | server/internal/match/match.go:671-676 | in every run a tick is missing from what was published exactly if it was adopted |
| CatchUp.ResumeIsExact | server/internal/match/match.go:476-511 | in every run a cursor gets exactly the rest of everything published when the window reaches back to it and there is any, otherwise none and, unless 0 or current, the flag; a negative cursor is past everything |
| CatchUp.SkipsExactlyAdopted | server/internal/match/match.go:476-511 | in every run and for every cursor a durable tick is skipped unflagged exactly if one after the cursor was adopted and the window serves the cursor anything |
| Sessions.FreshSequencesIncrease | server/internal/match/match.go:363-375 | in one session lifetime fresh successes have strictly increasing sequences |
| Sessions.RepeatReplays | server/internal/match/match.go:363-375 | a repeated sequence replays the same snapshot and hint with no events, no commit and no change |
| Sessions.RepliesAsDeserved | server/internal/match/match.go:337-404 | each answer to an action, exactly when it is given |
| Sessions.AckShowsOutcome | server/internal/match/match.go:386-404 | in every run a fresh success shows the state the call leaves, exactly what its own player may do there, and exactly the events published |
| Sessions.ResumeShows | server/internal/match/match.go:476-511 | in every run whoever resumes is shown memory and exactly what they may do in it |
| Sessions.SessionsAsCalled | server/internal/match/match.go:240-318 | in every run a connection exists exactly while it is open, bound where it was last attached, with its last fresh success |
| Sessions.HintNeverOverflows | server/internal/match/match.go:356-362 | every acknowledgement hints at the next sequence, within the wire's range |
| Sessions.PublishedOnce | server/internal/realtime/handler.go:248-260 | publications carry strictly increasing ticks, so no transition is published twice |
| Faults.FirstClaimShuts | server/internal/match/match.go:217-226 | a first claim that commits but is reported as failed leaves the store ahead with nobody to bind |
| Faults.ShutForEver | server/internal/match/match.go:178-238 | such a match never changes again |
| Faults.AdoptedClaimOrphans | server/internal/match/match.go:671-677 | such a later claim of a seat nobody held before, once adopted, leaves a seat no token opens |
| Faults.OrphanArises | server/internal/match/match.go:217-226 | under every configuration four given calls orphan a seat |
| Faults.SkipArises | server/internal/match/match.go:671-676 | under every configuration four given calls leave a client at tick 1 without tick 2, unflagged |
| Faults.OrphanForEver | server/internal/match/match.go:243-250 | an orphaned seat stays so, and its match never leaves the lobby |
| Authority.EverySeatOpens | server/internal/match/match.go:217-226 | in every run that loses no claim, every id in memory and in the store has a token, which opens its seat |
| Authority.LostClaimOpens | server/internal/match/match.go:217-287 | after a lost claim and any calls that do not read the store back, the action that does seats the claimant: the seat is opened exactly if somebody held it before, by that earlier token, and orphaned exactly if not; connections stay as they were |
| Authority.RightfulUntilDisplaced | server/internal/match/match.go:240-287 | in every run, connections act at every moment for the seats their tokens open exactly if no claim in step with the store takes a seat whose id one still carries, under another token |
| Authority.OldConnectionActsForNewcomer | server/internal/match/match.go:240-287 | under every configuration five given calls let a departed player's connection ready the newcomer |
| Keys.ClaimAnswered | server/internal/match/match.go:178-238 | each answer to a claim, exactly when it is given |
| Keys.ClaimHandsTheKey | server/internal/match/match.go:229-287 | in every run the token handed out opens exactly the seat handed out, attaching with it binds there, and the seat was free and is now the claimant's, as the published event says |
| Keys.SeatRowsAsClaimed | server/internal/persistence/store.go:286-392 | in every run every seat taken, in memory and in the store, has a durable row: the token of the latest claim that committed it, lost ones included, which opens the seat unless that claim was lost |
| Keys.SeatsWritten | server/internal/persistence/store.go:286-311 | a call writes the row of the seat it commits, and no other |
| EndToEnd.InStepExactly | server/internal/realtime/handler.go:248-260 | through any run of a started match, a screen fed everything published is in step at every moment exactly if no transition it would show is adopted |
| EndToEnd.UnseenExactly | server/internal/match/match.go:671-677 | an accepted action shows nothing exactly if it declines a purchase, is the departure of someone eliminated, or is a roll that leaves every player as they were and the match running |
| EndToEnd.AdoptionMissed | server/internal/match/match.go:671-677 | in any started match an adopted purchase, ended turn or active player's departure is published to nobody and leaves every screen that was in step behind |
| Frames.FrameChargesTwice | server/internal/realtime/handler.go:319-331 | nine given calls get a client served a frame of two ticks and their snapshot, after which the second tick's purchase, delivered again, is charged again |

## Left out

- The random generator, seeds, hashes and the configuration hash: dice are arbitrary, and ids are injective in the seat.
- SQL, JSON, timeouts and the network: a commit is atomic and refuses a taken key, and its outcome is an input.
- Running without a store, and marking matches interrupted at boot; the phase exists and is proved unreachable.
- The registry of matches, its capacity and its eviction sweep, migrations, HTTP endpoints, origins and logging.
- Token hashing and constant-time comparison: a token is compared for equality.
- The order in which concurrent broadcasts reach a socket, and sessions skipped because they are not ready yet.
- Strings are counted in characters; the configuration's limits are on bytes.
- Phases, turn phases and kinds outside their enumerations, except an unknown space kind and an absent turn phase.
- The winner is a value, so that a state and its event share one allocation for it is not modelled.
- The match keeps its history as a sequence: that the kept part is moved down within one buffer is not modelled.
- The limiter collects the keys to drop and drops them together, where the server deletes while it iterates.
- Simulation.ClientFollows: covers running matches and leaves the turn's inner stage and the legal actions apart; `Views` has the lobby and the stage.
- Views.LobbyFollows: who hosts is not followed, as no event says it, nor the turn of a match just started.
- ClientStore.GameStore.Show: a view has the fields of the state it shows; legal actions, identity, configuration, connection status and the other signals of the store are not modelled.
- States.GameState.RichestActive: asks for one player per seat, as every run has; on a shared seat a tie falls as the library's unstable sort leaves it, so no result is specified.
- BoardRuleset.EvaluateMatchEnd: asks for one player per seat, because it may announce that winner.
- BoardRuleset.Roll: asks for one player per seat, because the victory conditions close it.
- BoardRuleset.Buy: asks for one player per seat, because the victory conditions close it.
- BoardRuleset.Decline: asks for one player per seat, because the victory conditions close it.
- BoardRuleset.EndTurn: asks for one player per seat, because the victory conditions close it.
- LifecycleRuleset.RemoveFromLobby: asks for one player per seat, because the sorted roster it keeps is otherwise unspecified.
- LifecycleRuleset.EliminateLeaver: asks for one player per id, as ids are minted from seats.
- LifecycleRuleset.Leave: asks for one player per seat, because it sorts the roster.
- Engine.MatchEngine.Apply: asks for one player per seat, for the handlers above.
- Engine.MatchEngine.Handle: asks for one player per seat, for the handlers above.
- EndToEnd.InStepExactly: covers delivery in order and once; after the first adoption that shows, it does not say when later transitions make up for it.
- Overtaken.RightExactly: does not compare the last roll on display, which the events set back.
- ClientStore.ViewFollowsMatch: says nothing about transitions delivered out of order or skipped.
- The client's fallback legality for older servers, its drawing, and seat storage in the browser.
