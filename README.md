# BlockJack rules engine in Dafny

BlockJack is a two-player game played with six-sided dice on a 4×4 board.
Each seat joins. The seats then throw three dice in a roll-off to decide who
moves first. Each seat is then dealt three dice and places them, one per
turn, on the four centre cells. The phase changes to play only after all
six dice are placed, and six dice cannot fit on four cells. So, as the
code stands, the play phase is never reached from `initial_state`:
`PlacementProofs.PlayIsUnreachable` proves this. The play rules are
modelled all the same. In play, a seat moves one of its dice one cell
north, south, east or west. The die then tips over onto a new face, and it
pushes up to two dice in front of it. A seat's score is the sum of the top
faces of its dice on the board. Exactly 11 wins. A seat whose opponent goes
over 11 while it is that seat's own turn also wins.

This project models the engine, `Games::BlockJack::Engine` in
`app/games/games/block_jack/engine.rb`. The engine is a state machine over
one state value. Every call works on a deep copy of that value. A call
either returns the new state or raises an error and leaves the caller's
state untouched.

The modules are:

- `Wrappers`: `Option` and `Result`.
- `Grid`: positions, the four directions, `inside?`, the lines a chain runs
  along, the centre cells, and the row-major cell order.
- `Dice`: the six faces, the four rolls, the die generator `random_faces`
  with its randomness passed in as a `FaceDraw`, `initial_dice_set`, and
  the search for a die by index.
- `Seats`: the two seats and the per-seat `placed` lists.
- `RollOff`: a roll-off record with its sum and maximum, and
  `compare_dice_rolls`.
- `State`: the state value, the actions, one error per `raise` message,
  `initial_state`, `empty_board`, `roll_cell`, and `Entropy`, which is the
  randomness of one call.
- `Rules`: every engine operation as a pure reference function returning
  `Result<GameState, Error>`.
- `Engine`: the source's imperative operations as methods. Each method
  updates a local copy of the state step by step, as the Ruby code updates
  its copied hash. Each is proved to return exactly what the `Rules`
  function of the same name returns. This covers `collect_chain`'s `while`
  loop, the `reverse_each` loop of `apply_move`, and the nested loops of
  `score_for`.
- `PlayerProofs`, `RollOffProofs`, `PlacementProofs`, `MoveProofs`,
  `ScoringProofs`: what these functions guarantee.

The state is a plain datatype value because the engine copies it on every
call. The engine object's only field is its random generator, which is
passed in. So no class is needed.

The board is a map from positions to cells: a cell is empty exactly when it
is not a key. `turn`, `winner` and `winner_slot` are optional seats.

Three points of the code are easy to misread:

- `roll_north` (engine.rb:271-273) puts the south face on top and the old
  top face to the north. The other three rolls mirror it. `Dice.RollNorth`
  and its siblings state this.
- A tie in the roll-off leaves the record `{"result" => "tie"}`
  (engine.rb:106-108). The next throw clears it (engine.rb:82-84).
  `RollOffProofs.TieKeepsPhaseAndTurn` and
  `RollOffProofs.ThrowAfterResultStartsNewRound` state this.
- The "Too many pieces" raise (engine.rb:245-251) can never fire; see
  "## Findings". `Rules.MoveAsWritten`, `Rules.ApplyActionAsWritten` and
  the methods `Engine.MoveAsWritten` and `Engine.ApplyActionAsWritten`
  model the code as written. `Rules.Move`, `Rules.ApplyAction`,
  `Engine.Move` and `Engine.ApplyAction` use the intended check, and the
  rest of the model works with them.

## Model

| member | source | states |
|---|---|---|
| Grid.Inside | app/games/games/block_jack/engine.rb:227-229 | reference predicate for `inside?`: both coordinates in 0..3; `Grid.AllCells` and `Grid.FourStepsLeaveBoard` state its properties |
| Grid.Reverse | app/games/games/block_jack/engine.rb:184-189 | a step in the reverse direction undoes a step in `d`, for every position |
| Grid.AllCells | app/games/games/block_jack/engine.rb:322-323 | the row-major listing has 16 cells, and a position is listed exactly when it is inside the board |
| Grid.FourStepsLeaveBoard | app/games/games/block_jack/engine.rb:6 | from any cell on the board, the cell four steps away in any direction is off the board |
| Dice.RollNorth | app/games/games/block_jack/engine.rb:271-273 | the same six values; east and west are unchanged; the old south is on top and the old top faces north |
| Dice.RollSouth | app/games/games/block_jack/engine.rb:274-276 | the same six values; east and west are unchanged; the old north is on top and the old top faces south |
| Dice.RollEast | app/games/games/block_jack/engine.rb:277-279 | the same six values; north and south are unchanged; the old west is on top and the old top faces east |
| Dice.RollWest | app/games/games/block_jack/engine.rb:280-282 | the same six values; north and south are unchanged; the old east is on top and the old top faces west |
| Dice.RollPermutes | app/games/games/block_jack/engine.rb:256-282 | every roll permutes the six face values; N and S keep east/west, E and W keep north/south |
| Dice.RollInverse | app/games/games/block_jack/engine.rb:271-282 | rolling in `d` and then in the reverse direction restores the original faces |
| Dice.RollFourTimes | app/games/games/block_jack/engine.rb:271-282 | any multiple of four rolls in one direction restores the original faces |
| Dice.RollKeepsStandard | app/games/games/block_jack/engine.rb:271-282 | a die whose opposite faces all sum to 7 keeps that property under every roll |
| Dice.Without | app/games/games/block_jack/engine.rb:145 | `Array#-`: the result holds exactly the elements of the list other than the two removed values |
| Dice.WithoutCounts | app/games/games/block_jack/engine.rb:145 | `Array#-` drops every copy of the two removed values and keeps every other value as often as the list holds it |
| Dice.Opposite | app/games/games/block_jack/engine.rb:150-152 | reference function for `opposite`: `7 − n`; `Dice.RandomFaces` states that the bottom is the opposite of the top |
| Dice.RandomFaces | app/games/games/block_jack/engine.rb:142-148 | the drawn top, bottom = 7 − top, and the six faces are 1..6, each once |
| Dice.RollCanBreakOppositeSum | app/games/games/block_jack/engine.rb:142-147 | a generated die (top 1, sides 2, 3, 4, 5) has top + bottom = 7, but after one roll north its top and bottom sum to 5 |
| Dice.InitialDiceSet | app/games/games/block_jack/engine.rb:135-140 | three dice indexed 1, 2, 3; die `i` has the `i`-th drawn top, bottom = 7 − top, and faces 1..6 once each |
| Dice.FindDie | app/games/games/block_jack/engine.rb:169 | `find`: the first die with that index, or none exactly when no die has it |
| RollOff.Max | app/games/games/block_jack/engine.rb:92 | the maximum is one of the values and is at least every value |
| RollOff.MakeRoll | app/games/games/block_jack/engine.rb:88-93 | the record keeps the three values, their sum (3..18) and their maximum (1..6) |
| RollOff.CompareDiceRolls | app/games/games/block_jack/engine.rb:119-129 | seat 1 exactly when roll 1 has the larger sum, or an equal sum and the larger maximum; seat 2 in the mirrored case; none exactly when sums and maxima are equal |
| RollOff.CompareSwapped | app/games/games/block_jack/engine.rb:119-129 | swapping the two rolls swaps seats 1 and 2 and keeps a tie a tie |
| RollOff.BeatsIsStrictTotal | app/games/games/block_jack/engine.rb:119-129 | the order is irreflexive, asymmetric and transitive, and any two rolls with different (sum, max) are ordered |
| State.InitialState | app/games/games/block_jack/engine.rb:13-23 | the state `initial_state` builds: waiting for players, no turn or winner, no players, an empty roll-off record, an empty board and empty `placed` lists; `PlacementProofs.InitialIsBeforePlay` states its invariant |
| State.EmptyBoard | app/games/games/block_jack/engine.rb:131-133 | no cell is occupied |
| State.RollCell | app/games/games/block_jack/engine.rb:256-269 | owner and die index are kept, and the faces are a permutation of the old ones |
| Rules.AddPlayer | app/games/games/block_jack/engine.rb:25-36 | reference function for `add_player`; `PlayerProofs` states its properties and `Engine.AddPlayer` is proved equal to it |
| Rules.RollDice | app/games/games/block_jack/engine.rb:78-98 | reference function for `apply_roll_dice`; `RollOffProofs.RollDiceFailures`, `FirstThrowIsRecorded` and `ThrowAfterResultStartsNewRound` state its properties |
| Rules.ResolveDiceRoll | app/games/games/block_jack/engine.rb:100-117 | reference function for `resolve_dice_roll!`; `RollOffProofs.TieKeepsPhaseAndTurn` and `WinnerMovesFirstAndBothAreDealt` state its two outcomes |
| Rules.Place | app/games/games/block_jack/engine.rb:154-182 | reference function for `apply_place`; `PlacementProofs.PlaceSucceedsExactly`, `PlaceErrorOrder` and `PlaceFillsOneCell` state its properties |
| Rules.ChainLength | app/games/games/block_jack/engine.rb:231-243 | at most 3; the first `k` cells of the line are occupied; when fewer than 3, cell `k` is not |
| Rules.CollectChain | app/games/games/block_jack/engine.rb:231-254 | the chain is the line of `ChainLength` cells, and the only possible error is "Too many pieces" |
| Rules.CollectChainAsWritten | app/games/games/block_jack/engine.rb:231-254 | when it succeeds, the chain is the line of `ChainLength` cells |
| Rules.MoveOne | app/games/games/block_jack/engine.rb:222-223 | one iteration of `reverse_each`: the die moves one cell and rolls, its cell is emptied; `MoveProofs.MoveOneCells` states the cells it changes |
| Rules.ShiftChain | app/games/games/block_jack/engine.rb:215-224 | the whole `reverse_each` loop, farthest die first; `MoveProofs.ShiftChainCells` and its single-cell lemmas state the result |
| Rules.MoveUsing | app/games/games/block_jack/engine.rb:191-225 | `apply_move` on the chain `collect_chain` returned; `MoveProofs.MoveFailures` and `MoveChainChecks` state its errors |
| Rules.Move | app/games/games/block_jack/engine.rb:191-225 | `apply_move` with the intended chain check; `MoveProofs.MoveShiftsChain` states its success case |
| Rules.MoveAsWritten | app/games/games/block_jack/engine.rb:191-254 | `apply_move` with `collect_chain` as written; `MoveProofs.AsWrittenPushDestroysFarDie` and `MoveAsWrittenDiffers` state how it differs |
| Rules.ChainCursor | app/games/games/block_jack/engine.rb:234-243 | where the `collect_chain` loop leaves its cursor; `Engine.GatherChain` is proved to stop there |
| Rules.Score | app/games/games/block_jack/engine.rb:319-331 | reference function for `score_for`: the owner's tops summed over the cells in row-major order; `ScoringProofs.ScoreBounds` and `TopSumSeesOnlyOwner` state its properties |
| Rules.EvaluateAndAdvance | app/games/games/block_jack/engine.rb:284-317 | reference function for `evaluate_and_advance!`; `ScoringProofs.WinIsJustified`, `OtherwiseTurnPasses` and `SeatOneElevenFirst` state its properties |
| Rules.ApplyActionWith | app/games/games/block_jack/engine.rb:38-58 | reference function for `apply_action`, with the move as written or with the intended check; the `ScoringProofs` dispatch lemmas state its properties for both |
| Rules.ApplyAction | app/games/games/block_jack/engine.rb:38-58 | `apply_action` with the intended chain check |
| Rules.ApplyActionAsWritten | app/games/games/block_jack/engine.rb:38-58 | `apply_action` as written; `MoveProofs.ApplyActionAsWrittenDiffers` states where it differs from `Rules.ApplyAction` |
| Engine.AddPlayer | app/games/games/block_jack/engine.rb:25-36 | returns exactly `Rules.AddPlayer` |
| Engine.ApplyActionWith | app/games/games/block_jack/engine.rb:38-58 | returns exactly `Rules.ApplyActionWith`, the dispatch with the move as written or with the intended check |
| Engine.ApplyAction | app/games/games/block_jack/engine.rb:38-58 | returns exactly `Rules.ApplyAction`, the dispatch with the intended chain check |
| Engine.ApplyActionAsWritten | app/games/games/block_jack/engine.rb:38-58 | returns exactly `Rules.ApplyActionAsWritten`, the dispatch as written |
| Engine.RollDice | app/games/games/block_jack/engine.rb:78-98 | returns exactly `Rules.RollDice` |
| Engine.ResolveDiceRoll | app/games/games/block_jack/engine.rb:100-117 | returns exactly `Rules.ResolveDiceRoll` |
| Engine.Place | app/games/games/block_jack/engine.rb:154-182 | returns exactly `Rules.Place` |
| Engine.MoveWith | app/games/games/block_jack/engine.rb:191-225 | returns exactly `Rules.MoveUsing` on the chain the chosen `collect_chain` returns; the skip of line 218 and the raise of line 220 are proved unreachable in its loop |
| Engine.PushCollected | app/games/games/block_jack/engine.rb:206-224 | once the chain is collected, returns exactly what `Rules.MoveUsing` gives for it: "Cannot push out of board" or the pushed board |
| Engine.Move | app/games/games/block_jack/engine.rb:191-225 | returns exactly `Rules.Move`, the move with the intended chain check |
| Engine.MoveAsWritten | app/games/games/block_jack/engine.rb:191-225 | returns exactly `Rules.MoveAsWritten`, the move with `collect_chain` as written |
| Engine.PushChain | app/games/games/block_jack/engine.rb:215-224 | the `reverse_each` loop leaves exactly the board `Rules.ShiftChain` describes |
| Engine.GatherChain | app/games/games/block_jack/engine.rb:232-243 | the loop gathers the line of `ChainLength` cells and leaves its cursor at `ChainCursor` |
| Engine.CollectChain | app/games/games/block_jack/engine.rb:231-254 | returns exactly `Rules.CollectChain` |
| Engine.CollectChainAsWritten | app/games/games/block_jack/engine.rb:231-254 | returns exactly `Rules.CollectChainAsWritten` |
| Engine.EvaluateAndAdvance | app/games/games/block_jack/engine.rb:284-317 | returns exactly `Rules.EvaluateAndAdvance` |
| Engine.ScoreFor | app/games/games/block_jack/engine.rb:319-331 | the nested loops return exactly `Rules.Score` |
| PlayerProofs.TwoEntriesMeansBothSeats | app/games/games/block_jack/engine.rb:31 | a seat map has two entries exactly when both seats are keys |
| PlayerProofs.AddPlayerFailsOnlyOnceStarted | app/games/games/block_jack/engine.rb:25-27 | joining fails exactly outside the waiting phase, and then with "Game already started" |
| PlayerProofs.AddPlayerRegisters | app/games/games/block_jack/engine.rb:29-33 | the seat's record becomes empty; the phase becomes dice_roll exactly when both seats are registered, and otherwise stays waiting; nothing else changes |
| PlayerProofs.AddPlayerTwiceKeepsCount | app/games/games/block_jack/engine.rb:29-33 | re-adding a seat overwrites its record and keeps the player count, so a game waiting for its second player keeps waiting |
| PlayerProofs.JoiningTwiceThenOtherSeat | app/games/games/block_jack/engine.rb:25-36 | seat 1, seat 1 again, then seat 2: the roll-off starts only at the third call |
| Rules.OpenRound | app/games/games/block_jack/engine.rb:82-84 | a round with a result is replaced by an empty one, with no throws, no result and no first player; an open round is kept |
| RollOffProofs.RollDiceFailures | app/games/games/block_jack/engine.rb:79-86 | a throw fails exactly outside dice_roll ("Phase mismatch") or when the seat already threw in the open round ("Already rolled") |
| RollOffProofs.ThrowAfterResultStartsNewRound | app/games/games/block_jack/engine.rb:82-93 | in the roll-off phase, after a tie, a throw always succeeds and leaves a round holding only the thrower's record |
| RollOffProofs.FirstThrowIsRecorded | app/games/games/block_jack/engine.rb:86-97 | the first throw of a round records three values in 1..6 with their sum and maximum, and changes nothing else |
| RollOffProofs.TieKeepsPhaseAndTurn | app/games/games/block_jack/engine.rb:104-109 | equal sums and maxima reset the round to a bare tie result; phase, turn and players are unchanged |
| RollOffProofs.WinnerMovesFirstAndBothAreDealt | app/games/games/block_jack/engine.rb:111-116 | the seat with the better roll gets the turn and `first_player`; the phase becomes placement; both seats are dealt dice 1, 2, 3 with bottom = 7 − top and faces 1..6 |
| RollOffProofs.DealIsFair | app/games/games/block_jack/engine.rb:135-148 | each of a seat's three dice is numbered 1, 2, 3 in order, shows the top of its own draw on top, has 7 − top underneath and carries the faces 1..6 once each |
| RollOffProofs.HigherMaxBreaksEqualSums | app/games/games/block_jack/engine.rb:119-129 | throws 6, 6, 1 against 5, 5, 3 (equal sums) resolve for seat 1 and start placement |
| PlacementProofs.PlaceSucceedsExactly | app/games/games/block_jack/engine.rb:154-171 | placement succeeds exactly in the placement phase, on an empty centre cell, with a held die 1..3 not yet placed |
| PlacementProofs.PlaceErrorOrder | app/games/games/block_jack/engine.rb:155-167 | the errors come in the source's order; an already placed index is refused before the 1..3 range check |
| PlacementProofs.PlaceFillsOneCell | app/games/games/block_jack/engine.rb:172-181 | exactly one cell changes and now holds the actor's die; the index is appended to the actor's list only; play starts exactly when both lists reach 3 |
| PlacementProofs.CenterBoardHoldsFour | app/games/games/block_jack/engine.rb:7 | a board whose dice are all on centre cells holds at most four |
| PlacementProofs.InitialIsBeforePlay | app/games/games/block_jack/engine.rb:13-23 | the initial state satisfies the pre-play invariant |
| PlacementProofs.PlaceKeepsBeforePlay | app/games/games/block_jack/engine.rb:160-181 | a placement keeps the pre-play invariant |
| PlacementProofs.RollDiceKeepsBeforePlay | app/games/games/block_jack/engine.rb:78-117 | an accepted roll-off throw leaves the board and the placements alone and ends in the roll-off or the placement phase |
| PlacementProofs.NextKeepsBeforePlay | app/games/games/block_jack/engine.rb:25-58 | any join or action keeps the pre-play invariant |
| PlacementProofs.RunKeepsBeforePlay | app/games/games/block_jack/engine.rb:25-58 | any sequence of joins and actions keeps the pre-play invariant |
| PlacementProofs.PlayIsUnreachable | app/games/games/block_jack/engine.rb:179-181 | from `initial_state` no sequence of requests reaches play or finished, and at most four dice are ever placed, for the engine as written and the corrected one |
| PlacementProofs.NextNeverGoesBack | app/games/games/block_jack/engine.rb:25-58 | no join or action moves the phase back in the order waiting, roll-off, placement, play, finished |
| PlacementProofs.RunNeverGoesBack | app/games/games/block_jack/engine.rb:25-58 | no sequence of joins and actions moves the phase back in that order |
| MoveProofs.ShiftChainCells | app/games/games/block_jack/engine.rb:215-224 | after the loop, cell `j` holds the die of cell `j − 1` rolled in `d`; the source is empty; cells off the line are unchanged |
| MoveProofs.ShiftChainMoves | app/games/games/block_jack/engine.rb:215-224 | for every `1 <= j <= k`, cell `j` of the line ends up holding the die that stood on cell `j − 1`, rolled in `d` |
| MoveProofs.ShiftChainVacates | app/games/games/block_jack/engine.rb:215-224 | the moving die's cell is empty after the loop |
| MoveProofs.ShiftChainKeeps | app/games/games/block_jack/engine.rb:215-224 | a cell off the `k + 1` cells of the line is occupied after the loop exactly when it was before, by the same die |
| MoveProofs.ChainIsConsecutiveOccupied | app/games/games/block_jack/engine.rb:231-243 | from an occupied cell the chain is 1..3 consecutive occupied cells on the board, and a shorter chain ends before an empty or off-board cell |
| MoveProofs.TooManyExactlyOnFourInARow | app/games/games/block_jack/engine.rb:245-251 | the intended check refuses exactly when three are collected and the next cell is on the board and occupied |
| MoveProofs.LoneDieHasEmptyTarget | app/games/games/block_jack/engine.rb:204-224 | a single-die chain whose first step is on the board has an empty target |
| MoveProofs.MoveFailures | app/games/games/block_jack/engine.rb:192-204 | wrong phase, empty source, foreign die and off-board first step fail in that order with their messages |
| MoveProofs.MoveChainChecks | app/games/games/block_jack/engine.rb:206-213 | "Too many pieces" exactly for four in a row; "Cannot push out of board" exactly for a chain of 2 or 3 at the edge; success exactly when the cell beyond the chain is on the board and empty |
| MoveProofs.PushKeys | app/games/games/block_jack/engine.rb:215-224 | after a push, the source is empty, the cell beyond the chain is occupied, and every other cell keeps its occupancy |
| MoveProofs.PushKeepsDiceCount | app/games/games/block_jack/engine.rb:215-224 | a push into an empty cell keeps the number of dice |
| MoveProofs.PushLosesNoDie | app/games/games/block_jack/engine.rb:215-224 | for a push into an empty cell, every (owner, index) on the board before it is there after it |
| MoveProofs.PushMakesNoDie | app/games/games/block_jack/engine.rb:215-224 | for a push into an empty cell, every (owner, index) on the board after it was there before it |
| MoveProofs.PushKeepsIdentities | app/games/games/block_jack/engine.rb:215-224 | a push into an empty cell keeps the set of (owner, index) pairs on the board |
| MoveProofs.MoveShiftsChain | app/games/games/block_jack/engine.rb:191-225 | a successful move pushes 1..3 dice one cell each, rolled in `d`, into an empty cell; the source is empty; the dice count and (owner, index) pairs are kept; every other cell and every other part of the state is unchanged |
| MoveProofs.PushOverwritesTarget | app/games/games/block_jack/engine.rb:222 | a push onto an occupied cell gives the same board as if it were empty |
| MoveProofs.OverwritingPushIdentities | app/games/games/block_jack/engine.rb:222 | a push keeps every (owner, index) pair except the one on the cell it lands on |
| MoveProofs.AsWrittenNeverRefuses | app/games/games/block_jack/engine.rb:231-254 | `collect_chain` as written never raises |
| MoveProofs.AsWrittenDiffersOnlyOnFourInARow | app/games/games/block_jack/engine.rb:245-251 | the written and intended checks disagree exactly on four dice in a row |
| MoveProofs.MoveAsWrittenDiffers | app/games/games/block_jack/engine.rb:191-254 | the move as written and the corrected move differ exactly when a legal move's chain of three is followed by a fourth die; there the corrected one refuses with "Too many pieces" and the written one succeeds |
| MoveProofs.ApplyActionAsWrittenDiffers | app/games/games/block_jack/engine.rb:38-58 | the two `apply_action`s differ exactly on a `move`, in an unfinished game, by the seat whose turn it is, that pushes into four in a row |
| MoveProofs.AsWrittenPushDestroysFarDie | app/games/games/block_jack/engine.rb:206-224 | with four in a row, the move as written succeeds, the third die lands on the fourth, and the board loses that die |
| MoveProofs.ThreePushedOntoFourth | app/games/games/block_jack/engine.rb:215-224 | pushing three dice onto a fourth puts the third, rolled, on the fourth's cell, leaves one die fewer and loses exactly the fourth's identity |
| MoveProofs.MoveDispatch | app/games/games/block_jack/engine.rb:50-52 | a `move` by the seat on turn in an unfinished game succeeds exactly when `apply_move` does, and fails with its error |
| MoveProofs.FourInARowIsRefused | app/games/games/block_jack/engine.rb:245-251 | on a full top row, moving (0, 0) east is refused by the intended check |
| MoveProofs.FourInARowLosesADie | app/games/games/block_jack/engine.rb:206-224 | on a full top row, the move as written succeeds and the board goes from four dice to three |
| MoveProofs.FourInARowDestroysSeatTwosDie | app/games/games/block_jack/engine.rb:222 | the die lost is seat 2's die 2 from (0, 3) |
| MoveProofs.FourInARowDispatch | app/games/games/block_jack/engine.rb:50-52 | on the four-in-a-row state, `apply_action` with the intended check answers "Too many pieces" and as written it succeeds |
| ScoringProofs.TopSumBounds | app/games/games/block_jack/engine.rb:322-328 | when every one of the owner's dice shows 1..6 on top, the sum of the owner's tops over any cells lies between its number of dice there and six times that |
| ScoringProofs.ScoreBounds | app/games/games/block_jack/engine.rb:319-331 | when every one of the owner's dice shows 1..6 on top, a seat's score lies between its die count and six times it, hence in 0..18 with at most three dice |
| ScoringProofs.TopSumSeesOnlyOwner | app/games/games/block_jack/engine.rb:325-327 | boards that agree on the owner's dice and their tops give the same score |
| ScoringProofs.NoDiceScoreZero | app/games/games/block_jack/engine.rb:321-330 | a seat with no dice on the board scores 0 |
| ScoringProofs.WinIsJustified | app/games/games/block_jack/engine.rb:284-313 | the game ends only in play; seat 1 wins exactly on its 11, or on seat 2 over 11 in seat 1's turn with seat 2 not at 11; seat 2 in the mirrored case, after seat 1's 11 is ruled out; `winner` = `winner_slot`; nothing else changes |
| ScoringProofs.OtherwiseTurnPasses | app/games/games/block_jack/engine.rb:284-316 | no one wins exactly out of play or when neither seat has 11 and the waiting seat is not over 11; the turn then flips 1↔2 (none becomes 1) and nothing else changes |
| ScoringProofs.SeatOneElevenFirst | app/games/games/block_jack/engine.rb:289-300 | seat 1's exact 11 wins even when seat 2 also has 11 |
| ScoringProofs.FinishedRefusesEverything | app/games/games/block_jack/engine.rb:70-72 | once finished, every action fails with "Game finished", as written and with the intended chain check, and joining fails with "Game already started" |
| ScoringProofs.TurnCheckedFirst | app/games/games/block_jack/engine.rb:45-52 | out of turn, `place` and `move` fail with "Not your turn" in any unfinished phase |
| ScoringProofs.NoTurnMeansNotYourTurn | app/games/games/block_jack/engine.rb:74-76 | while no turn is set, `place` and `move` fail with "Not your turn", never "Phase mismatch" |
| ScoringProofs.PlacementPassesTurn | app/games/games/block_jack/engine.rb:45-48 | a successful placement that does not start play hands the turn to the other seat |
| ScoringProofs.UnknownActionFails | app/games/games/block_jack/engine.rb:53-54 | in an unfinished game, any other action type fails with "Unknown action type" |

## Left out

- The random generators are passed in. `Random.new(seed …)`, `@rng.rand`,
  `shuffle(random: @rng)` and `SecureRandom.random_number` are not modelled.
  A throw is any three values in 1..6. A die draw is any top in 1..6 and
  any order of the four side values.
- `deep_dup` through JSON is not modelled. Dafny values are never shared, so
  an error simply returns no state.
- String-keyed hashes, `to_i` coercions, and the `KeyError` of
  `action.fetch` and `DIRS.fetch` are not modelled. Fields are typed, the
  turn is an `Option`, and the direction is an enum. For the same reason the
  "Bad dir" branch of `roll_cell` cannot arise.
- Seats are limited to 1 and 2. `add_player` with any other slot value is
  not modelled.
- A move from a cell off the board is refused with its own error,
  `SourceOffBoard`, right after the phase check. Ruby instead wraps negative
  indices, reads `nil` for a column past the edge ("No piece"), and raises
  `NoMethodError` for a row past the edge.
- A placement by a seat without a dealt dice list fails with its own error,
  `MissingDice`. Ruby raises `NoMethodError` on `nil`.
- `view_for` is not modelled: it returns its argument.
- The service that persists, locks and broadcasts states is not modelled,
  and neither are the controllers, channels, front end, models and schema.
- Engine.Move: follows the intended chain check, not `collect_chain` as
  written, so on four dice in a row it refuses where the code succeeds and
  overwrites the far die. `Engine.MoveAsWritten` models the code as written.
- Engine.ApplyAction: dispatches `move` to the intended chain check for the
  same reason. `Engine.ApplyActionAsWritten` models the dispatch as written.
- The board is updated as a value: `Engine.PushChain` rebuilds the board
  map and does not overwrite array cells in place.

## Findings

| source | as written | input that shows it | evidently intended | confidence | as-written member | corrected member |
|---|---|---|---|---|---|---|
| app/games/games/block_jack/engine.rb:231-254 | after the third cell is appended, the loop moves its cursor on to a fourth occupied cell; the length-3 check then looks one cell further, always off the 4×4 board, so "Too many pieces in a row (max 2 push)" is never raised; the move goes ahead and the third die overwrites the fourth | four dice across row 0, seat 1 to move its die at (0, 0) east: the move succeeds and seat 2's die 2 at (0, 3) is gone, leaving three dice; `PlacementProofs.PlayIsUnreachable` shows that this state, like every play state, cannot be reached from `initial_state` through the engine's calls, so the fault matters only once the placement rules change | refuse the move when a fourth die follows a chain of three, keeping every die | not executed | Rules.CollectChainAsWritten (MoveProofs.AsWrittenNeverRefuses, MoveProofs.FourInARowLosesADie, MoveProofs.FourInARowDispatch) | Rules.CollectChain (MoveProofs.TooManyExactlyOnFourInARow, MoveProofs.MoveShiftsChain) |
