/** The single BlockJack state value and the actions and errors of the
    engine. The engine works on a deep copy of the state for every call, so
    a state here is a plain value. */
module State {
  import opened Wrappers
  import opened Grid
  import opened Dice
  import opened Seats
  import opened RollOff

  datatype Phase = WaitingForPlayers | DiceRoll | Placement | Play | Finished

  /** A seat's entry under `players`: `{}` when it has just joined, and
      `{"dice" => ...}` once the roll-off has dealt it three dice. */
  datatype Player = Joined | Dealt(dice: seq<Die>)

  datatype RollResult = Tie | Resolved

  /** The `dice_roll` hash: the seats' records under "1" and "2", and the
      optional "result" and "first_player" keys. */
  datatype DiceRound = DiceRound(rolls: map<Seat, RollRecord>, result: Option<RollResult>, firstPlayer: Option<Seat>)

  /** An occupied board cell `{owner, die_index, faces}`. */
  datatype Cell = Cell(owner: Seat, dieIndex: int, faces: Faces)

  /** The 4x4 grid: a position is occupied exactly when it is a key. */
  type Board = map<Pos, Cell>

  datatype GameState = GameState(
    phase: Phase,
    turn: Option<Seat>,
    winner: Option<Seat>,
    winnerSlot: Option<Seat>,
    players: map<Seat, Player>,
    diceRoll: DiceRound,
    board: Board,
    placed: PerSeat<seq<int>>)

  /** The actions a client can send; `Unrecognized` stands for any other
      `type` string. */
  datatype Action =
    | RollDice
    | Place(dieIndex: int, pos: Pos)
    | Move(from: Pos, dir: Dir)
    | Unrecognized

  /** One error kind per `raise` of the engine, plus the two crashes of the
      Ruby code on malformed input (see README). */
  datatype Error =
    | GameAlreadyStarted      // "Game already started"
    | GameFinished            // "Game finished"
    | NotYourTurn             // "Not your turn"
    | PhaseMismatch           // "Phase mismatch"
    | UnknownActionType       // "Unknown action type"
    | AlreadyRolled           // "Already rolled"
    | MustPlaceOnCenter       // "Must place on center 4 cells"
    | CellOccupied            // "Cell occupied"
    | DieAlreadyPlaced        // "Die already placed"
    | InvalidDieIndex         // "Invalid die_index"
    | DieNotFound             // "Die not found"
    | NoPiece                 // "No piece"
    | NotYours                // "Not yours"
    | OutOfBoard              // "Out of board"
    | TooManyPieces           // "Too many pieces in a row (max 2 push)"
    | CannotPushOutOfBoard    // "Cannot push out of board"
    | MissingDice             // the acting seat has no dice list
    | SourceOffBoard          // a move's `from` lies off the board

  /** The injected randomness of one call: `throws`, the three values the
      unseeded source yields for a roll-off throw, and `draws`, the six die
      draws of the seeded generator (seat 1's three dice, then seat 2's). The
      engine is built afresh from its seed for every call, so the seeded
      generator starts over each time. */
  datatype Entropy = Entropy(throws: seq<int>, draws: seq<FaceDraw>) {
    predicate Valid() {
      ValidThrows(throws) && |draws| == 6 && forall i :: 0 <= i < 6 ==> ValidDraw(draws[i])
    }
  }

  /** `empty_board`: no cell is occupied. */
  function EmptyBoard(): (b: Board)
    ensures forall p :: p !in b
  {
    map[]
  }

  /** `initial_state`. */
  function InitialState(): GameState {
    GameState(WaitingForPlayers, None, None, None, map[], DiceRound(map[], None, None), EmptyBoard(), PerSeat([], []))
  }

  /** A cell is occupied when it is on the board and holds a die. */
  predicate Occupied(b: Board, p: Pos) {
    Inside(p) && p in b
  }

  /** `roll_cell`: the same die, owner and index, with its faces rolled in
      direction `d`. */
  function RollCell(cell: Cell, d: Dir): (moved: Cell)
    ensures moved.owner == cell.owner && moved.dieIndex == cell.dieIndex
    ensures SameFaces(cell.faces, moved.faces)
  {
    RollPermutes(cell.faces, d);
    cell.(faces := Roll(cell.faces, d))
  }
}
