/** The reference semantics of the BlockJack engine: each operation of
    `Engine` as a function from the state (and the acting seat, the action
    and the injected randomness) to a new state or an error. The methods of
    module `Engine` are proved to compute exactly these functions; the
    lemmas of the proof modules state what the functions guarantee. */
module Rules {
  import opened Wrappers
  import opened Grid
  import opened Dice
  import opened Seats
  import opened RollOff
  import opened State

  // ---------------------------------------------------------------- players

  /** `add_player`. */
  function AddPlayer(s: GameState, seat: Seat): Result<GameState, Error> {
    if s.phase != WaitingForPlayers then Err(GameAlreadyStarted)
    else
      var players := s.players[seat := Joined];
      Ok(if |players| == 2 then s.(players := players, phase := DiceRoll) else s.(players := players))
  }

  // --------------------------------------------------------------- roll-off

  /** The round a throw is recorded into: an empty one when the previous
      round already has a result. */
  function OpenRound(s: GameState): (round: DiceRound)
    ensures s.diceRoll.result.Some? ==> round == DiceRound(map[], None, None)
    ensures s.diceRoll.result.None? ==> round == s.diceRoll
  {
    if s.diceRoll.result.Some? then DiceRound(map[], None, None) else s.diceRoll
  }

  /** `apply_roll_dice`. */
  function RollDice(s: GameState, actor: Seat, e: Entropy): Result<GameState, Error>
    requires e.Valid()
  {
    if s.phase != DiceRoll then Err(PhaseMismatch)
    else
      var round := OpenRound(s);
      if actor in round.rolls then Err(AlreadyRolled)
      else
        var recorded := s.(diceRoll := round.(rolls := round.rolls[actor := MakeRoll(e.throws)]));
        if 1 in recorded.diceRoll.rolls && 2 in recorded.diceRoll.rolls then Ok(ResolveDiceRoll(recorded, e.draws))
        else Ok(recorded)
  }

  /** `resolve_dice_roll!`, once both seats have thrown. */
  function ResolveDiceRoll(s: GameState, draws: seq<FaceDraw>): GameState
    requires 1 in s.diceRoll.rolls && 2 in s.diceRoll.rolls
    requires |draws| == 6 && forall i :: 0 <= i < 6 ==> ValidDraw(draws[i])
  {
    match CompareDiceRolls(s.diceRoll.rolls[1], s.diceRoll.rolls[2])
    case None => s.(diceRoll := DiceRound(map[], Some(Tie), None))
    case Some(first) =>
      s.(diceRoll := s.diceRoll.(result := Some(Resolved), firstPlayer := Some(first)),
         turn := Some(first),
         phase := Placement,
         players := s.players[1 := Dealt(InitialDiceSet(draws[..3]))][2 := Dealt(InitialDiceSet(draws[3..]))])
  }

  // -------------------------------------------------------------- placement

  /** `apply_place`. */
  function Place(s: GameState, actor: Seat, dieIndex: int, pos: Pos): Result<GameState, Error> {
    if s.phase != Placement then Err(PhaseMismatch)
    else if pos !in CenterCells then Err(MustPlaceOnCenter)
    else if pos in s.board then Err(CellOccupied)
    else if dieIndex in s.placed.Get(actor) then Err(DieAlreadyPlaced)
    else if !(1 <= dieIndex <= 3) then Err(InvalidDieIndex)
    else if actor !in s.players || s.players[actor].Joined? then Err(MissingDice)
    else
      match FindDie(s.players[actor].dice, dieIndex)
      case None => Err(DieNotFound)
      case Some(die) =>
        var placed := s.placed.Set(actor, s.placed.Get(actor) + [dieIndex]);
        var s' := s.(board := s.board[pos := Cell(actor, dieIndex, die.faces)], placed := placed);
        Ok(if |placed.one| == 3 && |placed.two| == 3 then s'.(phase := Play) else s')
  }

  // ------------------------------------------------------------------ chain

  /** The number of consecutive occupied cells from `from` in direction `d`,
      counting at most three: the length of the chain `collect_chain`
      gathers. */
  function ChainLength(b: Board, from: Pos, d: Dir): (k: nat)
    ensures k <= 3
    ensures forall i :: 0 <= i < k ==> Occupied(b, Shift(from, d, i))
    ensures k < 3 ==> !Occupied(b, Shift(from, d, k))
  {
    if !Occupied(b, from) then 0
    else if !Occupied(b, Shift(from, d, 1)) then 1
    else if !Occupied(b, Shift(from, d, 2)) then 2
    else 3
  }

  /** `collect_chain` as its error message and the rules intend it: the chain
      of `ChainLength` cells, refused when it is three long and the cell
      right after it is occupied too. */
  function CollectChain(b: Board, from: Pos, d: Dir): (r: Result<seq<Pos>, Error>)
    ensures r.Ok? ==> r.value == Line(from, d, ChainLength(b, from, d))
    ensures r.Err? ==> r.error == TooManyPieces
  {
    var k := ChainLength(b, from, d);
    if k == 3 && Occupied(b, Shift(from, d, 3)) then Err(TooManyPieces)
    else Ok(Line(from, d, k))
  }

  /** Where the loop of `collect_chain` leaves its cursor `cr, cc`, counted in
      steps from `from`: on the last cell appended, except that after the
      third append the cursor has already moved on to a fourth occupied
      cell. */
  function ChainCursor(b: Board, from: Pos, d: Dir): nat {
    var k := ChainLength(b, from, d);
    if k == 3 && Occupied(b, Shift(from, d, 3)) then 3
    else if k == 0 then 0
    else k - 1
  }

  /** `collect_chain` as the source writes it: the length-3 check inspects
      the cell after the cursor rather than the cell after the chain. */
  function CollectChainAsWritten(b: Board, from: Pos, d: Dir): (r: Result<seq<Pos>, Error>)
    ensures r.Ok? ==> r.value == Line(from, d, ChainLength(b, from, d))
  {
    var k := ChainLength(b, from, d);
    if k == 3 && Occupied(b, Shift(from, d, ChainCursor(b, from, d) + 1)) then Err(TooManyPieces)
    else Ok(Line(from, d, k))
  }

  // ------------------------------------------------------------------- move

  /** One iteration of `chain.reverse_each`: the die at `p` moves one cell in
      direction `d`, rolling as it goes, and `p` is emptied. */
  function MoveOne(b: Board, p: Pos, d: Dir): Board
    requires p in b
  {
    b[Step(p, d) := RollCell(b[p], d)] - {p}
  }

  /** The whole `reverse_each` loop over a chain of `k` cells from `from`:
      the farthest die moves first, then the one behind it, down to the
      mover. */
  function ShiftChain(b: Board, from: Pos, d: Dir, k: nat): Board
    requires forall i :: 0 <= i < k ==> Shift(from, d, i) in b
    decreases k
  {
    if k == 0 then b
    else ShiftChain(MoveOne(b, Shift(from, d, k - 1), d), from, d, k - 1)
  }

  /** `apply_move`, given what `collect_chain` returned for the state's board. */
  function MoveUsing(s: GameState, actor: Seat, from: Pos, d: Dir, collected: Result<seq<Pos>, Error>): Result<GameState, Error>
    requires collected.Ok? ==> collected.value == Line(from, d, ChainLength(s.board, from, d))
  {
    if s.phase != Play then Err(PhaseMismatch)
    else if !Inside(from) then Err(SourceOffBoard)
    else if from !in s.board then Err(NoPiece)
    else if s.board[from].owner != actor then Err(NotYours)
    else if !Inside(Step(from, d)) then Err(OutOfBoard)
    else
      match collected
      case Err(e) => Err(e)
      case Ok(chain) =>
        var k := |chain|;
        if !Inside(Shift(from, d, k)) && k > 1 then Err(CannotPushOutOfBoard)
        else Ok(s.(board := ShiftChain(s.board, from, d, k)))
  }

  /** `apply_move` with the intended chain check. */
  function Move(s: GameState, actor: Seat, from: Pos, d: Dir): Result<GameState, Error> {
    MoveUsing(s, actor, from, d, CollectChain(s.board, from, d))
  }

  /** `apply_move` with `collect_chain` exactly as written. */
  function MoveAsWritten(s: GameState, actor: Seat, from: Pos, d: Dir): Result<GameState, Error> {
    MoveUsing(s, actor, from, d, CollectChainAsWritten(s.board, from, d))
  }

  // ---------------------------------------------------------------- scoring

  /** What cell `p` adds to `owner`'s score: its top face if `owner` holds it. */
  function Contribution(b: Board, owner: Seat, p: Pos): int {
    if p in b && b[p].owner == owner then b[p].faces.top else 0
  }

  /** The contributions of the cells `ps`. */
  function TopSum(b: Board, owner: Seat, ps: seq<Pos>): int {
    if ps == [] then 0 else TopSum(b, owner, ps[..|ps| - 1]) + Contribution(b, owner, ps[|ps| - 1])
  }

  /** `score_for`: the top faces of all of `owner`'s dice on the board. */
  function Score(b: Board, owner: Seat): int {
    TopSum(b, owner, AllCells())
  }

  /** The number of cells among `ps` that `owner` holds. */
  function OwnedAmong(b: Board, owner: Seat, ps: seq<Pos>): nat {
    if ps == [] then 0
    else OwnedAmong(b, owner, ps[..|ps| - 1]) + (if ps[|ps| - 1] in b && b[ps[|ps| - 1]].owner == owner then 1 else 0)
  }

  /** The number of dice `owner` has on the board. */
  function Owned(b: Board, owner: Seat): nat {
    OwnedAmong(b, owner, AllCells())
  }

  // ------------------------------------------------------------ end of turn

  /** The end of the game with `w` as the winner. */
  function Win(s: GameState, w: Seat): GameState {
    s.(phase := Finished, winner := Some(w), winnerSlot := Some(w))
  }

  /** `state["turn"] = (state["turn"].to_i == 1 ? 2 : 1)`. */
  function PassTurn(s: GameState): GameState {
    s.(turn := Some(if s.turn == Some(1) then 2 else 1))
  }

  /** `evaluate_and_advance!`. */
  function EvaluateAndAdvance(s: GameState): GameState {
    if s.phase == Play then
      var s1 := Score(s.board, 1);
      var s2 := Score(s.board, 2);
      if s1 == 11 then Win(s, 1)
      else if s2 == 11 then Win(s, 2)
      else if s.turn == Some(1) && s2 >= 12 then Win(s, 1)
      else if s.turn == Some(2) && s1 >= 12 then Win(s, 2)
      else PassTurn(s)
    else PassTurn(s)
  }

  // -------------------------------------------------------------- dispatch

  /** `apply_action`, with `move` going through the intended chain check
      (`asWritten == false`) or through `collect_chain` exactly as written
      (`asWritten == true`). */
  function ApplyActionWith(s: GameState, action: Action, actor: Seat, e: Entropy, asWritten: bool): Result<GameState, Error>
    requires e.Valid()
  {
    if s.phase == Finished then Err(GameFinished)
    else
      match action
      case RollDice => RollDice(s, actor, e)
      case Place(dieIndex, pos) =>
        if s.turn != Some(actor) then Err(NotYourTurn)
        else
          var placed :- Place(s, actor, dieIndex, pos);
          Ok(EvaluateAndAdvance(placed))
      case Move(from, d) =>
        if s.turn != Some(actor) then Err(NotYourTurn)
        else
          var moved :- if asWritten then MoveAsWritten(s, actor, from, d) else Move(s, actor, from, d);
          Ok(EvaluateAndAdvance(moved))
      case Unrecognized => Err(UnknownActionType)
  }

  /** `apply_action` with the intended chain check. */
  function ApplyAction(s: GameState, action: Action, actor: Seat, e: Entropy): Result<GameState, Error>
    requires e.Valid()
  {
    ApplyActionWith(s, action, actor, e, false)
  }

  /** `apply_action` exactly as written. */
  function ApplyActionAsWritten(s: GameState, action: Action, actor: Seat, e: Entropy): Result<GameState, Error>
    requires e.Valid()
  {
    ApplyActionWith(s, action, actor, e, true)
  }
}
