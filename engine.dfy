/** The BlockJack engine in the source's own imperative form: every call
    takes a copy of the state, updates that copy step by step and returns it,
    or returns the error of the first check that fails (so the caller's state
    is never touched). Each method is proved to compute the reference
    function of the same name in module `Rules`. */
module Engine {
  import opened Wrappers
  import opened Grid
  import opened Dice
  import opened Seats
  import opened RollOff
  import opened State
  import Rules

  /** `add_player`. */
  method AddPlayer(state: GameState, seat: Seat) returns (r: Result<GameState, Error>)
    ensures r == Rules.AddPlayer(state, seat)
  {
    var s := state;
    if s.phase != WaitingForPlayers {
      return Err(GameAlreadyStarted);
    }
    s := s.(players := s.players[seat := Joined]);
    if |s.players| == 2 {
      s := s.(phase := DiceRoll);
    }
    return Ok(s);
  }

  /** `apply_action`: the finished check, then dispatch on the action, with
      the turn checked before `place` and `move` and the end-of-turn
      evaluation after them. `asWritten` picks the move with
      `collect_chain` exactly as written or with the intended chain check. */
  method ApplyActionWith(state: GameState, action: Action, actor: Seat, e: Entropy, asWritten: bool) returns (r: Result<GameState, Error>)
    requires e.Valid()
    ensures r == Rules.ApplyActionWith(state, action, actor, e, asWritten)
  {
    var s := state;
    if s.phase == Finished {
      return Err(GameFinished);
    }
    match action {
      case RollDice =>
        r := RollDice(s, actor, e);
      case Place(dieIndex, pos) =>
        if s.turn != Some(actor) {
          return Err(NotYourTurn);
        }
        var placed := Place(s, actor, dieIndex, pos);
        if placed.Err? {
          return Err(placed.error);
        }
        s := EvaluateAndAdvance(placed.value);
        r := Ok(s);
      case Move(from, d) =>
        if s.turn != Some(actor) {
          return Err(NotYourTurn);
        }
        var moved;
        if asWritten {
          moved := MoveAsWritten(s, actor, from, d);
        } else {
          moved := Move(s, actor, from, d);
        }
        if moved.Err? {
          return Err(moved.error);
        }
        s := EvaluateAndAdvance(moved.value);
        r := Ok(s);
      case Unrecognized =>
        r := Err(UnknownActionType);
    }
  }

  /** `apply_action` with the intended chain check. */
  method ApplyAction(state: GameState, action: Action, actor: Seat, e: Entropy) returns (r: Result<GameState, Error>)
    requires e.Valid()
    ensures r == Rules.ApplyAction(state, action, actor, e)
  {
    r := ApplyActionWith(state, action, actor, e, false);
  }

  /** `apply_action` exactly as written. */
  method ApplyActionAsWritten(state: GameState, action: Action, actor: Seat, e: Entropy) returns (r: Result<GameState, Error>)
    requires e.Valid()
    ensures r == Rules.ApplyActionAsWritten(state, action, actor, e)
  {
    r := ApplyActionWith(state, action, actor, e, true);
  }

  /** `apply_roll_dice`. */
  method RollDice(state: GameState, actor: Seat, e: Entropy) returns (r: Result<GameState, Error>)
    requires e.Valid()
    ensures r == Rules.RollDice(state, actor, e)
  {
    var s := state;
    if s.phase != DiceRoll {
      return Err(PhaseMismatch);
    }
    if s.diceRoll.result.Some? {
      s := s.(diceRoll := DiceRound(map[], None, None));
    }
    if actor in s.diceRoll.rolls {
      return Err(AlreadyRolled);
    }
    var values := e.throws;
    s := s.(diceRoll := s.diceRoll.(rolls := s.diceRoll.rolls[actor := MakeRoll(values)]));
    if 1 in s.diceRoll.rolls && 2 in s.diceRoll.rolls {
      s := ResolveDiceRoll(s, e.draws);
    }
    return Ok(s);
  }

  /** `resolve_dice_roll!`. */
  method ResolveDiceRoll(state: GameState, draws: seq<FaceDraw>) returns (s: GameState)
    requires 1 in state.diceRoll.rolls && 2 in state.diceRoll.rolls
    requires |draws| == 6 && forall i :: 0 <= i < 6 ==> ValidDraw(draws[i])
    ensures s == Rules.ResolveDiceRoll(state, draws)
  {
    s := state;
    var roll1 := s.diceRoll.rolls[1];
    var roll2 := s.diceRoll.rolls[2];
    var firstPlayer := CompareDiceRolls(roll1, roll2);
    if firstPlayer.None? {
      s := s.(diceRoll := DiceRound(map[], Some(Tie), None));
      return;
    }
    s := s.(diceRoll := s.diceRoll.(result := Some(Resolved)));
    s := s.(diceRoll := s.diceRoll.(firstPlayer := firstPlayer));
    s := s.(turn := firstPlayer);
    s := s.(phase := Placement);
    s := s.(players := s.players[1 := Dealt(InitialDiceSet(draws[..3]))]);
    s := s.(players := s.players[2 := Dealt(InitialDiceSet(draws[3..]))]);
  }

  /** `apply_place`. */
  method Place(state: GameState, actor: Seat, dieIndex: int, pos: Pos) returns (r: Result<GameState, Error>)
    ensures r == Rules.Place(state, actor, dieIndex, pos)
  {
    var s := state;
    if s.phase != Placement {
      return Err(PhaseMismatch);
    }
    if pos !in CenterCells {
      return Err(MustPlaceOnCenter);
    }
    if pos in s.board {
      return Err(CellOccupied);
    }
    var placed := s.placed.Get(actor);
    if dieIndex in placed {
      return Err(DieAlreadyPlaced);
    }
    if !(1 <= dieIndex <= 3) {
      return Err(InvalidDieIndex);
    }
    if actor !in s.players || s.players[actor].Joined? {
      return Err(MissingDice);
    }
    var die := FindDie(s.players[actor].dice, dieIndex);
    if die.None? {
      return Err(DieNotFound);
    }
    s := s.(board := s.board[pos := Cell(actor, dieIndex, die.value.faces)]);
    s := s.(placed := s.placed.Set(actor, placed + [dieIndex]));
    if |s.placed.one| == 3 && |s.placed.two| == 3 {
      s := s.(phase := Play);
    }
    return Ok(s);
  }

  /** `apply_move`: the checks in the source's order, the chain, the push
      check, then the `reverse_each` loop that moves the chain farthest die
      first. `asWritten` picks `collect_chain` exactly as written or the
      intended chain check. */
  method MoveWith(state: GameState, actor: Seat, from: Pos, d: Dir, asWritten: bool) returns (r: Result<GameState, Error>)
    ensures r == Rules.MoveUsing(state, actor, from, d,
      if asWritten then Rules.CollectChainAsWritten(state.board, from, d) else Rules.CollectChain(state.board, from, d))
  {
    var s := state;
    if s.phase != Play {
      return Err(PhaseMismatch);
    }
    if !Inside(from) {
      return Err(SourceOffBoard);
    }
    if from !in s.board {
      return Err(NoPiece);
    }
    if s.board[from].owner != actor {
      return Err(NotYours);
    }
    var to := Step(from, d);
    if !Inside(to) {
      return Err(OutOfBoard);
    }
    var collected;
    if asWritten {
      collected := CollectChainAsWritten(s.board, from, d);
    } else {
      collected := CollectChain(s.board, from, d);
    }
    if collected.Err? {
      return Err(collected.error);
    }
    r := PushCollected(s, actor, from, d, collected.value);
  }

  /** The end of `apply_move`, once `collect_chain` has returned `chain`:
      the push check, then the `reverse_each` loop. */
  method PushCollected(s: GameState, actor: Seat, from: Pos, d: Dir, chain: seq<Pos>) returns (r: Result<GameState, Error>)
    requires s.phase == Play && Inside(from) && from in s.board && s.board[from].owner == actor
    requires Inside(Step(from, d))
    requires chain == Line(from, d, Rules.ChainLength(s.board, from, d))
    ensures r == Rules.MoveUsing(s, actor, from, d, Ok(chain))
  {
    ghost var k := |chain|;
    var last := chain[|chain| - 1];
    var after := Step(last, d);
    if !Inside(after) && |chain| > 1 {
      return Err(CannotPushOutOfBoard);
    }
    assert chain == Line(from, d, k);
    var board := PushChain(s.board, chain, from, d);
    return Ok(s.(board := board));
  }

  /** `apply_move` with the intended chain check. */
  method Move(state: GameState, actor: Seat, from: Pos, d: Dir) returns (r: Result<GameState, Error>)
    ensures r == Rules.Move(state, actor, from, d)
  {
    r := MoveWith(state, actor, from, d, false);
  }

  /** `apply_move` exactly as written. */
  method MoveAsWritten(state: GameState, actor: Seat, from: Pos, d: Dir) returns (r: Result<GameState, Error>)
    ensures r == Rules.MoveAsWritten(state, actor, from, d)
  {
    r := MoveWith(state, actor, from, d, true);
  }

  /** The `chain.reverse_each` loop of `apply_move`: the farthest die of the
      chain moves first, each die rolling onto the next cell and leaving
      its own cell empty. */
  method PushChain(b: Board, chain: seq<Pos>, from: Pos, d: Dir) returns (board: Board)
    requires Inside(from) && 1 <= |chain| <= 3
    requires chain == Line(from, d, |chain|)
    requires forall j :: 0 <= j < |chain| ==> Shift(from, d, j) in b
    requires forall j :: 0 <= j <= |chain| ==> Inside(Shift(from, d, j))
    requires |chain| == 1 ==> Shift(from, d, 1) !in b
    ensures board == Rules.ShiftChain(b, from, d, |chain|)
  {
    ghost var k := |chain|;
    board := b;
    var i := |chain|;
    while i > 0
      invariant 0 <= i <= k
      invariant forall j :: 0 <= j < i ==> Shift(from, d, j) in board
      invariant i == k ==> board == b
      invariant Rules.ShiftChain(board, from, d, i) == Rules.ShiftChain(b, from, d, k)
    {
      i := i - 1;
      var p := chain[i];
      assert p == Shift(from, d, i);
      var np := Step(p, d);
      StepShift(from, d, i);
      if p == from && |chain| == 1 && np in board {
        // the `next` of line 218: a lone die always has an empty target
        assert false;
      }
      if !Inside(np) {
        // the "Out of board" raise inside the loop: every target is inside
        assert false;
      }
      ghost var before := board;
      board := board[np := RollCell(board[p], d)] - {p};
      assert board == Rules.MoveOne(before, Shift(from, d, i), d);
      MoveOneKeepsNearer(before, from, d, i);
      assert Rules.ShiftChain(before, from, d, i + 1) == Rules.ShiftChain(board, from, d, i);
    }
  }

  /** One step of `PushChain` leaves the cells nearer to `from` alone. */
  lemma MoveOneKeepsNearer(b: Board, from: Pos, d: Dir, i: nat)
    requires Shift(from, d, i) in b
    ensures forall j :: 0 <= j < i && Shift(from, d, j) in b ==>
      Shift(from, d, j) in Rules.MoveOne(b, Shift(from, d, i), d)
  {
    StepShift(from, d, i);
    forall j | 0 <= j < i && Shift(from, d, j) in b
      ensures Shift(from, d, j) != Shift(from, d, i) && Shift(from, d, j) != Step(Shift(from, d, i), d)
    {
      ShiftInjective(from, d, j, i);
      ShiftInjective(from, d, j, i + 1);
    }
  }

  /** The `while` loop of `collect_chain`: `chain` gathers occupied cells
      from `from` on, and `cur` is where the cursor `cr, cc` stops. */
  method GatherChain(b: Board, from: Pos, d: Dir) returns (chain: seq<Pos>, cur: Pos)
    requires Inside(from)
    ensures chain == Line(from, d, Rules.ChainLength(b, from, d))
    ensures cur == Shift(from, d, Rules.ChainCursor(b, from, d))
  {
    chain := [];
    cur := from;
    while |chain| < 3
      invariant |chain| <= 3
      invariant chain == Line(from, d, |chain|)
      invariant forall i :: 0 <= i < |chain| ==> Occupied(b, Shift(from, d, i))
      invariant cur == Shift(from, d, |chain|) && Inside(cur)
      invariant |chain| > 0 ==> Occupied(b, cur)
    {
      if cur !in b {
        break;
      }
      LineGrows(from, d, |chain|);
      chain := chain + [cur];
      var next := Step(cur, d);
      StepShift(from, d, |chain| - 1);
      if !Inside(next) {
        break;
      }
      if next !in b {
        break;
      }
      cur := next;
    }
  }

  /** `collect_chain` with the length-3 check on the cell after the chain. */
  method CollectChain(b: Board, from: Pos, d: Dir) returns (r: Result<seq<Pos>, Error>)
    requires Inside(from)
    ensures r == Rules.CollectChain(b, from, d)
  {
    var chain, cur := GatherChain(b, from, d);
    if |chain| == 3 {
      var next := Step(chain[|chain| - 1], d);
      StepShift(from, d, 2);
      assert next == Shift(from, d, 3);
      if Inside(next) && next in b {
        return Err(TooManyPieces);
      }
    }
    return Ok(chain);
  }

  /** `collect_chain` exactly as written: the length-3 check on the cell
      after the cursor. */
  method CollectChainAsWritten(b: Board, from: Pos, d: Dir) returns (r: Result<seq<Pos>, Error>)
    requires Inside(from)
    ensures r == Rules.CollectChainAsWritten(b, from, d)
  {
    var chain, cur := GatherChain(b, from, d);
    ghost var j := Rules.ChainCursor(b, from, d);
    if |chain| == 3 {
      var next := Step(cur, d);
      StepShift(from, d, j);
      assert next == Shift(from, d, j + 1);
      if Inside(next) && next in b {
        return Err(TooManyPieces);
      }
    }
    return Ok(chain);
  }

  /** `evaluate_and_advance!`. */
  method EvaluateAndAdvance(state: GameState) returns (s: GameState)
    ensures s == Rules.EvaluateAndAdvance(state)
  {
    s := state;
    if s.phase == Play {
      var s1 := ScoreFor(s.board, 1);
      var s2 := ScoreFor(s.board, 2);
      if s1 == 11 {
        s := s.(phase := Finished, winner := Some(1), winnerSlot := Some(1));
        return;
      }
      if s2 == 11 {
        s := s.(phase := Finished, winner := Some(2), winnerSlot := Some(2));
        return;
      }
      if s.turn == Some(1) && s2 >= 12 {
        s := s.(phase := Finished, winner := Some(1), winnerSlot := Some(1));
        return;
      }
      if s.turn == Some(2) && s1 >= 12 {
        s := s.(phase := Finished, winner := Some(2), winnerSlot := Some(2));
        return;
      }
    }
    s := s.(turn := Some(if s.turn == Some(1) then 2 else 1));
  }

  /** `score_for`: the nested row and column loops adding up the top faces
      of `owner`'s cells. */
  method ScoreFor(b: Board, owner: Seat) returns (sum: int)
    ensures sum == Rules.Score(b, owner)
  {
    sum := 0;
    var r := 0;
    while r < BoardSize
      invariant 0 <= r <= BoardSize
      invariant sum == Scanned(b, owner, BoardSize * r)
    {
      var c := 0;
      while c < BoardSize
        invariant 0 <= c <= BoardSize
        invariant sum == Scanned(b, owner, BoardSize * r + c)
      {
        ScanStep(b, owner, r, c);
        var p := Pos(r, c);
        if p in b && b[p].owner == owner {
          sum := sum + b[p].faces.top;
        }
        c := c + 1;
      }
      r := r + 1;
    }
    assert AllCells()[..BoardSize * BoardSize] == AllCells();
  }

  /** What the scan of `ScoreFor` has added up after its first `n` cells. */
  ghost function Scanned(b: Board, owner: Seat, n: nat): int
    requires n <= BoardSize * BoardSize
  {
    Rules.TopSum(b, owner, AllCells()[..n])
  }

  /** Scanning cell `(r, c)` adds that cell's share. */
  lemma ScanStep(b: Board, owner: Seat, r: int, c: int)
    requires 0 <= r < BoardSize && 0 <= c < BoardSize
    ensures Scanned(b, owner, BoardSize * r + c + 1) == Scanned(b, owner, BoardSize * r + c) + Rules.Contribution(b, owner, Pos(r, c))
  {
    var n := BoardSize * r + c;
    AllCellsAt(r, c);
    assert AllCells()[..n + 1][..n] == AllCells()[..n];
  }
}
