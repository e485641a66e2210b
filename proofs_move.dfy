/** What `collect_chain` and `apply_move` guarantee: the chain, the order of
    the move's refusals, the effect of a successful push, and the defect of
    the chain check as written. */
module MoveProofs {
  import opened Wrappers
  import opened Grid
  import opened Dice
  import opened Seats
  import opened State
  import Rules

  /** `p` is none of the first `k + 1` cells of the line from `from`: it is
      neither in a chain of `k` cells nor the cell beyond it. */
  predicate OffLine(p: Pos, from: Pos, d: Dir, k: nat) {
    forall j :: 0 <= j <= k ==> p != Shift(from, d, j)
  }

  /** Moving the farthest die of a chain of `k` fills cell `k`, empties cell
      `k - 1` and leaves the rest of the chain and every other cell alone. */
  lemma MoveOneCells(b: Board, from: Pos, d: Dir, k: nat, p: Pos)
    requires 1 <= k && Shift(from, d, k - 1) in b
    ensures var b' := Rules.MoveOne(b, Shift(from, d, k - 1), d);
      && Shift(from, d, k) in b' && b'[Shift(from, d, k)] == RollCell(b[Shift(from, d, k - 1)], d)
      && Shift(from, d, k - 1) !in b'
      && (p != Shift(from, d, k - 1) && p != Shift(from, d, k) ==> (p in b' <==> p in b) && (p in b ==> b'[p] == b[p]))
  {
    StepShift(from, d, k - 1);
    ShiftInjective(from, d, k - 1, k);
  }

  /** A cell off the line keeps its content through the whole chain move. */
  lemma {:induction false} ShiftChainKeeps(b: Board, from: Pos, d: Dir, k: nat, p: Pos)
    requires forall i :: 0 <= i < k ==> Shift(from, d, i) in b
    requires OffLine(p, from, d, k)
    ensures p in Rules.ShiftChain(b, from, d, k) <==> p in b
    ensures p in b ==> Rules.ShiftChain(b, from, d, k)[p] == b[p]
    decreases k
  {
    if k > 0 {
      var b' := Rules.MoveOne(b, Shift(from, d, k - 1), d);
      MoveOneCells(b, from, d, k, p);
      forall i | 0 <= i < k - 1 ensures Shift(from, d, i) in b' {
        MoveOneCells(b, from, d, k, Shift(from, d, i));
        ShiftInjective(from, d, i, k - 1);
        ShiftInjective(from, d, i, k);
      }
      ShiftChainKeeps(b', from, d, k - 1, p);
    }
  }

  /** The first cell of a chain is empty once the chain has moved. */
  lemma {:induction false} ShiftChainVacates(b: Board, from: Pos, d: Dir, k: nat)
    requires forall i :: 0 <= i < k ==> Shift(from, d, i) in b
    requires 1 <= k
    ensures from !in Rules.ShiftChain(b, from, d, k)
    decreases k
  {
    var b' := Rules.MoveOne(b, Shift(from, d, k - 1), d);
    MoveOneCells(b, from, d, k, from);
    if k > 1 {
      forall i | 0 <= i < k - 1 ensures Shift(from, d, i) in b' {
        MoveOneCells(b, from, d, k, Shift(from, d, i));
        ShiftInjective(from, d, i, k - 1);
        ShiftInjective(from, d, i, k);
      }
      ShiftChainVacates(b', from, d, k - 1);
    }
  }

  /** Cell `j` of a chain of `k` (1 <= j <= k) receives the die of cell
      `j - 1`, rolled once in `d`. */
  lemma {:induction false} ShiftChainMoves(b: Board, from: Pos, d: Dir, k: nat, j: nat)
    requires forall i :: 0 <= i < k ==> Shift(from, d, i) in b
    requires 1 <= j <= k
    ensures Shift(from, d, j) in Rules.ShiftChain(b, from, d, k)
    ensures Rules.ShiftChain(b, from, d, k)[Shift(from, d, j)] == RollCell(b[Shift(from, d, j - 1)], d)
    decreases k
  {
    var b' := Rules.MoveOne(b, Shift(from, d, k - 1), d);
    MoveOneCells(b, from, d, k, Shift(from, d, j - 1));
    forall i | 0 <= i < k - 1 ensures Shift(from, d, i) in b' {
      MoveOneCells(b, from, d, k, Shift(from, d, i));
      ShiftInjective(from, d, i, k - 1);
      ShiftInjective(from, d, i, k);
    }
    if j == k {
      assert OffLine(Shift(from, d, k), from, d, k - 1) by {
        forall i | 0 <= i <= k - 1 ensures Shift(from, d, k) != Shift(from, d, i) {
          ShiftInjective(from, d, k, i);
        }
      }
      ShiftChainKeeps(b', from, d, k - 1, Shift(from, d, k));
    } else {
      ShiftInjective(from, d, j - 1, k - 1);
      ShiftInjective(from, d, j - 1, k);
      ShiftChainMoves(b', from, d, k - 1, j);
    }
  }

  /** The effect of moving a chain of `k` cells farthest first: cell `j`
      (1 <= j <= k) receives the die of cell `j - 1` rolled once in `d`, the
      first cell is emptied, and every cell off the line keeps its content. */
  lemma ShiftChainCells(b: Board, from: Pos, d: Dir, k: nat)
    requires forall i :: 0 <= i < k ==> Shift(from, d, i) in b
    ensures var r := Rules.ShiftChain(b, from, d, k);
      && (forall j :: 1 <= j <= k ==> Shift(from, d, j) in r && r[Shift(from, d, j)] == RollCell(b[Shift(from, d, j - 1)], d))
      && (k >= 1 ==> from !in r)
      && (forall p :: OffLine(p, from, d, k) ==> (p in r <==> p in b))
      && (forall p :: OffLine(p, from, d, k) && p in b ==> r[p] == b[p])
  {
    var r := Rules.ShiftChain(b, from, d, k);
    forall j | 1 <= j <= k
      ensures Shift(from, d, j) in r && r[Shift(from, d, j)] == RollCell(b[Shift(from, d, j - 1)], d)
    {
      ShiftChainMoves(b, from, d, k, j);
    }
    if k >= 1 {
      ShiftChainVacates(b, from, d, k);
    }
    forall p | OffLine(p, from, d, k)
      ensures (p in r <==> p in b) && (p in b ==> r[p] == b[p])
    {
      ShiftChainKeeps(b, from, d, k, p);
    }
  }

  // ------------------------------------------------------------------ chain

  /** From an occupied cell the chain is one to three consecutive occupied
      cells on the board, each one step beyond the previous; it stops early
      only at a cell that is off the board or empty. */
  lemma ChainIsConsecutiveOccupied(b: Board, from: Pos, d: Dir)
    requires Occupied(b, from)
    ensures var k := Rules.ChainLength(b, from, d); var chain := Line(from, d, k);
      && 1 <= k <= 3 && |chain| == k && chain[0] == from
      && (forall j :: 0 <= j < k ==> Inside(chain[j]) && chain[j] in b)
      && (forall j :: 0 <= j < k - 1 ==> chain[j + 1] == Step(chain[j], d))
      && (k < 3 ==> !Occupied(b, Step(chain[k - 1], d)))
  {
    var k := Rules.ChainLength(b, from, d);
    forall j | 0 <= j < k
      ensures Step(Shift(from, d, j), d) == Shift(from, d, j + 1)
    {
      StepShift(from, d, j);
    }
  }

  /** `collect_chain` refuses with "Too many pieces" exactly when three
      cells are collected and the next cell is on the board and occupied. */
  lemma TooManyExactlyOnFourInARow(b: Board, from: Pos, d: Dir)
    ensures Rules.CollectChain(b, from, d).Err? <==>
      Rules.ChainLength(b, from, d) == 3 && Occupied(b, Shift(from, d, 3))
  {
  }

  /** A single-die chain whose first step is on the board has an empty
      target: the skip and the "Out of board" raise inside the source's
      move loop cannot happen for it. */
  lemma LoneDieHasEmptyTarget(b: Board, from: Pos, d: Dir)
    requires Occupied(b, from) && Inside(Step(from, d))
    requires Rules.ChainLength(b, from, d) == 1
    ensures Step(from, d) !in b
  {
  }

  // ------------------------------------------------------------ move errors

  /** The refusals of `apply_move`, in the source's order: wrong phase,
      empty source, foreign die, first step off the board, then the chain
      checks. */
  lemma MoveFailures(s: GameState, actor: Seat, from: Pos, d: Dir)
    ensures s.phase != Play ==> Rules.Move(s, actor, from, d) == Err(PhaseMismatch)
    ensures s.phase == Play && Inside(from) && from !in s.board ==> Rules.Move(s, actor, from, d) == Err(NoPiece)
    ensures s.phase == Play && Occupied(s.board, from) && s.board[from].owner != actor ==>
      Rules.Move(s, actor, from, d) == Err(NotYours)
    ensures s.phase == Play && Occupied(s.board, from) && s.board[from].owner == actor && !Inside(Step(from, d)) ==>
      Rules.Move(s, actor, from, d) == Err(OutOfBoard)
  {
  }

  /** Once the source is the actor's die and the first step is on the
      board, the move is refused with "Too many pieces" exactly for four in
      a row, and with "Cannot push out of board" exactly for a chain of two
      or three that ends at the edge; otherwise it succeeds. */
  lemma MoveChainChecks(s: GameState, actor: Seat, from: Pos, d: Dir)
    requires s.phase == Play && Occupied(s.board, from) && s.board[from].owner == actor && Inside(Step(from, d))
    ensures var k := Rules.ChainLength(s.board, from, d); var r := Rules.Move(s, actor, from, d);
      && (r == Err(TooManyPieces) <==> k == 3 && Occupied(s.board, Shift(from, d, 3)))
      && (r == Err(CannotPushOutOfBoard) <==> 2 <= k && !Inside(Shift(from, d, k)))
      && (r.Ok? <==> Inside(Shift(from, d, k)) && !Occupied(s.board, Shift(from, d, k)))
  {
    var k := Rules.ChainLength(s.board, from, d);
    if k == 3 && Occupied(s.board, Shift(from, d, 3)) {
    } else if k == 1 {
      StepShift(from, d, 0);
    }
  }

  // ----------------------------------------------------------- move success

  /** The (owner, die index) pairs found on a board. */
  function Identities(b: Board): set<(Seat, int)> {
    set p | p in b :: (b[p].owner, b[p].dieIndex)
  }

  /** After a push a cell is occupied exactly when it is the cell beyond the
      chain, or it was occupied and is not the first cell. */
  lemma PushKeysAt(b: Board, from: Pos, d: Dir, k: nat, p: Pos)
    requires 1 <= k && (forall j :: 0 <= j < k ==> Shift(from, d, j) in b)
    ensures p in Rules.ShiftChain(b, from, d, k) <==> p == Shift(from, d, k) || (p in b && p != from)
  {
    if OffLine(p, from, d, k) {
      ShiftChainKeeps(b, from, d, k, p);
      assert p != Shift(from, d, k) && p != Shift(from, d, 0);
    } else {
      var j :| 0 <= j <= k && p == Shift(from, d, j);
      if j == 0 {
        ShiftChainVacates(b, from, d, k);
        ShiftInjective(from, d, 0, k);
      } else {
        ShiftInjective(from, d, j, 0);
        ShiftChainMoves(b, from, d, k, j);
      }
    }
  }

  /** Pushing a chain of `k` dice empties the first cell and fills the
      cell beyond the chain; no other cell changes between empty and full. */
  lemma PushKeys(b: Board, from: Pos, d: Dir, k: nat)
    requires 1 <= k && (forall j :: 0 <= j < k ==> Shift(from, d, j) in b)
    ensures Rules.ShiftChain(b, from, d, k).Keys == b.Keys - {from} + {Shift(from, d, k)}
  {
    forall p ensures p in Rules.ShiftChain(b, from, d, k) <==> p in b.Keys - {from} + {Shift(from, d, k)} {
      PushKeysAt(b, from, d, k, p);
    }
  }

  /** Pushing a chain of `k` dice into an empty cell keeps the number of
      dice. */
  lemma PushKeepsDiceCount(b: Board, from: Pos, d: Dir, k: nat)
    requires 1 <= k && (forall j :: 0 <= j < k ==> Shift(from, d, j) in b) && Shift(from, d, k) !in b
    ensures |Rules.ShiftChain(b, from, d, k)| == |b|
  {
    PushKeys(b, from, d, k);
    assert from in b by { assert Shift(from, d, 0) in b; }
    ShiftInjective(from, d, 0, k);
    assert b.Keys - {from} + {Shift(from, d, k)} == (b.Keys - {from}) + {Shift(from, d, k)};
  }

  /** Every die on the board before a push into an empty cell is on it
      afterwards. */
  lemma PushLosesNoDie(b: Board, from: Pos, d: Dir, k: nat)
    requires 1 <= k && (forall j :: 0 <= j < k ==> Shift(from, d, j) in b) && Shift(from, d, k) !in b
    ensures Identities(b) <= Identities(Rules.ShiftChain(b, from, d, k))
  {
    var r := Rules.ShiftChain(b, from, d, k);
    forall x | x in Identities(b) ensures x in Identities(r) {
      var p :| p in b && x == (b[p].owner, b[p].dieIndex);
      if OffLine(p, from, d, k) {
        ShiftChainKeeps(b, from, d, k, p);
        assert p in r && x == (r[p].owner, r[p].dieIndex);
      } else {
        var j :| 0 <= j <= k && p == Shift(from, d, j);
        assert j < k;
        var q := Shift(from, d, j + 1);
        ShiftChainMoves(b, from, d, k, j + 1);
        assert q in r && x == (r[q].owner, r[q].dieIndex);
      }
    }
  }

  /** Every die on the board after a push into an empty cell was on it
      before. */
  lemma PushMakesNoDie(b: Board, from: Pos, d: Dir, k: nat)
    requires 1 <= k && (forall j :: 0 <= j < k ==> Shift(from, d, j) in b) && Shift(from, d, k) !in b
    ensures Identities(Rules.ShiftChain(b, from, d, k)) <= Identities(b)
  {
    var r := Rules.ShiftChain(b, from, d, k);
    ShiftChainVacates(b, from, d, k);
    forall x | x in Identities(r) ensures x in Identities(b) {
      var p :| p in r && x == (r[p].owner, r[p].dieIndex);
      if OffLine(p, from, d, k) {
        ShiftChainKeeps(b, from, d, k, p);
        assert p in b && x == (b[p].owner, b[p].dieIndex);
      } else {
        var j :| 0 <= j <= k && p == Shift(from, d, j);
        assert j != 0;
        var q := Shift(from, d, j - 1);
        ShiftChainMoves(b, from, d, k, j);
        assert q in b && x == (b[q].owner, b[q].dieIndex);
      }
    }
  }

  /** Pushing a chain keeps the (owner, die index) pairs on the board: every
      die is still there, only one cell further on. */
  lemma PushKeepsIdentities(b: Board, from: Pos, d: Dir, k: nat)
    requires 1 <= k && (forall j :: 0 <= j < k ==> Shift(from, d, j) in b) && Shift(from, d, k) !in b
    ensures Identities(Rules.ShiftChain(b, from, d, k)) == Identities(b)
  {
    PushLosesNoDie(b, from, d, k);
    PushMakesNoDie(b, from, d, k);
  }

  /** A successful move pushes a chain of one to three dice, starting with
      the actor's, one step in `d` into an empty cell on the board: each die
      of the chain lands on the next cell with its faces rolled in `d`, the
      source becomes empty, the cell beyond the chain becomes occupied, the
      number of dice and the dice's owners and indices are unchanged, every
      other cell is unchanged, and so is every other part of the state. */
  lemma MoveShiftsChain(s: GameState, actor: Seat, from: Pos, d: Dir)
    requires Rules.Move(s, actor, from, d).Ok?
    ensures var k := Rules.ChainLength(s.board, from, d); var t := Rules.Move(s, actor, from, d).value;
      && s.phase == Play && from in s.board && s.board[from].owner == actor
      && 1 <= k <= 3
      && (forall j :: 0 <= j < k ==> Shift(from, d, j) in s.board)
      && Inside(Shift(from, d, k)) && Shift(from, d, k) !in s.board
      && (forall j :: 1 <= j <= k ==> Shift(from, d, j) in t.board && t.board[Shift(from, d, j)] == RollCell(s.board[Shift(from, d, j - 1)], d))
      && from !in t.board && Shift(from, d, k) in t.board
      && |t.board| == |s.board|
      && Identities(t.board) == Identities(s.board)
      && (forall p :: OffLine(p, from, d, k) ==> (p in t.board <==> p in s.board))
      && (forall p :: OffLine(p, from, d, k) && p in s.board ==> t.board[p] == s.board[p])
      && t == s.(board := t.board)
  {
    var b := s.board;
    var k := Rules.ChainLength(b, from, d);
    MoveChainChecks(s, actor, from, d);
    assert Rules.Move(s, actor, from, d).value.board == Rules.ShiftChain(b, from, d, k);
    ShiftChainCells(b, from, d, k);
    PushKeepsDiceCount(b, from, d, k);
    PushKeepsIdentities(b, from, d, k);
  }

  // --------------------------------------------- the chain check as written

  /** As written, `collect_chain` never refuses: after a third occupied cell
      the cursor has moved on when a fourth follows, and the cell it checks
      is then four steps from `from`, which is always off the board. */
  lemma AsWrittenNeverRefuses(b: Board, from: Pos, d: Dir)
    ensures Rules.CollectChainAsWritten(b, from, d).Ok?
  {
    if Rules.ChainLength(b, from, d) == 3 {
      FourStepsLeaveBoard(from, d);
    }
  }

  /** The written check and the intended one disagree exactly on four dice
      in a row. */
  lemma AsWrittenDiffersOnlyOnFourInARow(b: Board, from: Pos, d: Dir)
    ensures Rules.CollectChainAsWritten(b, from, d) != Rules.CollectChain(b, from, d) <==>
      Rules.ChainLength(b, from, d) == 3 && Occupied(b, Shift(from, d, 3))
  {
    AsWrittenNeverRefuses(b, from, d);
  }

  /** A move that passes every check before `collect_chain` and whose chain
      of three is followed by a fourth die. */
  predicate PushesIntoFour(s: GameState, actor: Seat, from: Pos, d: Dir) {
    && s.phase == Play && Inside(from) && from in s.board && s.board[from].owner == actor
    && Inside(Step(from, d))
    && Rules.ChainLength(s.board, from, d) == 3 && Occupied(s.board, Shift(from, d, 3))
  }

  /** The move as written and the corrected one disagree exactly on such a
      push: there the corrected move says "Too many pieces" and the written
      one goes ahead. */
  lemma MoveAsWrittenDiffers(s: GameState, actor: Seat, from: Pos, d: Dir)
    ensures Rules.MoveAsWritten(s, actor, from, d) != Rules.Move(s, actor, from, d) <==> PushesIntoFour(s, actor, from, d)
    ensures PushesIntoFour(s, actor, from, d) ==>
      Rules.Move(s, actor, from, d) == Err(TooManyPieces) && Rules.MoveAsWritten(s, actor, from, d).Ok?
  {
    AsWrittenDiffersOnlyOnFourInARow(s.board, from, d);
    AsWrittenNeverRefuses(s.board, from, d);
  }

  /** Over `apply_action`, too, the two engines disagree only on a `move`
      by the seat whose turn it is that pushes into four in a row. */
  lemma ApplyActionAsWrittenDiffers(s: GameState, action: Action, actor: Seat, e: Entropy)
    requires e.Valid()
    ensures Rules.ApplyActionAsWritten(s, action, actor, e) != Rules.ApplyAction(s, action, actor, e) <==>
      s.phase != Finished && action.Move? && s.turn == Some(actor) && PushesIntoFour(s, actor, action.from, action.dir)
  {
    if action.Move? {
      MoveAsWrittenDiffers(s, actor, action.from, action.dir);
    }
  }

  /** Whatever stood on the cell beyond a chain is overwritten by the push:
      the result is the same as if that cell had been empty. */
  lemma PushOverwritesTarget(b: Board, from: Pos, d: Dir, k: nat)
    requires 1 <= k && (forall j :: 0 <= j < k ==> Shift(from, d, j) in b)
    ensures Rules.ShiftChain(b, from, d, k) == Rules.ShiftChain(b - {Shift(from, d, k)}, from, d, k)
  {
    var target := Shift(from, d, k);
    var last := Shift(from, d, k - 1);
    var b' := b - {target};
    StepShift(from, d, k - 1);
    ShiftInjective(from, d, k - 1, k);
    assert Rules.MoveOne(b, last, d) == Rules.MoveOne(b', last, d);
  }

  /** So a push onto an occupied cell keeps every die but the one it lands
      on. */
  lemma OverwritingPushIdentities(b: Board, from: Pos, d: Dir, k: nat)
    requires 1 <= k && (forall j :: 0 <= j < k ==> Shift(from, d, j) in b)
    ensures Identities(Rules.ShiftChain(b, from, d, k)) == Identities(b - {Shift(from, d, k)})
  {
    var b' := b - {Shift(from, d, k)};
    forall j | 0 <= j < k ensures Shift(from, d, j) in b' {
      ShiftInjective(from, d, j, k);
    }
    PushOverwritesTarget(b, from, d, k);
    PushKeepsIdentities(b', from, d, k);
  }

  /** With four dice in a row, the move as written pushes the three nearest
      onto the cells beyond them, so the third lands on the fourth, which
      disappears: the board loses a die. */
  lemma AsWrittenPushDestroysFarDie(s: GameState, actor: Seat, from: Pos, d: Dir)
    requires s.phase == Play && Occupied(s.board, from) && s.board[from].owner == actor
    requires Rules.ChainLength(s.board, from, d) == 3 && Occupied(s.board, Shift(from, d, 3))
    ensures Rules.MoveAsWritten(s, actor, from, d).Ok?
    ensures var t := Rules.MoveAsWritten(s, actor, from, d).value;
      && t.board[Shift(from, d, 3)] == RollCell(s.board[Shift(from, d, 2)], d)
      && |t.board| == |s.board| - 1
      && Identities(t.board) == Identities(s.board - {Shift(from, d, 3)})
  {
    AsWrittenNeverRefuses(s.board, from, d);
    StepShift(from, d, 0);
    assert Rules.MoveAsWritten(s, actor, from, d).value.board == Rules.ShiftChain(s.board, from, d, 3);
    ThreePushedOntoFourth(s.board, from, d);
  }

  /** Pushing a chain of three onto a fourth die: the third lands on the
      fourth's cell, one die fewer is left, and the fourth's identity is
      the one lost. */
  lemma ThreePushedOntoFourth(b: Board, from: Pos, d: Dir)
    requires forall j :: 0 <= j < 4 ==> Shift(from, d, j) in b
    ensures var c := Rules.ShiftChain(b, from, d, 3);
      && Shift(from, d, 3) in c
      && c[Shift(from, d, 3)] == RollCell(b[Shift(from, d, 2)], d)
      && |c| == |b| - 1
      && Identities(c) == Identities(b - {Shift(from, d, 3)})
  {
    ShiftChainMoves(b, from, d, 3, 3);
    PushKeys(b, from, d, 3);
    ShiftInjective(from, d, 0, 3);
    var c := Rules.ShiftChain(b, from, d, 3);
    assert c.Keys == b.Keys - {from};
    OverwritingPushIdentities(b, from, d, 3);
  }

  /** Four dice across the top row, seat 1's at the western end, in play
      with seat 1 to move. */
  function FourInARow(f: Faces): GameState {
    var board := map[Pos(0, 0) := Cell(1, 1, f), Pos(0, 1) := Cell(2, 1, f), Pos(0, 2) := Cell(1, 2, f), Pos(0, 3) := Cell(2, 2, f)];
    GameState(Play, Some(1), None, None, map[], DiceRound(map[], Some(Resolved), Some(1)), board, PerSeat([1, 2, 3], [1, 2, 3]))
  }

  /** On that board the intended check refuses to move seat 1's die at
      (0, 0) east: "Too many pieces". */
  lemma FourInARowIsRefused(f: Faces)
    ensures Rules.Move(FourInARow(f), 1, Pos(0, 0), E) == Err(TooManyPieces)
  {
    var b := FourInARow(f).board;
    assert Shift(Pos(0, 0), E, 3) == Pos(0, 3);
    assert Rules.ChainLength(b, Pos(0, 0), E) == 3;
  }

  /** The code as written accepts that move and the board goes from four
      dice to three: the third die of the chain lands on the fourth. */
  lemma FourInARowLosesADie(f: Faces)
    ensures Rules.MoveAsWritten(FourInARow(f), 1, Pos(0, 0), E).Ok?
    ensures |FourInARow(f).board| == 4
    ensures |Rules.MoveAsWritten(FourInARow(f), 1, Pos(0, 0), E).value.board| == 3
  {
    var s := FourInARow(f);
    var from := Pos(0, 0);
    assert Shift(from, E, 1) == Pos(0, 1) && Shift(from, E, 2) == Pos(0, 2) && Shift(from, E, 3) == Pos(0, 3);
    assert Rules.ChainLength(s.board, from, E) == 3;
    var keys := s.board.Keys;
    assert keys == {Pos(0, 0), Pos(0, 1), Pos(0, 2), Pos(0, 3)};
    assert |keys| == 4;
    AsWrittenPushDestroysFarDie(s, 1, from, E);
  }

  /** On that board seat 2's die 2 stands only at (0, 3). */
  lemma SeatTwosDieAtFarEnd(f: Faces)
    ensures (2, 2) in Identities(FourInARow(f).board)
    ensures (2, 2) !in Identities(FourInARow(f).board - {Pos(0, 3)})
  {
    var b := FourInARow(f).board;
    assert (2, 2) == (b[Pos(0, 3)].owner, b[Pos(0, 3)].dieIndex);
    var rest := b - {Pos(0, 3)};
    assert rest.Keys == {Pos(0, 0), Pos(0, 1), Pos(0, 2)};
    forall p | p in rest ensures (rest[p].owner, rest[p].dieIndex) != (2, 2) {
    }
  }

  /** The die that vanishes is seat 2's die 2, which stood at (0, 3). */
  lemma FourInARowDestroysSeatTwosDie(f: Faces)
    ensures Rules.MoveAsWritten(FourInARow(f), 1, Pos(0, 0), E).Ok?
    ensures (2, 2) in Identities(FourInARow(f).board)
    ensures (2, 2) !in Identities(Rules.MoveAsWritten(FourInARow(f), 1, Pos(0, 0), E).value.board)
  {
    var s := FourInARow(f);
    var from := Pos(0, 0);
    assert Shift(from, E, 1) == Pos(0, 1) && Shift(from, E, 2) == Pos(0, 2) && Shift(from, E, 3) == Pos(0, 3);
    assert Rules.ChainLength(s.board, from, E) == 3;
    AsWrittenPushDestroysFarDie(s, 1, from, E);
    SeatTwosDieAtFarEnd(f);
  }

  /** On the four-in-a-row state, `apply_action` with the intended check
      refuses seat 1's move east, and as written it accepts it. */
  lemma FourInARowDispatch(f: Faces, e: Entropy)
    requires e.Valid()
    ensures Rules.ApplyAction(FourInARow(f), Move(Pos(0, 0), E), 1, e) == Err(TooManyPieces)
    ensures Rules.ApplyActionAsWritten(FourInARow(f), Move(Pos(0, 0), E), 1, e).Ok?
  {
    FourInARowIsRefused(f);
    FourInARowLosesADie(f);
    MoveDispatch(FourInARow(f), 1, Pos(0, 0), E, e, false);
    MoveDispatch(FourInARow(f), 1, Pos(0, 0), E, e, true);
  }

  /** `apply_action` on a `move` by the seat whose turn it is, in an
      unfinished game, fails exactly when the move does, with its error. */
  lemma MoveDispatch(s: GameState, actor: Seat, from: Pos, d: Dir, e: Entropy, asWritten: bool)
    requires e.Valid() && s.phase != Finished && s.turn == Some(actor)
    ensures var moved := if asWritten then Rules.MoveAsWritten(s, actor, from, d) else Rules.Move(s, actor, from, d);
      var r := Rules.ApplyActionWith(s, Move(from, d), actor, e, asWritten);
      && (r.Ok? <==> moved.Ok?)
      && (moved.Err? ==> r == Err(moved.error))
  {
  }
}
