/** The 4x4 board geometry of BlockJack: positions, the four move directions
    and the cells that lie on a straight line from a position. */
module Grid {

  const BoardSize: int := 4

  /** A board coordinate: `r` is the row (growing southwards), `c` the column
      (growing eastwards). */
  datatype Pos = Pos(r: int, c: int)

  datatype Dir = N | S | E | W

  /** `inside?`: both coordinates lie in 0..BoardSize-1. */
  predicate Inside(p: Pos) {
    0 <= p.r < BoardSize && 0 <= p.c < BoardSize
  }

  /** The position `i` steps from `p` in direction `d`; one step is the
      delta of `DIRS` (N = [-1, 0], S = [1, 0], W = [0, -1], E = [0, 1]). */
  function Shift(p: Pos, d: Dir, i: int): Pos {
    match d
    case N => Pos(p.r - i, p.c)
    case S => Pos(p.r + i, p.c)
    case W => Pos(p.r, p.c - i)
    case E => Pos(p.r, p.c + i)
  }

  function Step(p: Pos, d: Dir): Pos {
    Shift(p, d, 1)
  }

  /** The direction that undoes one step in `d`. */
  function Reverse(d: Dir): (e: Dir)
    ensures forall p: Pos :: Step(Step(p, d), e) == p
  {
    match d
    case N => S
    case S => N
    case E => W
    case W => E
  }

  /** The first `k` cells of the straight line leaving `from` in direction `d`. */
  function Line(from: Pos, d: Dir, k: nat): seq<Pos> {
    seq(k, i => Shift(from, d, i))
  }

  /** One more step along a line reaches the next cell of the line. */
  lemma StepShift(p: Pos, d: Dir, i: int)
    ensures Step(Shift(p, d, i), d) == Shift(p, d, i + 1)
  {
  }

  /** A line one cell longer is the line with its next cell appended. */
  lemma LineGrows(from: Pos, d: Dir, k: nat)
    ensures Line(from, d, k + 1) == Line(from, d, k) + [Shift(from, d, k)]
  {
  }

  /** `CENTER_CELLS`: the only cells a die may be placed on. */
  const CenterCells: seq<Pos> := [Pos(1, 1), Pos(1, 2), Pos(2, 1), Pos(2, 2)]

  /** Every cell of the board in row-major order, the order in which the
      nested `BOARD_SIZE.times` loops of `score_for` visit them. */
  function AllCells(): (cells: seq<Pos>)
    ensures |cells| == BoardSize * BoardSize
    ensures forall p :: p in cells <==> Inside(p)
  {
    var cells := seq(BoardSize * BoardSize, i requires 0 <= i < BoardSize * BoardSize => Pos(i / BoardSize, i % BoardSize));
    assert forall p | Inside(p) :: cells[p.r * BoardSize + p.c] == p;
    cells
  }

  /** Cell `BoardSize * r + c` of the row-major listing is `(r, c)`. */
  lemma AllCellsAt(r: int, c: int)
    requires 0 <= r < BoardSize && 0 <= c < BoardSize
    ensures AllCells()[BoardSize * r + c] == Pos(r, c)
  {
  }

  /** A line of five cells never fits on the board: whatever `p` and `d`,
      the fifth cell (four steps on) of a line starting inside lies outside. */
  lemma FourStepsLeaveBoard(p: Pos, d: Dir)
    requires Inside(p)
    ensures !Inside(Shift(p, d, 4))
  {
  }

  /** Cells of one line are pairwise distinct. */
  lemma ShiftInjective(p: Pos, d: Dir, i: int, j: int)
    ensures Shift(p, d, i) == Shift(p, d, j) <==> i == j
  {
  }
}
