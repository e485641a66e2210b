/** The six faces of a BlockJack die, how they rotate when the die rolls one
    cell, and how a fresh die is generated from the seeded random source. */
module Dice {
  import opened Grid
  import opened Wrappers

  /** A face map `{top, bottom, north, south, east, west}`. */
  datatype Faces = Faces(top: int, bottom: int, north: int, south: int, east: int, west: int)

  /** 1 when face value `a` is `v`, else 0. */
  function One(a: int, v: int): nat {
    if a == v then 1 else 0
  }

  /** How many of the six faces show `v`. */
  function Count(f: Faces, v: int): nat {
    One(f.top, v) + One(f.bottom, v) + One(f.north, v) + One(f.south, v) + One(f.east, v) + One(f.west, v)
  }

  /** `g` carries the same six face values as `f`, each as often: a
      rearrangement of the faces. */
  ghost predicate SameFaces(f: Faces, g: Faces) {
    forall v :: Count(f, v) == Count(g, v)
  }

  /** The six faces carry the pips 1..6, each exactly once. */
  ghost predicate IsPipPermutation(f: Faces) {
    forall v :: Count(f, v) == if 1 <= v <= 6 then 1 else 0
  }

  /** A physical die: a pip permutation whose three pairs of opposite faces
      each add up to 7. */
  ghost predicate IsStandard(f: Faces) {
    IsPipPermutation(f) && f.top + f.bottom == 7 && f.north + f.south == 7 && f.east + f.west == 7
  }

  /** `roll_north`: the south face comes up, the top goes north. */
  function RollNorth(f: Faces): (g: Faces)
    ensures SameFaces(f, g)
    ensures g.east == f.east && g.west == f.west
    ensures g.top == f.south && g.north == f.top
  {
    Faces(top := f.south, bottom := f.north, north := f.top, south := f.bottom, east := f.east, west := f.west)
  }

  /** `roll_south`: the north face comes up, the top goes south. */
  function RollSouth(f: Faces): (g: Faces)
    ensures SameFaces(f, g)
    ensures g.east == f.east && g.west == f.west
    ensures g.top == f.north && g.south == f.top
  {
    Faces(top := f.north, bottom := f.south, north := f.bottom, south := f.top, east := f.east, west := f.west)
  }

  /** `roll_east`: the west face comes up, the top goes east. */
  function RollEast(f: Faces): (g: Faces)
    ensures SameFaces(f, g)
    ensures g.north == f.north && g.south == f.south
    ensures g.top == f.west && g.east == f.top
  {
    Faces(top := f.west, bottom := f.east, north := f.north, south := f.south, east := f.top, west := f.bottom)
  }

  /** `roll_west`: the east face comes up, the top goes west. */
  function RollWest(f: Faces): (g: Faces)
    ensures SameFaces(f, g)
    ensures g.north == f.north && g.south == f.south
    ensures g.top == f.east && g.west == f.top
  {
    Faces(top := f.east, bottom := f.west, north := f.north, south := f.south, east := f.bottom, west := f.top)
  }

  /** The face dispatch of `roll_cell`. */
  function Roll(f: Faces, d: Dir): Faces {
    match d
    case N => RollNorth(f)
    case S => RollSouth(f)
    case E => RollEast(f)
    case W => RollWest(f)
  }

  /** Rolling `n` times in the same direction. */
  function RollTimes(f: Faces, d: Dir, n: nat): Faces
    decreases n
  {
    if n == 0 then f else Roll(RollTimes(f, d, n - 1), d)
  }

  /** Rolling permutes the faces and keeps the two faces on the rolling axis. */
  lemma RollPermutes(f: Faces, d: Dir)
    ensures SameFaces(f, Roll(f, d))
    ensures d in {N, S} ==> Roll(f, d).east == f.east && Roll(f, d).west == f.west
    ensures d in {E, W} ==> Roll(f, d).north == f.north && Roll(f, d).south == f.south
  {
  }

  /** Rolling back the opposite way restores the faces: N then S, S then N,
      E then W and W then E are the identity. */
  lemma RollInverse(f: Faces, d: Dir)
    ensures Roll(Roll(f, d), Reverse(d)) == f
  {
  }

  /** Four rolls in one direction bring the die back to where it was. */
  lemma {:induction false} RollFourTimes(f: Faces, d: Dir, m: nat)
    ensures RollTimes(f, d, 4 * m) == f
  {
    if m > 0 {
      var g := RollTimes(f, d, 4 * (m - 1));
      RollFourTimes(f, d, m - 1);
      calc {
        RollTimes(f, d, 4 * m);
        Roll(RollTimes(f, d, 4 * m - 1), d);
        Roll(Roll(RollTimes(f, d, 4 * m - 2), d), d);
        Roll(Roll(Roll(RollTimes(f, d, 4 * m - 3), d), d), d);
        Roll(Roll(Roll(Roll(g, d), d), d), d);
        g;
      }
    }
  }

  /** A physical die stays a physical die under every roll. */
  lemma RollKeepsStandard(f: Faces, d: Dir)
    requires IsStandard(f)
    ensures IsStandard(Roll(f, d))
  {
    RollPermutes(f, d);
  }

  /** `opposite`: the face opposite `n` on a standard die. */
  function Opposite(n: int): int {
    7 - n
  }

  /** Ruby's `Array#-`: `xs` without every occurrence of `a` and of `b`;
      `WithoutCounts` shows every other element is kept as often as it
      occurs. */
  function Without(xs: seq<int>, a: int, b: int): (r: seq<int>)
    ensures forall x :: x in r <==> x in xs && x != a && x != b
    ensures |r| <= |xs|
  {
    if xs == [] then []
    else if xs[0] == a || xs[0] == b then Without(xs[1..], a, b)
    else [xs[0]] + Without(xs[1..], a, b)
  }

  /** `Without` removes every copy of `a` and `b` and keeps every other
      value as many times as `xs` holds it. */
  lemma {:induction false} WithoutCounts(xs: seq<int>, a: int, b: int, x: int)
    ensures multiset(Without(xs, a, b))[x] == if x == a || x == b then 0 else multiset(xs)[x]
    decreases |xs|
  {
    if xs != [] {
      WithoutCounts(xs[1..], a, b, x);
      assert xs == [xs[0]] + xs[1..];
    }
  }

  /** `[1, 2, 3, 4, 5, 6] - [top, bottom]`: the four side values of a die
      whose top is `top`. */
  function Remaining(top: int): seq<int> {
    Without([1, 2, 3, 4, 5, 6], top, Opposite(top))
  }

  /** The side values for each top: `[1, 2, 3, 4, 5, 6] - [top, 7 - top]`
      evaluated. */
  lemma RemainingTable(top: int)
    requires 1 <= top <= 6
    ensures Remaining(top) == if top == 1 || top == 6 then [2, 3, 4, 5]
                              else if top == 2 || top == 5 then [1, 3, 4, 6]
                              else [1, 2, 5, 6]
  {
    if top == 1 {
      assert Remaining(1) == [2, 3, 4, 5];
    } else if top == 2 {
      assert Remaining(2) == [1, 3, 4, 6];
    } else if top == 3 {
      assert Remaining(3) == [1, 2, 5, 6];
    } else if top == 4 {
      assert Remaining(4) == [1, 2, 5, 6];
    } else if top == 5 {
      assert Remaining(5) == [1, 3, 4, 6];
    } else {
      assert Remaining(6) == [2, 3, 4, 5];
    }
  }

  /** The multiplicity of `v` among four values. */
  lemma CountFour(xs: seq<int>, v: int)
    requires |xs| == 4
    ensures multiset(xs)[v] == One(xs[0], v) + One(xs[1], v) + One(xs[2], v) + One(xs[3], v)
  {
    assert xs == [xs[0]] + [xs[1]] + [xs[2]] + [xs[3]];
  }

  /** What the seeded generator contributes to one die: `top`, the value of
      `@rng.rand(1..6)`, and `rest`, the four side values in the order the
      seeded `shuffle` left them. */
  datatype FaceDraw = FaceDraw(top: int, rest: seq<int>)

  /** The only assumption on the generator: the top is a pip and the shuffle
      returns some permutation of the four side values. */
  predicate ValidDraw(d: FaceDraw) {
    1 <= d.top <= 6 && multiset(d.rest) == multiset(Remaining(d.top))
  }

  /** `random_faces`: the drawn top, its opposite at the bottom, and the
      shuffled side values assigned to north, south, east, west. */
  function RandomFaces(d: FaceDraw): (f: Faces)
    requires ValidDraw(d)
    ensures f.top == d.top && f.bottom == 7 - f.top
    ensures IsPipPermutation(f)
  {
    RemainingTable(d.top);
    assert |d.rest| == |multiset(d.rest)| == 4;
    var f := Faces(d.top, Opposite(d.top), d.rest[0], d.rest[1], d.rest[2], d.rest[3]);
    DrawnFacesArePips(d, f);
    f
  }

  lemma DrawnFacesArePips(d: FaceDraw, f: Faces)
    requires ValidDraw(d) && |d.rest| == 4
    requires f == Faces(d.top, Opposite(d.top), d.rest[0], d.rest[1], d.rest[2], d.rest[3])
    ensures IsPipPermutation(f)
  {
    forall v ensures Count(f, v) == if 1 <= v <= 6 then 1 else 0 {
      CountFour(d.rest, v);
      TopAndSidesArePips(d.top, v);
    }
  }

  /** A top, its opposite and the four side values count every pip once. */
  lemma TopAndSidesArePips(top: int, v: int)
    requires 1 <= top <= 6
    ensures |Remaining(top)| == 4
    ensures One(top, v) + One(Opposite(top), v) + multiset(Remaining(top))[v] == if 1 <= v <= 6 then 1 else 0
  {
    RemainingTable(top);
    CountFour(Remaining(top), v);
  }

  /** Only the top and bottom of a generated die are opposite: with top 1
      and the side values left in the order 2, 3, 4, 5, north is 2 and south
      is 3, so one roll north leaves 3 on top and 2 below, summing to 5. */
  lemma RollCanBreakOppositeSum()
    ensures ValidDraw(FaceDraw(1, [2, 3, 4, 5]))
    ensures var f := RandomFaces(FaceDraw(1, [2, 3, 4, 5]));
      f.top + f.bottom == 7 && Roll(f, N).top + Roll(f, N).bottom == 5
  {
    RemainingTable(1);
  }

  /** A die of one seat: its index 1..3 and its current faces. */
  datatype Die = Die(index: int, faces: Faces)

  /** `initial_dice_set`: dice 1, 2, 3, die `i` drawing its faces from the
      `i`-th of three consecutive generator draws. */
  function InitialDiceSet(draws: seq<FaceDraw>): (dice: seq<Die>)
    requires |draws| == 3 && forall i :: 0 <= i < 3 ==> ValidDraw(draws[i])
    ensures |dice| == 3
    ensures forall i :: 0 <= i < 3 ==> dice[i].index == i + 1 && dice[i].faces.top == draws[i].top
    ensures forall i :: 0 <= i < 3 ==> dice[i].faces.bottom == 7 - dice[i].faces.top && IsPipPermutation(dice[i].faces)
  {
    seq(3, i requires 0 <= i < 3 && ValidDraw(draws[i]) => Die(i + 1, RandomFaces(draws[i])))
  }

  /** `dice.find { |d| d["index"] == die_index }`: the first die with that
      index, if any. */
  function FindDie(dice: seq<Die>, index: int): (r: Option<Die>)
    ensures r.Some? ==> r.value in dice && r.value.index == index
    ensures r.None? <==> forall i :: 0 <= i < |dice| ==> dice[i].index != index
    ensures r.Some? ==> exists i :: 0 <= i < |dice| && dice[i] == r.value && forall j :: 0 <= j < i ==> dice[j].index != index
  {
    if dice == [] then None
    else if dice[0].index == index then Some(dice[0])
    else
      var r := FindDie(dice[1..], index);
      assert r.Some? ==> r.value in dice[1..];
      r
  }
}
