/** The roll-off that decides who places first: each seat throws three dice,
    higher sum wins, then higher single die, otherwise a tie. */
module RollOff {
  import opened Seats
  import opened Wrappers

  /** One seat's record `{dice, sum, max}`. */
  datatype RollRecord = RollRecord(dice: seq<int>, sum: int, max: int)

  /** `Array#sum`. */
  function Sum(xs: seq<int>): int {
    if xs == [] then 0 else xs[0] + Sum(xs[1..])
  }

  /** `Array#max`: an element of the sequence that no element exceeds. */
  function Max(xs: seq<int>): (m: int)
    requires xs != []
    ensures m in xs
    ensures forall i :: 0 <= i < |xs| ==> xs[i] <= m
  {
    if |xs| == 1 then xs[0]
    else
      var rest := Max(xs[1..]);
      assert forall i :: 1 <= i < |xs| ==> xs[i] == xs[1..][i - 1];
      if xs[0] >= rest then xs[0] else rest
  }

  /** Three throws, each a pip 1..6, from the unseeded source. */
  predicate ValidThrows(values: seq<int>) {
    |values| == 3 && forall i :: 0 <= i < 3 ==> 1 <= values[i] <= 6
  }

  /** The record stored for a throw of three dice. */
  function MakeRoll(values: seq<int>): (r: RollRecord)
    requires ValidThrows(values)
    ensures r.dice == values
    ensures r.sum == values[0] + values[1] + values[2]
    ensures r.max in values && forall i :: 0 <= i < 3 ==> values[i] <= r.max
    ensures 3 <= r.sum <= 18 && 1 <= r.max <= 6
  {
    assert Sum(values[2..]) == values[2] by { assert values[2..][1..] == []; }
    assert Sum(values[1..]) == values[1] + Sum(values[2..]) by { assert values[1..][1..] == values[2..]; }
    RollRecord(values, Sum(values), Max(values))
  }

  /** The tie-break order: a strictly larger sum, or an equal sum and a
      strictly larger highest die. */
  predicate Beats(a: RollRecord, b: RollRecord) {
    a.sum > b.sum || (a.sum == b.sum && a.max > b.max)
  }

  /** `compare_dice_rolls`: the seat whose roll beats the other's, or none on
      a tie. */
  function CompareDiceRolls(roll1: RollRecord, roll2: RollRecord): (w: Option<Seat>)
    ensures w == Some(1) <==> Beats(roll1, roll2)
    ensures w == Some(2) <==> Beats(roll2, roll1)
    ensures w == None <==> roll1.sum == roll2.sum && roll1.max == roll2.max
  {
    if roll1.sum > roll2.sum then Some(1)
    else if roll1.sum < roll2.sum then Some(2)
    else if roll1.max > roll2.max then Some(1)
    else if roll1.max < roll2.max then Some(2)
    else None
  }

  /** Swapping the two rolls swaps the winning seat. */
  lemma CompareSwapped(roll1: RollRecord, roll2: RollRecord)
    ensures CompareDiceRolls(roll2, roll1) == match CompareDiceRolls(roll1, roll2)
                                             case None => None
                                             case Some(s) => Some(Other(s))
  {
  }

  /** `Beats` is a strict order in which every pair of distinct (sum, max)
      pairs is comparable, so the roll-off always names a winner unless
      both pairs agree. */
  lemma BeatsIsStrictTotal(a: RollRecord, b: RollRecord, c: RollRecord)
    ensures !Beats(a, a)
    ensures Beats(a, b) ==> !Beats(b, a)
    ensures Beats(a, b) && Beats(b, c) ==> Beats(a, c)
    ensures (a.sum, a.max) != (b.sum, b.max) ==> Beats(a, b) || Beats(b, a)
  {
  }
}
