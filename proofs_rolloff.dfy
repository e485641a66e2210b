/** What the roll-off (`apply_roll_dice` and `resolve_dice_roll!`)
    guarantees: its errors, what a throw records, the tie and the deal. */
module RollOffProofs {
  import opened Wrappers
  import opened Dice
  import opened Seats
  import opened RollOff
  import opened State
  import Rules

  /** A throw fails exactly outside the roll-off phase ("Phase mismatch")
      or when the seat has already thrown in an open round ("Already
      rolled"). */
  lemma RollDiceFailures(s: GameState, actor: Seat, e: Entropy)
    requires e.Valid()
    ensures var r := Rules.RollDice(s, actor, e);
      && (r.Err? <==> s.phase != DiceRoll || actor in Rules.OpenRound(s).rolls)
      && (s.phase != DiceRoll ==> r == Err(PhaseMismatch))
      && (s.phase == DiceRoll && actor in Rules.OpenRound(s).rolls ==> r == Err(AlreadyRolled))
  {
  }

  /** A round that already has a result is cleared before the throw: a
      throw after a tie always succeeds and leaves only the thrower's
      record, so the tied seats can both throw again. */
  lemma ThrowAfterResultStartsNewRound(s: GameState, actor: Seat, e: Entropy)
    requires e.Valid() && s.phase == DiceRoll && s.diceRoll.result.Some?
    ensures var r := Rules.RollDice(s, actor, e);
      && r.Ok?
      && r.value == s.(diceRoll := DiceRound(map[actor := MakeRoll(e.throws)], None, None))
  {
    assert Other(actor) !in map[actor := MakeRoll(e.throws)];
  }

  /** The first throw of an open round records three values in 1..6 with
      their sum and maximum and changes nothing else. */
  lemma FirstThrowIsRecorded(s: GameState, actor: Seat, e: Entropy)
    requires e.Valid() && s.phase == DiceRoll && s.diceRoll.result.None?
    requires actor !in s.diceRoll.rolls && Other(actor) !in s.diceRoll.rolls
    ensures var r := Rules.RollDice(s, actor, e);
      && r.Ok?
      && r.value == s.(diceRoll := s.diceRoll.(rolls := s.diceRoll.rolls[actor := MakeRoll(e.throws)]))
      && var rec := r.value.diceRoll.rolls[actor];
      && |rec.dice| == 3
      && (forall i :: 0 <= i < 3 ==> 1 <= rec.dice[i] <= 6)
      && rec.sum == rec.dice[0] + rec.dice[1] + rec.dice[2]
      && rec.max in rec.dice && (forall i :: 0 <= i < 3 ==> rec.dice[i] <= rec.max)
  {
    var rolls := s.diceRoll.rolls[actor := MakeRoll(e.throws)];
    assert Other(actor) !in rolls;
  }

  /** On a tie the round is reset to a bare tie result while the phase,
      the turn and the players stay as they were. */
  lemma TieKeepsPhaseAndTurn(s: GameState, draws: seq<FaceDraw>)
    requires 1 in s.diceRoll.rolls && 2 in s.diceRoll.rolls
    requires |draws| == 6 && forall i :: 0 <= i < 6 ==> ValidDraw(draws[i])
    requires s.diceRoll.rolls[1].sum == s.diceRoll.rolls[2].sum && s.diceRoll.rolls[1].max == s.diceRoll.rolls[2].max
    ensures Rules.ResolveDiceRoll(s, draws) == s.(diceRoll := DiceRound(map[], Some(Tie), None))
  {
  }

  /** `dice` is a fair deal from the three draws starting at `offset`: dice
      indexed 1, 2, 3, each with the drawn top, bottom 7 minus top, and the
      values 1..6 once each. */
  ghost predicate FairDeal(dice: seq<Die>, draws: seq<FaceDraw>, offset: nat) {
    && |dice| == 3 && offset + 3 <= |draws|
    && forall i :: 0 <= i < 3 ==>
         && dice[i].index == i + 1
         && dice[i].faces.top == draws[offset + i].top
         && dice[i].faces.bottom == 7 - dice[i].faces.top
         && IsPipPermutation(dice[i].faces)
  }

  /** Each seat's dice are dealt fairly from its three draws. */
  lemma DealIsFair(draws: seq<FaceDraw>, offset: nat)
    requires |draws| == 6 && forall i :: 0 <= i < 6 ==> ValidDraw(draws[i])
    requires offset == 0 || offset == 3
    ensures FairDeal(InitialDiceSet(draws[offset..offset + 3]), draws, offset)
  {
    var part := draws[offset..offset + 3];
    forall i | 0 <= i < 3 ensures part[i] == draws[offset + i] {
    }
  }

  /** Otherwise the seat whose roll beats the other's moves first: the
      result is `resolved`, the turn and `first_player` are that seat, the
      phase is placement, and each seat is dealt three dice indexed 1, 2, 3
      whose bottoms are 7 minus their tops and whose faces are 1..6 once
      each; seat 1 gets the first three draws, seat 2 the last three. */
  lemma WinnerMovesFirstAndBothAreDealt(s: GameState, draws: seq<FaceDraw>, w: Seat)
    requires 1 in s.diceRoll.rolls && 2 in s.diceRoll.rolls
    requires |draws| == 6 && forall i :: 0 <= i < 6 ==> ValidDraw(draws[i])
    requires Beats(s.diceRoll.rolls[w], s.diceRoll.rolls[Other(w)])
    ensures var t := Rules.ResolveDiceRoll(s, draws);
      && t.phase == Placement && t.turn == Some(w)
      && t.diceRoll.result == Some(Resolved) && t.diceRoll.firstPlayer == Some(w)
      && t.diceRoll.rolls == s.diceRoll.rolls
      && t.board == s.board && t.placed == s.placed && t.winner == s.winner
      && 1 in t.players && t.players[1].Dealt? && FairDeal(t.players[1].dice, draws, 0)
      && 2 in t.players && t.players[2].Dealt? && FairDeal(t.players[2].dice, draws, 3)
  {
    DealIsFair(draws, 0);
    DealIsFair(draws, 3);
    assert draws[3..] == draws[3..6];
  }

  /** A full roll-off from the start of the roll-off phase: seat 1 throws
      6, 6, 1 and seat 2 throws 5, 5, 3 (both sum 13, seat 1 has the larger
      maximum), so seat 1 moves first. */
  lemma HigherMaxBreaksEqualSums(s: GameState, draws: seq<FaceDraw>)
    requires s.phase == DiceRoll && s.diceRoll == DiceRound(map[], None, None)
    requires |draws| == 6 && forall i :: 0 <= i < 6 ==> ValidDraw(draws[i])
    ensures var a := Rules.RollDice(s, 1, Entropy([6, 6, 1], draws));
      && a.Ok? && a.value.phase == DiceRoll
      && var b := Rules.RollDice(a.value, 2, Entropy([5, 5, 3], draws));
      && b.Ok? && b.value.phase == Placement && b.value.turn == Some(1)
  {
    var e1 := Entropy([6, 6, 1], draws);
    var e2 := Entropy([5, 5, 3], draws);
    var r1 := MakeRoll([6, 6, 1]);
    var r2 := MakeRoll([5, 5, 3]);
    assert r1.max == 6 by { assert r1.max in [6, 6, 1]; }
    assert r2.max <= 5 by { assert r2.max in [5, 5, 3]; }
    FirstThrowIsRecorded(s, 1, e1);
    var a := Rules.RollDice(s, 1, e1).value;
    assert a.diceRoll == DiceRound(map[1 := r1], None, None);
    var recorded := a.(diceRoll := a.diceRoll.(rolls := map[1 := r1, 2 := r2]));
    assert Rules.RollDice(a, 2, e2) == Ok(Rules.ResolveDiceRoll(recorded, draws));
    WinnerMovesFirstAndBothAreDealt(recorded, draws, 1);
  }
}
