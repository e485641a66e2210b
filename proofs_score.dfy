/** What `score_for` and `evaluate_and_advance!` guarantee, and what the
    finished phase and the turn check do to every action. */
module ScoringProofs {
  import opened Wrappers
  import opened Grid
  import opened Dice
  import opened Seats
  import opened State
  import Rules

  /** Every die of `owner` on the board shows a pip on top. */
  predicate TopsArePips(b: Board, owner: Seat) {
    forall p :: p in b && b[p].owner == owner ==> 1 <= b[p].faces.top <= 6
  }

  /** Each of `owner`'s dice among `ps` adds between 1 and 6, and nothing
      else adds anything. */
  lemma {:induction false} TopSumBounds(b: Board, owner: Seat, ps: seq<Pos>)
    requires TopsArePips(b, owner)
    ensures Rules.OwnedAmong(b, owner, ps) <= Rules.TopSum(b, owner, ps) <= 6 * Rules.OwnedAmong(b, owner, ps)
    decreases |ps|
  {
    if ps != [] {
      TopSumBounds(b, owner, ps[..|ps| - 1]);
    }
  }

  /** A seat's score lies between its number of dice and six times that;
      with at most three dice it lies in 0..18. */
  lemma ScoreBounds(b: Board, owner: Seat)
    requires TopsArePips(b, owner)
    ensures Rules.Owned(b, owner) <= Rules.Score(b, owner) <= 6 * Rules.Owned(b, owner)
    ensures Rules.Owned(b, owner) <= 3 ==> 0 <= Rules.Score(b, owner) <= 18
  {
    TopSumBounds(b, owner, AllCells());
  }

  /** Only `owner`'s own dice count: boards that agree on which cells hold
      `owner`'s dice and on their tops give the same score. */
  lemma {:induction false} TopSumSeesOnlyOwner(b: Board, c: Board, owner: Seat, ps: seq<Pos>)
    requires forall p :: (p in b && b[p].owner == owner) <==> (p in c && c[p].owner == owner)
    requires forall p :: p in b && b[p].owner == owner ==> b[p].faces.top == c[p].faces.top
    ensures Rules.TopSum(b, owner, ps) == Rules.TopSum(c, owner, ps)
    decreases |ps|
  {
    if ps != [] {
      TopSumSeesOnlyOwner(b, c, owner, ps[..|ps| - 1]);
    }
  }

  /** The score of a seat with no dice on the board is 0. */
  lemma {:induction false} NoDiceScoreZero(b: Board, owner: Seat, ps: seq<Pos>)
    requires forall p :: p in b ==> b[p].owner != owner
    ensures Rules.TopSum(b, owner, ps) == 0
    decreases |ps|
  {
    if ps != [] {
      NoDiceScoreZero(b, owner, ps[..|ps| - 1]);
    }
  }

  // ------------------------------------------------------------ end of turn

  /** The game ends only in play, and only for a reason: the winner either
      has exactly 11, or it was the winner's turn and the other seat went
      over 11. Exact 11 is checked first, seat 1 before seat 2. A win sets
      the phase to finished and both `winner` and `winner_slot` to the
      winning seat, and leaves the rest of the state alone. */
  lemma WinIsJustified(s: GameState)
    requires s.phase != Finished
    requires Rules.EvaluateAndAdvance(s).phase == Finished
    ensures var t := Rules.EvaluateAndAdvance(s); var s1 := Rules.Score(s.board, 1); var s2 := Rules.Score(s.board, 2);
      && s.phase == Play
      && t.winner.Some? && t.winnerSlot == t.winner
      && t == s.(phase := Finished, winner := t.winner, winnerSlot := t.winner)
      && (t.winner == Some(1) <==> s1 == 11 || (s2 != 11 && s.turn == Some(1) && s2 >= 12))
      && (t.winner == Some(2) <==> s1 != 11 && (s2 == 11 || (s.turn == Some(2) && s1 >= 12)))
  {
  }

  /** When nobody wins the turn passes: from seat 1 to seat 2, and from
      seat 2 (or from no turn at all) to seat 1; nothing else changes. In
      play this happens exactly when neither seat has 11 and the waiting
      seat is not over 11. */
  lemma OtherwiseTurnPasses(s: GameState)
    requires s.phase != Finished
    ensures var t := Rules.EvaluateAndAdvance(s); var s1 := Rules.Score(s.board, 1); var s2 := Rules.Score(s.board, 2);
      && (t.phase != Finished <==>
           s.phase != Play || (s1 != 11 && s2 != 11 && !(s.turn == Some(1) && s2 >= 12) && !(s.turn == Some(2) && s1 >= 12)))
      && (t.phase != Finished ==>
           t == s.(turn := Some(if s.turn == Some(1) then 2 else 1)) && t.turn.Some? && t.turn != s.turn)
  {
  }

  /** Exactly 11 wins even when the other seat also has exactly 11: seat 1
      is checked first. */
  lemma SeatOneElevenFirst(s: GameState)
    requires s.phase == Play && Rules.Score(s.board, 1) == 11
    ensures Rules.EvaluateAndAdvance(s).winner == Some(1)
  {
  }

  // --------------------------------------------------------------- dispatch
  // Each lemma holds for `apply_action` as written and with the intended
  // chain check alike (`asWritten` either way).

  /** Once the game is finished every action fails with "Game finished",
      and joining fails with "Game already started". */
  lemma FinishedRefusesEverything(s: GameState, action: Action, actor: Seat, e: Entropy, seat: Seat, asWritten: bool)
    requires e.Valid() && s.phase == Finished
    ensures Rules.ApplyActionWith(s, action, actor, e, asWritten) == Err(GameFinished)
    ensures Rules.AddPlayer(s, seat) == Err(GameAlreadyStarted)
  {
  }

  /** `place` and `move` check the turn before the phase: out of turn, and
      in particular while no turn has been set, they fail with "Not your
      turn" whatever the phase (short of finished). */
  lemma TurnCheckedFirst(s: GameState, action: Action, actor: Seat, e: Entropy, asWritten: bool)
    requires e.Valid() && s.phase != Finished
    requires action.Place? || action.Move?
    requires s.turn != Some(actor)
    ensures Rules.ApplyActionWith(s, action, actor, e, asWritten) == Err(NotYourTurn)
  {
  }

  /** With no turn set yet (before the roll-off resolves) `place` and
      `move` always fail with "Not your turn", never with "Phase
      mismatch". */
  lemma NoTurnMeansNotYourTurn(s: GameState, action: Action, actor: Seat, e: Entropy, asWritten: bool)
    requires e.Valid() && s.phase != Finished && s.turn.None?
    requires action.Place? || action.Move?
    ensures Rules.ApplyActionWith(s, action, actor, e, asWritten) == Err(NotYourTurn)
  {
    TurnCheckedFirst(s, action, actor, e, asWritten);
  }

  /** A successful `place` is always followed by the end-of-turn step; as
      a placement never enters play unless all six dice are down, the
      turn simply passes to the other seat. */
  lemma PlacementPassesTurn(s: GameState, dieIndex: int, pos: Pos, actor: Seat, e: Entropy, asWritten: bool)
    requires e.Valid() && s.phase != Finished && s.turn == Some(actor)
    requires Rules.Place(s, actor, dieIndex, pos).Ok?
    requires Rules.Place(s, actor, dieIndex, pos).value.phase != Play
    ensures Rules.ApplyActionWith(s, Place(dieIndex, pos), actor, e, asWritten) ==
      Ok(Rules.Place(s, actor, dieIndex, pos).value.(turn := Some(Other(actor))))
  {
  }

  /** Any other action type fails with "Unknown action type". */
  lemma UnknownActionFails(s: GameState, actor: Seat, e: Entropy, asWritten: bool)
    requires e.Valid() && s.phase != Finished
    ensures Rules.ApplyActionWith(s, Unrecognized, actor, e, asWritten) == Err(UnknownActionType)
  {
  }
}
