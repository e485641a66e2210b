/** What `apply_place` guarantees, and why the play phase cannot be reached
    by placing dice: only the four centre cells take a die and each takes
    one, but the phase changes only after six placements. */
module PlacementProofs {
  import opened Wrappers
  import opened Grid
  import opened Dice
  import opened Seats
  import opened State
  import Rules

  /** Whether seat `actor` holds a dealt die with index `dieIndex`. */
  predicate HoldsDie(s: GameState, actor: Seat, dieIndex: int) {
    actor in s.players && s.players[actor].Dealt?
    && exists i :: 0 <= i < |s.players[actor].dice| && s.players[actor].dice[i].index == dieIndex
  }

  /** A placement succeeds exactly in the placement phase, on an empty
      centre cell, with a die of the actor's that is not yet placed. */
  lemma PlaceSucceedsExactly(s: GameState, actor: Seat, dieIndex: int, pos: Pos)
    ensures Rules.Place(s, actor, dieIndex, pos).Ok? <==>
      && s.phase == Placement
      && pos in CenterCells && pos !in s.board
      && dieIndex !in s.placed.Get(actor) && 1 <= dieIndex <= 3
      && HoldsDie(s, actor, dieIndex)
  {
  }

  /** The checks come in the source's order; in particular an index that is
      already placed is refused as "Die already placed" even when it is also
      outside 1..3. */
  lemma PlaceErrorOrder(s: GameState, actor: Seat, dieIndex: int, pos: Pos)
    ensures s.phase != Placement ==> Rules.Place(s, actor, dieIndex, pos) == Err(PhaseMismatch)
    ensures s.phase == Placement && pos !in CenterCells ==> Rules.Place(s, actor, dieIndex, pos) == Err(MustPlaceOnCenter)
    ensures s.phase == Placement && pos in CenterCells && pos in s.board ==> Rules.Place(s, actor, dieIndex, pos) == Err(CellOccupied)
    ensures s.phase == Placement && pos in CenterCells && pos !in s.board && dieIndex in s.placed.Get(actor) ==>
      Rules.Place(s, actor, dieIndex, pos) == Err(DieAlreadyPlaced)
    ensures s.phase == Placement && pos in CenterCells && pos !in s.board && dieIndex !in s.placed.Get(actor) && !(1 <= dieIndex <= 3) ==>
      Rules.Place(s, actor, dieIndex, pos) == Err(InvalidDieIndex)
  {
  }

  /** A successful placement fills exactly the chosen cell with the actor's
      die (its index and its dealt faces), appends the index to the actor's
      `placed` list, and moves to the play phase exactly when both lists
      reach three; nothing else changes. */
  lemma PlaceFillsOneCell(s: GameState, actor: Seat, dieIndex: int, pos: Pos)
    requires Rules.Place(s, actor, dieIndex, pos).Ok?
    ensures var t := Rules.Place(s, actor, dieIndex, pos).value;
      && pos !in s.board && pos in t.board
      && t.board[pos].owner == actor && t.board[pos].dieIndex == dieIndex
      && Die(dieIndex, t.board[pos].faces) in s.players[actor].dice
      && (forall p :: p != pos ==> (p in t.board <==> p in s.board))
      && (forall p :: p != pos && p in s.board ==> t.board[p] == s.board[p])
      && |t.board| == |s.board| + 1
      && t.placed.Get(actor) == s.placed.Get(actor) + [dieIndex]
      && t.placed.Get(Other(actor)) == s.placed.Get(Other(actor))
      && (t.phase == Play <==> |t.placed.one| == 3 && |t.placed.two| == 3)
      && (t.phase != Play ==> t.phase == Placement)
      && t == s.(board := t.board, placed := t.placed, phase := t.phase)
  {
  }

  // ------------------------------------------------------------ reachability

  /** The centre cells as a set. */
  const CenterSet: set<Pos> := {Pos(1, 1), Pos(1, 2), Pos(2, 1), Pos(2, 2)}

  /** A subset is no larger than its superset. */
  lemma {:induction false} SubsetNoLarger<T>(a: set<T>, b: set<T>)
    requires a <= b
    ensures |a| <= |b|
    decreases |a|
  {
    if a != {} {
      var x :| x in a;
      SubsetNoLarger(a - {x}, b - {x});
    }
  }

  /** Every board cell is a centre cell, and so at most four are filled. */
  lemma CenterBoardHoldsFour(b: Board)
    requires b.Keys <= CenterSet
    ensures |b| <= 4
  {
    SubsetNoLarger(b.Keys, CenterSet);
  }

  /** What holds of every state reached from `initial_state`: the game has
      not got past placement, only centre cells are filled, and there are as
      many dice on the board as entries in the two `placed` lists. */
  ghost predicate BeforePlay(s: GameState) {
    && s.phase != Play && s.phase != Finished
    && s.board.Keys <= CenterSet
    && |s.placed.one| + |s.placed.two| == |s.board|
  }

  /** One request to the engine: a seat joining, or an action sent by a seat
      with the randomness of that call. */
  datatype Request = Join(seat: Seat) | Send(action: Action, actor: Seat, e: Entropy)

  /** A request is well formed when its randomness is. */
  predicate WellFormed(q: Request) {
    q.Send? ==> q.e.Valid()
  }

  /** The state after one request; a refused request leaves it untouched,
      as the engine works on a copy. `asWritten` chooses the engine with
      `collect_chain` as written or with the intended chain check. */
  function Next(s: GameState, q: Request, asWritten: bool): GameState
    requires WellFormed(q)
  {
    var r := match q
      case Join(seat) => Rules.AddPlayer(s, seat)
      case Send(action, actor, e) => Rules.ApplyActionWith(s, action, actor, e, asWritten);
    if r.Ok? then r.value else s
  }

  /** The state after a sequence of requests. */
  function Run(s: GameState, qs: seq<Request>, asWritten: bool): GameState
    requires forall i :: 0 <= i < |qs| ==> WellFormed(qs[i])
    decreases |qs|
  {
    if qs == [] then s else Run(Next(s, qs[0], asWritten), qs[1..], asWritten)
  }

  lemma InitialIsBeforePlay()
    ensures BeforePlay(InitialState())
  {
  }

  /** A placement keeps `BeforePlay`: the new die goes on a centre cell, and
      the six placements the play phase needs cannot fit on four cells. */
  lemma PlaceKeepsBeforePlay(s: GameState, actor: Seat, dieIndex: int, pos: Pos)
    requires BeforePlay(s) && Rules.Place(s, actor, dieIndex, pos).Ok?
    ensures BeforePlay(Rules.Place(s, actor, dieIndex, pos).value)
  {
    var t := Rules.Place(s, actor, dieIndex, pos).value;
    PlaceFillsOneCell(s, actor, dieIndex, pos);
    assert t.board.Keys == s.board.Keys + {pos};
    CenterBoardHoldsFour(t.board);
    assert |t.placed.one| + |t.placed.two| == |t.board| by {
      if actor == 1 {
        assert t.placed.one == s.placed.one + [dieIndex] && t.placed.two == s.placed.two;
      } else {
        assert t.placed.two == s.placed.two + [dieIndex] && t.placed.one == s.placed.one;
      }
    }
  }

  /** A roll-off throw leaves the board and the placements alone, and ends
      in the roll-off or the placement phase. */
  lemma RollDiceKeepsBeforePlay(s: GameState, actor: Seat, e: Entropy)
    requires BeforePlay(s) && e.Valid() && Rules.RollDice(s, actor, e).Ok?
    ensures var t := Rules.RollDice(s, actor, e).value;
      && t.board == s.board && t.placed == s.placed
      && (t.phase == DiceRoll || t.phase == Placement)
      && BeforePlay(t)
  {
  }

  /** An accepted placement, followed by the turn passing, keeps `BeforePlay`. */
  lemma PlaceActionKeepsBeforePlay(s: GameState, actor: Seat, dieIndex: int, pos: Pos)
    requires BeforePlay(s) && Rules.Place(s, actor, dieIndex, pos).Ok?
    ensures BeforePlay(Rules.EvaluateAndAdvance(Rules.Place(s, actor, dieIndex, pos).value))
  {
    PlaceKeepsBeforePlay(s, actor, dieIndex, pos);
  }

  /** Every request keeps `BeforePlay`. */
  lemma NextKeepsBeforePlay(s: GameState, q: Request, asWritten: bool)
    requires BeforePlay(s) && WellFormed(q)
    ensures BeforePlay(Next(s, q, asWritten))
  {
    match q
    case Join(seat) =>
    case Send(action, actor, e) =>
      if s.phase != Finished {
        match action
        case RollDice =>
          if Rules.RollDice(s, actor, e).Ok? {
            RollDiceKeepsBeforePlay(s, actor, e);
          }
        case Place(dieIndex, pos) =>
          if s.turn == Some(actor) && Rules.Place(s, actor, dieIndex, pos).Ok? {
            PlaceActionKeepsBeforePlay(s, actor, dieIndex, pos);
          }
        case Move(from, d) =>
          assert Rules.Move(s, actor, from, d).Err? && Rules.MoveAsWritten(s, actor, from, d).Err?;
        case Unrecognized =>
      }
  }

  lemma {:induction false} RunKeepsBeforePlay(s: GameState, qs: seq<Request>, asWritten: bool)
    requires BeforePlay(s)
    requires forall i :: 0 <= i < |qs| ==> WellFormed(qs[i])
    ensures BeforePlay(Run(s, qs, asWritten))
    decreases |qs|
  {
    if qs != [] {
      NextKeepsBeforePlay(s, qs[0], asWritten);
      RunKeepsBeforePlay(Next(s, qs[0], asWritten), qs[1..], asWritten);
    }
  }

  /** Whatever requests arrive after `initial_state`, the game never reaches
      the play phase (nor finishes), and at most four dice are ever placed:
      the switch to play after six placements never happens. This holds
      for the engine as written and for the one with the intended chain
      check alike. */
  lemma PlayIsUnreachable(qs: seq<Request>, asWritten: bool)
    requires forall i :: 0 <= i < |qs| ==> WellFormed(qs[i])
    ensures Run(InitialState(), qs, asWritten).phase != Play
    ensures Run(InitialState(), qs, asWritten).phase != Finished
    ensures |Run(InitialState(), qs, asWritten).placed.one| + |Run(InitialState(), qs, asWritten).placed.two| <= 4
  {
    InitialIsBeforePlay();
    RunKeepsBeforePlay(InitialState(), qs, asWritten);
    CenterBoardHoldsFour(Run(InitialState(), qs, asWritten).board);
  }

  /** The position of a phase in the order the game goes through them. */
  function Rank(p: Phase): nat {
    match p
    case WaitingForPlayers => 0
    case DiceRoll => 1
    case Placement => 2
    case Play => 3
    case Finished => 4
  }

  /** The end-of-turn evaluation either keeps the phase or finishes the game. */
  lemma EvaluateNeverGoesBack(s: GameState)
    ensures Rules.EvaluateAndAdvance(s).phase == s.phase || Rules.EvaluateAndAdvance(s).phase == Finished
  {
  }

  /** An accepted `place` or `move`, evaluated, does not go back a phase. */
  lemma TurnNeverGoesBack(s: GameState, action: Action, actor: Seat, e: Entropy, asWritten: bool)
    requires e.Valid() && (action.Place? || action.Move?)
    requires Rules.ApplyActionWith(s, action, actor, e, asWritten).Ok?
    ensures Rank(Rules.ApplyActionWith(s, action, actor, e, asWritten).value.phase) >= Rank(s.phase)
  {
    if action.Place? {
      var placed := Rules.Place(s, actor, action.dieIndex, action.pos).value;
      assert placed.phase == Placement || placed.phase == Play;
      EvaluateNeverGoesBack(placed);
    } else {
      var moved := (if asWritten then Rules.MoveAsWritten(s, actor, action.from, action.dir)
                    else Rules.Move(s, actor, action.from, action.dir)).value;
      assert moved.phase == s.phase;
      EvaluateNeverGoesBack(moved);
    }
  }

  /** No request moves the game back to an earlier phase. */
  lemma NextNeverGoesBack(s: GameState, q: Request, asWritten: bool)
    requires WellFormed(q)
    ensures Rank(Next(s, q, asWritten).phase) >= Rank(s.phase)
  {
    match q
    case Join(seat) =>
    case Send(action, actor, e) =>
      if Rules.ApplyActionWith(s, action, actor, e, asWritten).Ok? && (action.Place? || action.Move?) {
        TurnNeverGoesBack(s, action, actor, e, asWritten);
      }
  }

  /** Nor does any sequence of requests. */
  lemma {:induction false} RunNeverGoesBack(s: GameState, qs: seq<Request>, asWritten: bool)
    requires forall i :: 0 <= i < |qs| ==> WellFormed(qs[i])
    ensures Rank(Run(s, qs, asWritten).phase) >= Rank(s.phase)
    decreases |qs|
  {
    if qs != [] {
      NextNeverGoesBack(s, qs[0], asWritten);
      RunNeverGoesBack(Next(s, qs[0], asWritten), qs[1..], asWritten);
    }
  }
}
