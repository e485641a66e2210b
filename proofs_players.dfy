/** What `add_player` guarantees: when it fails, what it records, when the
    game moves on to the roll-off, and what re-adding a seat does. */
module PlayerProofs {
  import opened Wrappers
  import opened Seats
  import opened State
  import Rules

  /** A seat map has two entries exactly when both seats are keys, as there
      are only two seats. */
  lemma TwoEntriesMeansBothSeats<V>(m: map<Seat, V>)
    ensures |m| == 2 <==> 1 in m && 2 in m
  {
    var keys := m.Keys;
    if 1 in m && 2 in m {
      assert keys == {1, 2};
    } else if 1 in m {
      assert keys == {1};
    } else if 2 in m {
      assert keys == {2};
    } else {
      assert keys == {};
    }
  }

  /** `add_player` fails exactly outside the waiting phase, and then with
      "Game already started". */
  lemma AddPlayerFailsOnlyOnceStarted(s: GameState, seat: Seat)
    ensures Rules.AddPlayer(s, seat).Err? <==> s.phase != WaitingForPlayers
    ensures Rules.AddPlayer(s, seat).Err? ==> Rules.AddPlayer(s, seat).error == GameAlreadyStarted
  {
  }

  /** A successful `add_player` sets the seat's record to an empty one and
      moves to the roll-off exactly when both seats are then registered;
      nothing else changes. */
  lemma AddPlayerRegisters(s: GameState, seat: Seat)
    requires s.phase == WaitingForPlayers
    ensures Rules.AddPlayer(s, seat).Ok?
    ensures var t := Rules.AddPlayer(s, seat).value;
      && t.players == s.players[seat := Joined]
      && (t.phase == DiceRoll <==> 1 in t.players && 2 in t.players)
      && (t.phase != DiceRoll ==> t.phase == WaitingForPlayers)
      && t == s.(players := t.players, phase := t.phase)
  {
    TwoEntriesMeansBothSeats(s.players[seat := Joined]);
  }

  /** Re-adding a seat that is already registered overwrites its record with
      an empty one and leaves the number of players unchanged, so a game
      still waiting for its second player keeps waiting. */
  lemma AddPlayerTwiceKeepsCount(s: GameState, seat: Seat)
    requires s.phase == WaitingForPlayers && seat in s.players
    ensures Rules.AddPlayer(s, seat).Ok?
    ensures |Rules.AddPlayer(s, seat).value.players| == |s.players|
    ensures Rules.AddPlayer(s, seat).value.players[seat] == Joined
    ensures |s.players| < 2 ==> Rules.AddPlayer(s, seat).value.phase == WaitingForPlayers
  {
    assert s.players[seat := Joined].Keys == s.players.Keys;
  }

  /** From the initial state, joining seat 1, seat 1 again and then seat 2
      starts the roll-off only at the third call. */
  lemma JoiningTwiceThenOtherSeat()
    ensures var a := Rules.AddPlayer(InitialState(), 1);
      && a.Ok? && a.value.phase == WaitingForPlayers
      && var b := Rules.AddPlayer(a.value, 1);
      && b.Ok? && b.value.phase == WaitingForPlayers
      && var c := Rules.AddPlayer(b.value, 2);
      && c.Ok? && c.value.phase == DiceRoll
  {
    var a := Rules.AddPlayer(InitialState(), 1);
    assert a.value.players == map[1 := Joined];
    var b := Rules.AddPlayer(a.value, 1);
    assert b.value.players == map[1 := Joined];
    var c := Rules.AddPlayer(b.value, 2);
    TwoEntriesMeansBothSeats(c.value.players);
  }
}
