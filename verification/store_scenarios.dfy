/**
 * Clients of `Store.GameState` that follow the two-phase protocol
 * (validate, then consume on the same state) through whole matches, and
 * show what the contracts of `Validate` and `Consume` add up to.
 */
module StoreScenarios {
  import opened Wrappers
  import opened Store
  import HexGrid

  /** Two players join and the first of them begins the game: placement
    * starts, both garages hold the full roster and the first player moves. */
  method StartTwoPlayerGame(p1: PlayerId, p2: PlayerId, d1: Player, d2: Player) returns (g: GameState)
    requires p1 != p2
    ensures fresh(g)
    ensures g.stage == PreGame && g.curPlayer == Some(p1)
    ensures g.players == map[p1 := d1, p2 := d2]
    ensures g.playersGarage == map[p1 := SHIPS, p2 := SHIPS]
    ensures g.history == [PlayerJoined(p1, d1), PlayerJoined(p2, d2), BeginGame(p1)]
  {
    g := new GameState();
    assert g.Validate(PlayerJoined(p1, d1));
    g.Consume(PlayerJoined(p1, d1));
    assert g.Validate(PlayerJoined(p2, d2));
    g.Consume(PlayerJoined(p2, d2));
    assert g.players.Keys == {p1, p2};
    assert g.Validate(BeginGame(p1));
    g.Consume(BeginGame(p1));
  }

  /** Beginning with a single registered player is rejected and nothing changes. */
  method BeginNeedsTwoPlayers(p1: PlayerId, d1: Player) returns (g: GameState, accepted: bool)
    ensures !accepted
    ensures g.stage == Lobby && g.players == map[p1 := d1] && g.curPlayer == None
  {
    g := new GameState();
    assert g.Validate(PlayerJoined(p1, d1));
    g.Consume(PlayerJoined(p1, d1));
    accepted := g.Validate(BeginGame(p1));
  }

  /** Only the player whose turn it is may move, and the turn then passes to
    * the other player. */
  method TurnOwnership(p1: PlayerId, p2: PlayerId, d1: Player, d2: Player, at: HexGrid.CubeCoords)
    returns (g: GameState, wrongTurn: bool, rightTurn: bool)
    requires p1 != p2
    ensures !wrongTurn && rightTurn
    ensures g.curPlayer == Some(p2)
  {
    g := StartTwoPlayerGame(p1, p2, d1, d2);
    wrongTurn := g.Validate(ShipMove(p2, at));
    rightTurn := g.Validate(ShipMove(p1, at));
    g.Consume(ShipMove(p1, at));
    TwoPlayersAlternate(p1, g.players.Keys, g.curPlayer);
  }

  /** A third player may join during placement. `Validate` then still accepts a
    * placement by the first player, but consuming it would panic, because the
    * newcomer has no garage when the remaining ships are summed. */
  method JoinAfterBeginAborts(p1: PlayerId, p2: PlayerId, p3: PlayerId, d1: Player, d2: Player, d3: Player,
                              at: HexGrid.CubeCoords, rotation: Rotation)
    returns (g: GameState, event: GameEvent)
    requires p1 != p2 && p3 != p1 && p3 != p2
    requires |SHIPS| > 0
    ensures event == ShipPlaced(p1, at, rotation)
    ensures g.Validate(event) && g.Aborts(event)
    ensures !g.GaragesCoverPlayers()
  {
    g := StartTwoPlayerGame(p1, p2, d1, d2);
    assert g.Validate(PlayerJoined(p3, d3));
    g.Consume(PlayerJoined(p3, d3));
    assert p3 in g.players && p3 !in g.playersGarage;
    event := ShipPlaced(p1, at, rotation);
  }

  /** `Ended` is not final: after a player leaves, beginning again is accepted
    * and returns the match to placement with fresh garages. */
  method RestartAfterEnd(p1: PlayerId, p2: PlayerId, d1: Player, d2: Player)
    returns (g: GameState, ended: GameStage, restarted: bool)
    requires p1 != p2
    ensures ended == Ended && restarted
    ensures g.stage == PreGame && g.playersGarage == map[p1 := SHIPS, p2 := SHIPS]
  {
    g := StartTwoPlayerGame(p1, p2, d1, d2);
    assert g.Validate(EndGame(PlayerLeft(p2)));
    g.Consume(EndGame(PlayerLeft(p2)));
    ended := g.stage;
    assert g.players.Keys == {p1, p2};
    restarted := g.Validate(BeginGame(p1));
    g.Consume(BeginGame(p1));
  }

  /** Placing `n` ships, the first player's roster first: the stage stays
    * `PreGame` while any ship remains and becomes `InGame` with the placement
    * that empties the last garage, that is after exactly twice the roster's
    * length placements. */
  method PlaceShips(p1: PlayerId, p2: PlayerId, d1: Player, d2: Player, at: HexGrid.CubeCoords, n: nat)
    returns (g: GameState)
    requires p1 != p2
    requires n <= 2 * |SHIPS|
    ensures g.players == map[p1 := d1, p2 := d2]
    ensures g.playersGarage == map[p1 := SHIPS[if n < |SHIPS| then n else |SHIPS|..],
                                   p2 := SHIPS[if n < |SHIPS| then 0 else n - |SHIPS|..]]
    ensures g.stage == (if 0 < n == 2 * |SHIPS| then InGame else PreGame)
    ensures g.AllShipsPlaced() <==> n == 2 * |SHIPS|
  {
    g := StartTwoPlayerGame(p1, p2, d1, d2);
    var placed := 0;
    while placed < n
      invariant placed <= n <= 2 * |SHIPS|
      invariant g.players == map[p1 := d1, p2 := d2]
      invariant g.playersGarage.Keys == {p1, p2}
      invariant g.playersGarage[p1] == SHIPS[if placed < |SHIPS| then placed else |SHIPS|..]
      invariant g.playersGarage[p2] == SHIPS[if placed < |SHIPS| then 0 else placed - |SHIPS|..]
      invariant g.stage == (if 0 < placed == 2 * |SHIPS| then InGame else PreGame)
      modifies g
    {
      var p := if placed < |SHIPS| then p1 else p2;
      var event := ShipPlaced(p, at, 0);
      assert g.Validate(event);
      g.Consume(event);
      placed := placed + 1;
      assert g.players.Keys == {p1, p2};
      assert g.playersGarage[p1] == [] <==> |SHIPS| <= placed;
      assert g.playersGarage[p2] == [] <==> placed == 2 * |SHIPS|;
      assert g.AllShipsPlaced() <==> placed == 2 * |SHIPS|;
    }
    assert g.AllShipsPlaced() <==> n == 2 * |SHIPS|;
  }
}
