# Battleships store: a Dafny model

This project models the rules core of a two-player, turn-based game played on
a hexagonal grid: the players place their ships, then take turns moving them.

- **`Store`** (store/src/lib.rs) is the event-sourced `GameState` aggregate. It is a
  class with the five fields of the Rust struct: the stage, the player
  registry, each player's garage (the queue of ships still to place), the
  history of consumed events, and the optional current player.
  - `Validate` is the side-effect-free gate that accepts or rejects a `GameEvent`.
  - `Consume` applies an event in place and appends it to the history.
  - `NextPlayer` and `IsPlayerTurn` are the turn helpers.
  - `Aborts` states exactly when the Rust `consume` panics, and `Consume` requires that it does not.
- **`StoreScenarios`** holds clients that drive a `GameState` through whole
  matches with the validate-then-consume protocol.
- **`HexGrid`** (store/src/map/mod.rs) is the integer part of the map:
  - cube coordinates with `Add` and `Sub`;
  - the neighbour and diagonal direction tables;
  - `Hexagon::distance`, as half the sum of the absolute coordinate differences;
  - the coordinate loop of `HexMap::new_from_axial`.

Three facts about the code shape the model:
- The stages are `Lobby`, `PreGame` (ship placement), `InGame` (moves),
  `Paused` and `Ended`.
- `Ended` is not terminal. `BeginGame` has no stage check (lib.rs:90-97), so a
  game can return to placement after it ended (`RestartAfterEnd`).
- During `PreGame`, `ShipPlaced` is accepted for any id that has a non-empty garage
  (lib.rs:120-138). The id does not have to be registered.

Validation does not guarantee that consumption succeeds. A new id that joins
after `BeginGame` has no garage; a player who disconnects and rejoins keeps
theirs, because `PlayerDisconnected` leaves the garages alone. `Validate` still
accepts a `ShipPlaced` from another player, and `consume` then panics while summing the remaining ships
(lib.rs:190). `JoinAfterBeginAborts` exhibits this. `ValidImpliesConsumable`
shows that the extra invariant `GaragesCoverPlayers` closes the gap. `Consume`
preserves that invariant for every event except a join during placement.

## Model

| member | source | states |
|---|---|---|
| HexGrid.Add | store/src/map/mod.rs:12-22 | the sum of two coordinates that satisfy q+r+s = 0 satisfies it too |
| HexGrid.Sub | store/src/map/mod.rs:23-33 | the difference keeps q+r+s = 0, and it is the zero coordinate exactly when both operands are equal |
| HexGrid.AddSubInverse | store/src/map/mod.rs:12-33 | subtracting b undoes adding b, and adding b undoes subtracting b |
| HexGrid.NeighborTable | store/src/map/mod.rs:35-42 | six entries; each satisfies q+r+s = 0 with abs(q)+abs(r)+abs(s) = 2; entry i+3 (mod 6) is the opposite of entry i |
| HexGrid.DiagonalTable | store/src/map/mod.rs:44-51 | six entries; each satisfies q+r+s = 0 with abs(q)+abs(r)+abs(s) = 4; entry i is the sum of neighbours i and i+1 (mod 6) |
| HexGrid.Distance | store/src/map/mod.rs:126-134 | None exactly when either hexagon lacks coordinates; otherwise non-negative, and zero exactly when the coordinates are equal |
| HexGrid.OnGridNormEven | store/src/map/mod.rs:130 | on the grid, abs(q)+abs(r)+abs(s) is even, so the division by 2 is exact |
| HexGrid.DistanceIsWhole | store/src/map/mod.rs:126-134 | between placed hexagons the distance is the whole number (abs(dq)+abs(dr)+abs(ds))/2 |
| HexGrid.DistanceSymmetric | store/src/map/mod.rs:126-134 | the distance from a to b equals the distance from b to a |
| HexGrid.StepDistance | store/src/map/mod.rs:35-51 | moving by a neighbour direction gives distance 1, by a diagonal direction distance 2 |
| HexGrid.NewFromAxial | store/src/map/mod.rs:144-157 | every hexagon has a coordinate; q and s lie in [-radius, radius], r = -s-q so q+r+s = 0, and abs(r) <= 3; every such coordinate appears; order is q ascending, then s ascending |
| Store.RemainingShips | store/src/lib.rs:188-191 | the reference sum of the garage lengths of the counted players that the remainder loop computes; no counted garage holds more ships than the sum |
| Store.RemainingShipsRemove | store/src/lib.rs:188-191 | the sum of garage lengths does not depend on the order the registry is scanned in |
| Store.RemainingShipsZero | store/src/lib.rs:188-195 | no ships remain exactly when every registered player's garage is empty |
| Store.RemainingShipsFrame | store/src/lib.rs:188-191 | the sum reads only the garages of the registered players |
| Store.RemainingShipsPop | store/src/lib.rs:184-191 | popping the front of a registered player's garage lowers the sum by one; the garage of an unregistered id does not count |
| Store.TwoPlayersAlternate | store/src/lib.rs:202-211 | with exactly two registered players, one of whom moved, the next player is the other one |
| Store.GameState.constructor | store/src/lib.rs:73-83 | default state: Lobby, empty registry, garages and history, no current player |
| Store.GameState.IsPlayerTurn | store/src/lib.rs:213-220 | true exactly when the current player is the given id |
| Store.GameState.Aborts | store/src/lib.rs:180-191 | true exactly at the three panic sites of consume (the actor's garage missing, the actor's garage empty, a registered player without a garage while summing); `Consume` verifies only under its negation, `ValidImpliesConsumable` shows when validation rules it out, and `JoinAfterBeginAborts` shows a validated event for which it holds |
| Store.GameState.Validate | store/src/lib.rs:87-141 | BeginGame: the first player is registered and exactly two players are. EndGame: PlayerWon only in InGame, PlayerLeft always. PlayerJoined: the id is not registered, with no cap on players. PlayerDisconnected: the id is registered. ShipMove: it is that player's turn. ShipPlaced: PreGame and a non-empty garage |
| Store.GameState.NextPlayer | store/src/lib.rs:202-211 | None when there is no current player or no other registered key; otherwise some registered key other than the mover |
| Store.GameState.Consume | store/src/lib.rs:143-200 | history gains exactly the event at its end. Per variant: BeginGame seeds every registered garage with SHIPS, sets the turn to the first player and the stage to PreGame, and leaves unregistered garages alone. EndGame sets Ended and nothing else. PlayerJoined inserts or overwrites the player. PlayerDisconnected removes only the player and leaves the garages and the turn alone. ShipMove passes the turn as NextPlayer does. ShipPlaced pops the front of the actor's garage only, and sets InGame exactly when every registered garage is empty. GaragesCoverPlayers is kept unless a player joins during PreGame |
| Store.ValidImpliesConsumable | store/src/lib.rs:120-191 | a validated event does not make consume panic when every registered player has a garage during PreGame |
| StoreScenarios.StartTwoPlayerGame | store/src/lib.rs:146-166 | two joins, then BeginGame: PreGame, both garages hold the full roster, the first player has the turn |
| StoreScenarios.BeginNeedsTwoPlayers | store/src/lib.rs:90-97 | BeginGame with one registered player is rejected and the game stays in Lobby |
| StoreScenarios.TurnOwnership | store/src/lib.rs:119-220 | a move out of turn is rejected; a move in turn is accepted and passes the turn to the other player |
| StoreScenarios.JoinAfterBeginAborts | store/src/lib.rs:106-191 | after a third player joins during placement, a placement that validates would still make consume panic |
| StoreScenarios.RestartAfterEnd | store/src/lib.rs:90-158 | after EndGame, BeginGame is accepted again and returns the game to PreGame with fresh garages |
| StoreScenarios.PlaceShips | store/src/lib.rs:174-196 | after n placements (at most twice the roster's length, the first player's roster first) each garage holds the rest of its roster; the stage is PreGame for every smaller n and InGame once n is twice the roster's length and the roster is non-empty; all ships are placed exactly then |

## Left out

- Store.GameState.Consume: a panic is excluded by the precondition `!Aborts(event)` and is not modelled as an abort. The partly updated state a panic would leave behind is not modelled either.
- Store.GameState.NextPlayer: the concrete `HashMap` iteration order is unspecified, so the model only says which keys may be chosen. The registry is scanned in an arbitrary order.
- Replaying the history from the default state is not proved to give back the same state. With more than two players the next player depends on the unspecified iteration order, so replay is not deterministic.
- The `ships` module is not part of this model. `ShipType` is an opaque type and `SHIPS` an opaque constant.
- The `camera` module is not part of this model.
- HexGrid.Add: i32 overflow is not modelled; coordinates are unbounded integers.
- HexGrid.Sub: i32 overflow is not modelled; coordinates are unbounded integers.
- HexGrid.Distance: the i32 subtraction, `.abs()` (which panics on `i32::MIN` in debug builds) and the three-term i32 sum are modelled on unbounded integers, so their overflow is not modelled.
- HexGrid.NewFromAxial: `-radius` and `-s - q` are modelled on unbounded integers, so their i32 overflow is not modelled: `-radius` overflows at radius `i32::MIN`, and `-s - q` overflows once radius >= 2^30 (a panic in debug builds; in release builds a wrapped r can pass the `abs() > 3` filter and yield a hexagon with q+r+s != 0). The ensures describe the source only for abs(radius) < 2^30.
- HexGrid.Distance: the result is an exact real; the rounding of the `f32` conversion is not modelled (it is exact below 2^24).
- HexGrid.NewFromAxial: only the coordinate sequence is modelled. The `f32` fields copied into every hexagon, `total_hex_size`, and the `println!` of each coordinate are left out.
- Floating-point geometry is left out: `Hexagon::new`, `hex_corner_pos`, `to_mesh`, `world_pos` and `world_pos_to_coordinates`. They are `f32` trigonometry and Bevy mesh and matrix calls.
- `trace!` logging, the serde and `Resource` derives, and the re-export of Bevy's prelude have no behaviour to state.
- The commented-out code (`PlayerSelects`, `hexes_from_offset`, offset conversions) and the unused `CoordinateSystem` and `OffsetType` enums are left out.
- The `Paused` stage is declared, but no event enters or leaves it.
