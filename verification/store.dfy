/**
 * The event-sourced game aggregate of store/src/lib.rs.
 *
 * `GameState` holds the whole truth of a match: the stage, the player
 * registry, each player's garage (the queue of ships still to place), the
 * history of consumed events and the player whose turn it is. `Validate`
 * is the side-effect-free gate that accepts or rejects an event, `Consume`
 * applies an event in place and appends it to the history.
 */
module Store {
  import opened Wrappers
  import HexGrid

  /** `ships::ShipType`; the ships module is not part of this model. */
  type ShipType(==)

  /** `ships::SHIPS`: the fixed roster every garage is seeded from, in draw order. */
  const SHIPS: seq<ShipType>

  /** `PlayerId` is a `u64`. */
  type PlayerId = x: int | 0 <= x < 0x1_0000_0000_0000_0000

  /** The `rotation` of a placed ship is a `u32`. */
  type Rotation = x: int | 0 <= x < 0x1_0000_0000

  datatype Player = Player(name: string)

  datatype EndGameReason =
    | PlayerLeft(playerId: PlayerId)
    | PlayerWon(winner: PlayerId)

  datatype GameEvent =
    | BeginGame(firstPlayer: PlayerId)
    | EndGame(reason: EndGameReason)
    | PlayerJoined(playerId: PlayerId, playerDetails: Player)
    | PlayerDisconnected(playerId: PlayerId)
    | ShipMove(playerId: PlayerId, at: HexGrid.CubeCoords)
    | ShipPlaced(playerId: PlayerId, at: HexGrid.CubeCoords, rotation: Rotation)

  datatype GameStage = Lobby | PreGame | InGame | Paused | Ended

  /** The number of ships still to be placed by the players `ids`: the
    * reference for the loop of `consume` that sums the garage lengths. No
    * counted garage holds more ships than the whole sum. */
  ghost function RemainingShips(ids: set<PlayerId>, garages: map<PlayerId, seq<ShipType>>): (n: nat)
    requires ids <= garages.Keys
    ensures forall p {:trigger |garages[p]|} :: p in ids ==> |garages[p]| <= n
    decreases ids
  {
    if ids == {} then 0
    else
      var p :| p in ids;
      |garages[p]| + RemainingShips(ids - {p}, garages)
  }

  /** The sum does not depend on which player is counted first. */
  lemma {:induction false} RemainingShipsRemove(ids: set<PlayerId>, garages: map<PlayerId, seq<ShipType>>, p: PlayerId)
    requires ids <= garages.Keys && p in ids
    ensures RemainingShips(ids, garages) == |garages[p]| + RemainingShips(ids - {p}, garages)
    decreases ids
  {
    var q :| q in ids && RemainingShips(ids, garages) == |garages[q]| + RemainingShips(ids - {q}, garages);
    if q != p {
      RemainingShipsRemove(ids - {q}, garages, p);
      RemainingShipsRemove(ids - {p}, garages, q);
      assert ids - {q} - {p} == ids - {p} - {q};
    }
  }

  /** No ships remain exactly when every counted garage is empty. */
  lemma {:induction false} RemainingShipsZero(ids: set<PlayerId>, garages: map<PlayerId, seq<ShipType>>)
    requires ids <= garages.Keys
    ensures RemainingShips(ids, garages) == 0 <==> forall p :: p in ids ==> garages[p] == []
    decreases ids
  {
    if ids != {} {
      var q :| q in ids && RemainingShips(ids, garages) == |garages[q]| + RemainingShips(ids - {q}, garages);
      RemainingShipsZero(ids - {q}, garages);
    }
  }

  /** The count only looks at the garages of the counted players. */
  lemma {:induction false} RemainingShipsFrame(ids: set<PlayerId>, g1: map<PlayerId, seq<ShipType>>, g2: map<PlayerId, seq<ShipType>>)
    requires ids <= g1.Keys && ids <= g2.Keys
    requires forall p :: p in ids ==> g1[p] == g2[p]
    ensures RemainingShips(ids, g1) == RemainingShips(ids, g2)
    decreases ids
  {
    if ids != {} {
      var q :| q in ids;
      RemainingShipsRemove(ids, g1, q);
      RemainingShipsRemove(ids, g2, q);
      RemainingShipsFrame(ids - {q}, g1, g2);
    }
  }

  /** Taking the front ship of a counted, non-empty garage lowers the count by one. */
  lemma RemainingShipsPop(ids: set<PlayerId>, garages: map<PlayerId, seq<ShipType>>, p: PlayerId)
    requires ids <= garages.Keys && p in garages && garages[p] != []
    ensures RemainingShips(ids, garages[p := garages[p][1..]])
      == if p in ids then RemainingShips(ids, garages) - 1 else RemainingShips(ids, garages)
  {
    var popped := garages[p := garages[p][1..]];
    if p in ids {
      RemainingShipsRemove(ids, garages, p);
      RemainingShipsRemove(ids, popped, p);
      RemainingShipsFrame(ids - {p}, garages, popped);
    } else {
      RemainingShipsFrame(ids, garages, popped);
    }
  }

  /** What `next_player` may answer when `moved` has just played among the
    * registered `ids`: nothing when no one moved or no one else is
    * registered, otherwise some registered player other than the mover.
    * The choice among several is the registry's unspecified iteration order. */
  predicate IsNextPlayer(moved: Option<PlayerId>, ids: set<PlayerId>, next: Option<PlayerId>) {
    && (next.None? <==> moved.None? || ids <= {moved.value})
    && (next.Some? ==> moved.Some? && next.value in ids && next.value != moved.value)
  }

  /** With exactly two registered players the turn passes to the other one. */
  lemma {:induction false} TwoPlayersAlternate(mover: PlayerId, ids: set<PlayerId>, next: Option<PlayerId>)
    requires |ids| == 2 && mover in ids
    requires IsNextPlayer(Some(mover), ids, next)
    ensures next.Some? && ids == {mover, next.value}
  {
    if ids <= {mover} {
      SubsetCardinality(ids, {mover});
      assert false;
    }
    var other := next.value;
    assert {mover, other} <= ids;
    SubsetCardinality({mover, other}, ids);
    if ids != {mover, other} {
      var extra :| extra in ids && extra !in {mover, other};
      assert {mover, other, extra} <= ids;
      SubsetCardinality({mover, other, extra}, ids);
      assert false;
    }
  }

  lemma {:induction false} SubsetCardinality(a: set<PlayerId>, b: set<PlayerId>)
    requires a <= b
    ensures |a| <= |b|
    decreases b
  {
    if b != {} {
      var x :| x in b;
      SubsetCardinality(a - {x}, b - {x});
    }
  }

  class GameState {
    var stage: GameStage
    var players: map<PlayerId, Player>
    var playersGarage: map<PlayerId, seq<ShipType>>
    var history: seq<GameEvent>
    var curPlayer: Option<PlayerId>

    /** `impl Default for GameState`: the lobby of an empty match. */
    constructor ()
      ensures stage == Lobby && players == map[] && playersGarage == map[]
      ensures history == [] && curPlayer == None
    {
      stage := Lobby;
      players := map[];
      playersGarage := map[];
      history := [];
      curPlayer := None;
    }

    /** `is_player_turn`: the turn belongs to `playerId`. */
    function IsPlayerTurn(playerId: PlayerId): (b: bool)
      reads this
      ensures b <==> curPlayer == Some(playerId)
    {
      match curPlayer
      case Some(p) => playerId == p
      case None => false
    }

    /** `validade`: whether `event` is legal now. Each variant rejects only on
      * its own explicit checks and otherwise accepts. */
    function Validate(event: GameEvent): (ok: bool)
      reads this
      ensures event.BeginGame? ==> (ok <==> event.firstPlayer in players && |players| == 2)
      ensures event.EndGame? ==> (ok <==> (event.reason.PlayerWon? ==> stage == InGame))
      ensures event.PlayerJoined? ==> (ok <==> event.playerId !in players)
      ensures event.PlayerDisconnected? ==> (ok <==> event.playerId in players)
      ensures event.ShipMove? ==> (ok <==> curPlayer == Some(event.playerId))
      ensures event.ShipPlaced? ==>
        (ok <==> stage == PreGame && event.playerId in playersGarage && playersGarage[event.playerId] != [])
    {
      match event
      case BeginGame(firstPlayer) =>
        if firstPlayer !in players then false
        else if |players| != 2 then false
        else true
      case EndGame(reason) =>
        (match reason
         case PlayerWon(_) => stage == InGame
         case PlayerLeft(_) => true)
      case PlayerJoined(playerId, _) => playerId !in players
      case PlayerDisconnected(playerId) => playerId in players
      case ShipMove(playerId, _) => IsPlayerTurn(playerId)
      case ShipPlaced(playerId, _, _) =>
        if stage != PreGame then false
        else if playerId !in playersGarage then false
        else |playersGarage[playerId]| != 0
    }

    /** The conditions under which `consume` panics: on `ShipPlaced`, the
      * actor's garage is missing (`expect("expected garage")`) or empty
      * (`expect("expected ships available at garage")`), or some registered
      * player has no garage (the `unwrap` while summing what remains).
      * The body of `Consume` verifies only under the negation of this
      * predicate, so it names every panic site; `ValidImpliesConsumable`
      * says when validation rules it out and `JoinAfterBeginAborts` shows a
      * validated event for which it holds. */
    predicate Aborts(event: GameEvent): (b: bool)
      reads this
      ensures b ==> event.ShipPlaced?
    {
      && event.ShipPlaced?
      && (|| event.playerId !in playersGarage
          || playersGarage[event.playerId] == []
          || !(players.Keys <= playersGarage.Keys))
    }

    /** The extra state invariant that makes every validated event consumable:
      * during placement every registered player has a garage. */
    predicate GaragesCoverPlayers()
      reads this
    {
      stage == PreGame ==> players.Keys <= playersGarage.Keys
    }

    /** Every registered player has placed all of their ships. */
    predicate AllShipsPlaced()
      reads this
    {
      forall p :: p in players ==> p in playersGarage && playersGarage[p] == []
    }

    /** Ships the registered players still hold. */
    ghost function Remaining(): nat
      reads this
      requires players.Keys <= playersGarage.Keys
    {
      RemainingShips(players.Keys, playersGarage)
    }

    /** `next_player`: scans the registry in its (unspecified) order and
      * returns the first key that is not the player who just moved. */
    method NextPlayer() returns (next: Option<PlayerId>)
      ensures IsNextPlayer(curPlayer, players.Keys, next)
    {
      match curPlayer {
        case None =>
          return None;
        case Some(playerMoved) =>
          var keys := players.Keys;
          while keys != {}
            invariant keys <= players.Keys
            invariant forall k :: k in players && k !in keys ==> k == playerMoved
            decreases keys
          {
            var key :| key in keys;
            if playerMoved != key {
              return Some(key);
            }
            keys := keys - {key};
          }
          return None;
      }
    }

    /** `consume`: applies an event and appends it to the history. Panics
      * (`Aborts`) are excluded by the precondition. */
    method Consume(event: GameEvent)
      requires !Aborts(event)
      modifies this
      ensures history == old(history) + [event]
      ensures event.BeginGame? ==>
        && curPlayer == Some(event.firstPlayer)
        && stage == PreGame
        && players == old(players)
        && playersGarage.Keys == old(playersGarage.Keys) + players.Keys
        && (forall p :: p in players ==> playersGarage[p] == SHIPS)
        && (forall p :: p in old(playersGarage) && p !in players ==> playersGarage[p] == old(playersGarage[p]))
      ensures event.EndGame? ==>
        && stage == Ended
        && players == old(players) && playersGarage == old(playersGarage) && curPlayer == old(curPlayer)
      ensures event.PlayerJoined? ==>
        && players == old(players)[event.playerId := event.playerDetails]
        && stage == old(stage) && playersGarage == old(playersGarage) && curPlayer == old(curPlayer)
      ensures event.PlayerDisconnected? ==>
        && players == old(players) - {event.playerId}
        && stage == old(stage) && playersGarage == old(playersGarage) && curPlayer == old(curPlayer)
      ensures event.ShipMove? ==>
        && IsNextPlayer(old(curPlayer), players.Keys, curPlayer)
        && stage == old(stage) && players == old(players) && playersGarage == old(playersGarage)
      ensures event.ShipPlaced? ==>
        && playersGarage == old(playersGarage)[event.playerId := old(playersGarage[event.playerId])[1..]]
        && stage == (if AllShipsPlaced() then InGame else old(stage))
        && players == old(players) && curPlayer == old(curPlayer)
        && Remaining() == (if event.playerId in players then old(Remaining()) - 1 else old(Remaining()))
      ensures old(GaragesCoverPlayers()) && !(event.PlayerJoined? && old(stage) == PreGame) ==> GaragesCoverPlayers()
    {
      match event {
        case BeginGame(firstPlayer) =>
          curPlayer := Some(firstPlayer);
          var keys := players.Keys;
          while keys != {}
            invariant keys <= players.Keys
            invariant players == old(players) && curPlayer == Some(firstPlayer)
            invariant stage == old(stage) && history == old(history)
            invariant playersGarage.Keys == old(playersGarage.Keys) + (players.Keys - keys)
            invariant forall p :: p in players.Keys - keys ==> playersGarage[p] == SHIPS
            invariant forall p :: p in old(playersGarage) && p !in players.Keys - keys ==> playersGarage[p] == old(playersGarage[p])
            decreases keys
          {
            var player :| player in keys;
            var deque := [];
            for i := 0 to |SHIPS|
              invariant deque == SHIPS[..i]
            {
              deque := deque + [SHIPS[i]];
            }
            assert deque == SHIPS;
            playersGarage := playersGarage[player := deque];
            keys := keys - {player};
          }
          stage := PreGame;
        case EndGame(_) =>
          stage := Ended;
        case PlayerDisconnected(playerId) =>
          players := players - {playerId};
        case PlayerJoined(playerId, playerDetails) =>
          players := players[playerId := playerDetails];
        case ShipMove(_, _) =>
          curPlayer := NextPlayer();
        case ShipPlaced(playerId, _, _) =>
          var playerShips := playersGarage[playerId];
          playersGarage := playersGarage[playerId := playerShips[1..]];
          RemainingShipsPop(players.Keys, old(playersGarage), playerId);
          var shipsRemainder := 0;
          var keys := players.Keys;
          while keys != {}
            invariant keys <= players.Keys
            invariant shipsRemainder + RemainingShips(keys, playersGarage) == RemainingShips(players.Keys, playersGarage)
            modifies {}
            decreases keys
          {
            var player :| player in keys;
            RemainingShipsRemove(keys, playersGarage, player);
            shipsRemainder := shipsRemainder + |playersGarage[player]|;
            keys := keys - {player};
          }
          RemainingShipsZero(players.Keys, playersGarage);
          if shipsRemainder == 0 {
            stage := InGame;
          }
      }
      history := history + [event];
    }
  }

  /** Validation alone does not rule out a panic in `Consume`; together with
    * `GaragesCoverPlayers` it does. */
  lemma ValidImpliesConsumable(g: GameState, event: GameEvent)
    requires g.GaragesCoverPlayers()
    requires g.Validate(event)
    ensures !g.Aborts(event)
  {
  }
}
