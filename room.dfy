/** The room itself: an object whose fields the event handler updates in
    place. Each handler is proved to perform exactly the transition that
    `RoomModel.Step` describes, so everything `RoomProperties` proves about
    `Step` holds of the object. */
module Rooms {
  import opened Common
  import opened RoomModel
  import RoomProperties

  class Room {
    // Configuration, fixed when the room is created.
    const id: int32
    const name: string
    const poolSize: nat
    const tRoundLength: real         // seconds
    const tTimeBetweenRoundsMs: nat  // milliseconds
    /** The item generator: `generate(n)` is what its n-th call returns. */
    const generate: nat -> Query

    var roundId: nat
    var tRoundStart: real
    var tNextRoundStart: real
    var pool: seq<Query>
    var poolOld: seq<Query>
    var players: seq<PlayerInfo>
    /** How many items have been taken from the generator. */
    var cursor: nat
    /** The timer most recently started for this room, with the event it delivers. */
    ghost var pending: Option<FollowUp>

    function Configuration(): Config
    {
      Config(id, poolSize, tRoundLength, tTimeBetweenRoundsMs, generate)
    }

    ghost function Snapshot(): State
      reads this
    {
      State(roundId, tRoundStart, tNextRoundStart, pool, poolOld, players, cursor, pending)
    }

    ghost predicate Valid()
      reads this
    {
      RoomModel.Valid(Configuration(), Snapshot())
    }

    /** A room with no round started, no players and an empty pool. */
    constructor (id: int32, name: string, poolSize: nat, tRoundLength: real,
                 tTimeBetweenRoundsMs: nat, generate: nat -> Query)
      ensures Valid() && Snapshot() == Initial()
      ensures this.id == id && this.name == name && this.poolSize == poolSize
      ensures this.tRoundLength == tRoundLength && this.tTimeBetweenRoundsMs == tTimeBetweenRoundsMs
      ensures this.generate == generate
    {
      this.id, this.name, this.poolSize := id, name, poolSize;
      this.tRoundLength, this.tTimeBetweenRoundsMs := tRoundLength, tTimeBetweenRoundsMs;
      this.generate := generate;
      roundId, tRoundStart, tNextRoundStart := 0, 0.0, 0.0;
      pool, poolOld, players := [], [], [];
      cursor := 0;
      pending := None;
    }

    /** One call of the item generator. */
    method Generate() returns (q: Query)
      modifies this`cursor
      ensures q == generate(old(cursor)) && cursor == old(cursor) + 1
    {
      q := generate(cursor);
      cursor := cursor + 1;
    }

    /** Handles one event delivered at clock reading `now`. */
    method Handle(e: Event, now: real)
      requires Valid()
      modifies this
      ensures Valid()
      ensures Snapshot() == Step(Configuration(), old(Snapshot()), e, now)
    {
      RoomProperties.StepPreservesValid(Configuration(), Snapshot(), e, now);
      match e.kind
      case StartNewRound =>
        if e.roomId == id {
          StartNewRound(now);
        }
      case EndRound =>
        if e.roomId == id {
          EndRound(now);
        }
      case PlayerJoinRoom =>
        PlayerJoinRoom(e);
      case PlayerInput =>
        if e.roomId == id {
          PlayerInput(e, now);
        }
      case Unknown | ClientChangeName | ClientChangeColor =>
    }

    /** Refills the pool, drops inactive players, zeroes scores and starts
        the round timer. */
    method StartNewRound(now: real)
      modifies this
      ensures Snapshot() == OnStartNewRound(Configuration(), old(Snapshot()), now)
    {
      roundId := roundId + 1;
      pool := [];
      poolOld := [];
      RefillPool();
      DropInactivePlayers();
      ZeroScores();
      tRoundStart := now;
      pending := Some(FollowUp(RoundLengthMs(Configuration()), RoomEvent(EventKind.EndRound, id)));
    }

    /** Fills the emptied pool with `poolSize` items from the generator. */
    method RefillPool()
      requires pool == []
      modifies this
      ensures Snapshot() == old(Snapshot()).(
        pool := Generated(Configuration(), old(cursor), poolSize),
        cursor := old(cursor) + poolSize)
    {
      while |pool| < poolSize
        invariant |pool| <= poolSize
        invariant cursor == old(cursor) + |pool|
        invariant pool == Generated(Configuration(), old(cursor), |pool|)
        invariant Snapshot() == old(Snapshot()).(pool := pool, cursor := cursor)
        decreases poolSize - |pool|
      {
        var q := Generate();
        pool := pool + [q];
      }
    }

    /** Removes the inactive players, keeping the order of the others. */
    method DropInactivePlayers()
      modifies this
      ensures Snapshot() == old(Snapshot()).(players := FilterActive(old(players)))
    {
      var kept: seq<PlayerInfo> := [];
      var i := 0;
      while i < |players|
        invariant 0 <= i <= |players|
        invariant kept == FilterActive(players[..i])
      {
        assert players[..i + 1][..i] == players[..i];
        if players[i].active {
          kept := kept + [players[i]];
        }
        i := i + 1;
      }
      assert players[..|players|] == players;
      players := kept;
    }

    /** Sets every player's score to zero. */
    method ZeroScores()
      modifies this
      ensures Snapshot() == old(Snapshot()).(players := ResetScores(old(players)))
    {
      var i := 0;
      while i < |players|
        invariant 0 <= i <= |players| == |old(players)|
        invariant forall k :: 0 <= k < i ==> players[k] == old(players)[k].(score := 0)
        invariant forall k :: i <= k < |players| ==> players[k] == old(players)[k]
        invariant Snapshot() == old(Snapshot()).(players := players)
      {
        players := players[i := players[i].(score := 0)];
        i := i + 1;
      }
    }

    /** Records when the next round starts and starts the cooldown timer. */
    method EndRound(now: real)
      modifies this
      ensures Snapshot() == OnEndRound(Configuration(), old(Snapshot()), now)
    {
      tNextRoundStart := now + (tTimeBetweenRoundsMs as real) / 1000.0;
      pending := Some(FollowUp(tTimeBetweenRoundsMs, RoomEvent(EventKind.StartNewRound, id)));
    }

    /** Activates or adds the client when the event names this room, and
        deactivates it when the event names another room. */
    method PlayerJoinRoom(e: Event)
      modifies this
      ensures Snapshot() == OnPlayerJoinRoom(Configuration(), old(Snapshot()), e)
    {
      if e.roomId == id {
        var i := 0;
        while i < |players|
          invariant 0 <= i <= |players|
          invariant forall k :: 0 <= k < i ==> players[k].clientId != e.clientId
          invariant Snapshot() == old(Snapshot())
        {
          if players[i].clientId == e.clientId {
            players := players[i := players[i].(active := true)];
            return;
          }
          i := i + 1;
        }
        players := players + [PlayerInfo(e.clientId, 0, true)];
      } else {
        ghost var target := Deactivated(players, e.clientId);
        var i := 0;
        while i < |players|
          invariant 0 <= i <= |players| == |target|
          invariant forall k :: 0 <= k < i ==> players[k] == target[k]
          invariant forall k :: i <= k < |players| ==> players[k] == old(players)[k]
          invariant Snapshot() == old(Snapshot()).(players := players)
        {
          if players[i].clientId == e.clientId {
            players := players[i := players[i].(active := false)];
          }
          i := i + 1;
        }
      }
    }

    /** The position of the first player with client id `cid`, or -1. */
    method FindPlayer(cid: int32) returns (playerId: int)
      ensures playerId == match PlayerIndex(players, cid) case None => -1 case Some(k) => k
    {
      playerId := -1;
      var i := 0;
      while i < |players|
        invariant 0 <= i <= |players|
        invariant forall k :: 0 <= k < i ==> players[k].clientId != cid
      {
        if players[i].clientId == cid {
          playerId := i;
          break;
        }
        i := i + 1;
      }
    }

    /** Scores input for this room against the first item it answers. */
    method PlayerInput(e: Event, now: real)
      modifies this
      ensures Snapshot() == OnPlayerInput(Configuration(), old(Snapshot()), e, now)
    {
      if now > tRoundStart + tRoundLength {
        return;
      }
      var playerId := FindPlayer(e.clientId);
      if playerId == -1 {
        return;
      }
      assert PlayerIndex(players, e.clientId) == Some(playerId);
      var correct := false;
      var i := 0;
      while i < |pool|
        invariant 0 <= i <= |pool|
        invariant forall k :: 0 <= k < i ==> pool[k].answer != e.inputStr
        invariant !correct && Snapshot() == old(Snapshot())
      {
        if e.inputStr == pool[i].answer {
          assert MatchIndex(pool, e.inputStr) == Some(i);
          ScoreHit(playerId, i, e.clientId, now);
          correct := true;
          break;
        }
        i := i + 1;
      }
      if !correct {
        assert MatchIndex(pool, e.inputStr) == None;
        var player := players[playerId];
        players := players[playerId := player.(score := Penalized(player.score))];
      }
    }

    /** Credits player `p` for answering pool item `i`: the item, stamped
        with the guesser and the time, moves to `poolOld`, and a fresh item
        from the generator takes its slot. */
    method ScoreHit(p: nat, i: nat, cid: int32, now: real)
      requires p < |players| && i < |pool|
      modifies this
      ensures Snapshot() == old(Snapshot()).(
        players := old(players)[p := old(players)[p].(score := old(players)[p].score + HitBonus(old(pool)[i].answer))],
        poolOld := old(poolOld) + [old(pool)[i].(clientId := cid, tGuessed := now)],
        pool := old(pool)[i := generate(old(cursor))],
        cursor := old(cursor) + 1)
    {
      var player := players[p];
      players := players[p := player.(score := player.score + HitBonus(pool[i].answer))];
      poolOld := poolOld + [pool[i].(clientId := cid, tGuessed := now)];
      var q := Generate();
      pool := pool[i := q];
    }
  }
}
