/** What the room's transition function promises, event kind by event kind,
    and the invariant every transition keeps. */
module RoomProperties {
  import opened Common
  import opened RoomModel

  // ---------------------------------------------------------------------
  // Events the room does not act on

  /** Round control and input addressed to another room leave the room as it was. */
  lemma ForeignEventIgnored(c: Config, st: State, e: Event, now: real)
    requires e.kind == StartNewRound || e.kind == EndRound || e.kind == PlayerInput
    requires e.roomId != c.id
    ensures Step(c, st, e, now) == st
  {
  }

  /** Unknown events and client renames or recolourings leave the room as it was. */
  lemma UnhandledEventIgnored(c: Config, st: State, e: Event, now: real)
    requires e.kind == Unknown || e.kind == ClientChangeName || e.kind == ClientChangeColor
    ensures Step(c, st, e, now) == st
  {
  }

  // ---------------------------------------------------------------------
  // Starting and ending rounds

  /** Every player that survives the filter was an active player of the old
      list, and every active player of the old list survives. */
  lemma {:induction false} SurvivorsAreTheActivePlayers(ps: seq<PlayerInfo>)
    ensures forall p :: p in ResetScores(FilterActive(ps)) <==>
      exists q :: q in ps && q.active && p == q.(score := 0)
  {
    var f := FilterActive(ps);
    var r := ResetScores(f);
    forall p | p in r ensures exists q :: q in ps && q.active && p == q.(score := 0) {
      var k :| 0 <= k < |r| && r[k] == p;
      assert f[k] in f;
    }
    forall q | q in ps && q.active ensures q.(score := 0) in r {
      var k :| 0 <= k < |f| && f[k] == q;
      assert r[k] == q.(score := 0);
    }
  }

  /** The filter keeps the order of the list: its k-th survivor is the
      player at the k-th active position. */
  lemma {:induction false} FilterActiveInOrder(ps: seq<PlayerInfo>)
    ensures |FilterActive(ps)| == |ActivePositions(ps)|
    ensures forall k :: 0 <= k < |FilterActive(ps)| ==> FilterActive(ps)[k] == ps[ActivePositions(ps)[k]]
  {
    if ps != [] {
      var n := |ps|;
      var init := ps[..n - 1];
      FilterActiveInOrder(init);
      var f, a := FilterActive(init), ActivePositions(init);
      if ps[n - 1].active {
        KeptInOrder(ps, f + [ps[n - 1]], a + [n - 1]);
      } else {
        KeptInOrder(ps, f, a);
      }
    }
  }

  /** The inductive step of FilterActiveInOrder: what holds of the list
      without its last player still holds once that player is put back. */
  lemma KeptInOrder(ps: seq<PlayerInfo>, f: seq<PlayerInfo>, a: seq<nat>)
    requires ps != []
    requires f == FilterActive(ps) && a == ActivePositions(ps)
    requires var init := ps[..|ps| - 1];
      && |FilterActive(init)| == |ActivePositions(init)|
      && forall k :: 0 <= k < |FilterActive(init)| ==> FilterActive(init)[k] == init[ActivePositions(init)[k]]
    ensures |f| == |a|
    ensures forall k :: 0 <= k < |f| ==> f[k] == ps[a[k]]
  {
    var n := |ps|;
    var init := ps[..n - 1];
    var f0, a0 := FilterActive(init), ActivePositions(init);
    forall k | 0 <= k < |f| ensures f[k] == ps[a[k]] {
      if k < |f0| {
        assert f[k] == f0[k] == init[a0[k]];
        assert a[k] == a0[k];
      }
    }
  }

  /** A new round for this room: the round counter goes up by one, the
      history of solved items is emptied, the pool holds exactly `poolSize`
      freshly generated items, inactive players are dropped and every
      remaining player keeps its place and starts again from zero, and the
      round timer is set
      to end the round. */
  lemma StartNewRoundEffects(c: Config, st: State, e: Event, now: real)
    requires e.kind == StartNewRound && e.roomId == c.id
    ensures var s := Step(c, st, e, now);
      && s.roundId == st.roundId + 1
      && s.poolOld == []
      && |s.pool| == c.poolSize
      && (forall k :: 0 <= k < c.poolSize ==> s.pool[k] == c.generate(st.cursor + k))
      && s.cursor == st.cursor + c.poolSize
      && |s.players| <= |st.players|
      && (forall p :: p in s.players ==> p.active && p.score == 0)
      && (forall p :: p in s.players <==> exists q :: q in st.players && q.active && p == q.(score := 0))
      && |s.players| == |ActivePositions(st.players)|
      && (forall k :: 0 <= k < |s.players| ==> s.players[k] == st.players[ActivePositions(st.players)[k]].(score := 0))
      && s.roundStart == now
      && s.nextRoundStart == st.nextRoundStart
      && s.pending == Some(FollowUp(RoundLengthMs(c), RoomEvent(EndRound, c.id)))
  {
    SurvivorsAreTheActivePlayers(st.players);
    FilterActiveInOrder(st.players);
  }

  /** EndRound for this room is accepted in any state; it only records when
      the next round starts and sets the timer that will start it. */
  lemma EndRoundEffects(c: Config, st: State, e: Event, now: real)
    requires e.kind == EndRound && e.roomId == c.id
    ensures Step(c, st, e, now) == st.(
      nextRoundStart := now + (c.timeBetweenRoundsMs as real) / 1000.0,
      pending := Some(FollowUp(c.timeBetweenRoundsMs, RoomEvent(StartNewRound, c.id))))
  {
  }

  /** The follow-up timers keep the room cycling: the event a new round's
      timer delivers ends that round without touching its pool or players,
      and the event the cooldown timer then delivers starts the next round. */
  lemma RoundCycle(c: Config, st: State, e: Event, t0: real, t1: real, t2: real)
    requires e.kind == StartNewRound && e.roomId == c.id
    ensures var s1 := Step(c, st, e, t0);
      && s1.pending.Some?
      && s1.pending.value.delayMs == RoundLengthMs(c)
      && var s2 := Step(c, s1, s1.pending.value.event, t1);
      && s2.roundId == s1.roundId && s2.pool == s1.pool && s2.players == s1.players
      && s2.nextRoundStart == t1 + (c.timeBetweenRoundsMs as real) / 1000.0
      && s2.pending.Some?
      && s2.pending.value.delayMs == c.timeBetweenRoundsMs
      && var s3 := Step(c, s2, s2.pending.value.event, t2);
      && s3.roundId == st.roundId + 2
      && s3.roundStart == t2
      && s3.pending == s1.pending
  {
    var s1 := Step(c, st, e, t0);
    EndRoundEffects(c, s1, s1.pending.value.event, t1);
    var s2 := Step(c, s1, s1.pending.value.event, t1);
    StartNewRoundEffects(c, s2, s2.pending.value.event, t2);
  }

  // ---------------------------------------------------------------------
  // Joining

  /** Joining keeps client ids unique. */
  lemma JoinedUnique(ps: seq<PlayerInfo>, cid: int32)
    requires UniqueClients(ps)
    ensures UniqueClients(Joined(ps, cid))
  {
  }

  /** A client already in the room is activated in place: the list keeps its
      length and order, and the player keeps its score. */
  lemma JoinExisting(ps: seq<PlayerInfo>, cid: int32, i: nat)
    requires i < |ps| && ps[i].clientId == cid
    requires forall k :: 0 <= k < i ==> ps[k].clientId != cid
    ensures |Joined(ps, cid)| == |ps|
    ensures Joined(ps, cid)[i] == ps[i].(active := true)
    ensures forall k :: 0 <= k < |ps| && k != i ==> Joined(ps, cid)[k] == ps[k]
  {
  }

  /** A client not yet in the room is appended at the end, active, with score 0. */
  lemma JoinNew(ps: seq<PlayerInfo>, cid: int32)
    requires forall k :: 0 <= k < |ps| ==> ps[k].clientId != cid
    ensures Joined(ps, cid) == ps + [PlayerInfo(cid, 0, true)]
  {
  }

  /** After joining, exactly one player has the client's id, and it is active. */
  lemma JoinActivatesExactlyOne(ps: seq<PlayerInfo>, cid: int32)
    requires UniqueClients(ps)
    ensures var r := Joined(ps, cid);
      && (exists i :: 0 <= i < |r| && r[i].clientId == cid && r[i].active)
      && (forall i, j :: 0 <= i < |r| && 0 <= j < |r| && r[i].clientId == cid && r[j].clientId == cid ==> i == j)
  {
    JoinedUnique(ps, cid);
    var r := Joined(ps, cid);
    match PlayerIndex(ps, cid)
    case Some(i) =>
      assert r[i].clientId == cid && r[i].active;
    case None =>
      assert r[|ps|].clientId == cid && r[|ps|].active;
  }

  /** Joining twice is the same as joining once. */
  lemma JoinedIdempotent(ps: seq<PlayerInfo>, cid: int32)
    ensures Joined(Joined(ps, cid), cid) == Joined(ps, cid)
  {
    var r := Joined(ps, cid);
    match PlayerIndex(ps, cid)
    case Some(i) =>
      assert r[i].clientId == cid && forall k :: 0 <= k < i ==> r[k] == ps[k];
      assert PlayerIndex(r, cid) == Some(i);
    case None =>
      assert r[|ps|].clientId == cid && forall k :: 0 <= k < |ps| ==> r[k] == ps[k];
      assert PlayerIndex(r, cid) == Some(|ps|);
  }

  /** Joining another room never adds a player: every player with the
      client's id is deactivated and keeps its score, and all others stay. */
  lemma LeaveEffects(c: Config, st: State, e: Event, now: real)
    requires e.kind == PlayerJoinRoom && e.roomId != c.id
    ensures var s := Step(c, st, e, now);
      && s == st.(players := s.players)
      && |s.players| == |st.players|
      && (forall k :: 0 <= k < |st.players| && st.players[k].clientId == e.clientId ==>
            s.players[k] == st.players[k].(active := false))
      && (forall k :: 0 <= k < |st.players| && st.players[k].clientId != e.clientId ==>
            s.players[k] == st.players[k])
  {
  }

  /** Handling the same PlayerJoinRoom event twice, at any two instants, is
      the same as handling it once. */
  lemma JoinRoomIdempotent(c: Config, st: State, e: Event, t1: real, t2: real)
    requires e.kind == PlayerJoinRoom
    ensures Step(c, Step(c, st, e, t1), e, t2) == Step(c, st, e, t1)
  {
    if e.roomId == c.id {
      JoinedIdempotent(st.players, e.clientId);
    } else {
      var d := Deactivated(st.players, e.clientId);
      assert Deactivated(d, e.clientId) == d;
    }
  }

  // ---------------------------------------------------------------------
  // Input

  /** Input that arrives after the round's end changes nothing; the window
      has no lower bound. */
  lemma LateInputIgnored(c: Config, st: State, e: Event, now: real)
    requires e.kind == PlayerInput
    requires now > st.roundStart + c.roundLength
    ensures Step(c, st, e, now) == st
  {
  }

  /** Input from a client that is not a player of the room changes nothing. */
  lemma UnknownClientIgnored(c: Config, st: State, e: Event, now: real)
    requires e.kind == PlayerInput
    requires forall k :: 0 <= k < |st.players| ==> st.players[k].clientId != e.clientId
    ensures Step(c, st, e, now) == st
  {
  }

  /** A correct guess consumes the first item with that answer: the item is
      stamped and appended to the history, a fresh item takes its slot, the
      pool keeps its size, and the guesser earns 3 + 0.2 * |answer| points. */
  lemma CorrectInput(c: Config, st: State, e: Event, now: real, p: nat, i: nat)
    requires e.kind == PlayerInput && e.roomId == c.id
    requires now <= st.roundStart + c.roundLength
    requires p < |st.players| && st.players[p].clientId == e.clientId
    requires forall k :: 0 <= k < p ==> st.players[k].clientId != e.clientId
    requires i < |st.pool| && st.pool[i].answer == e.inputStr
    requires forall k :: 0 <= k < i ==> st.pool[k].answer != e.inputStr
    ensures var s := Step(c, st, e, now);
      && |s.pool| == |st.pool|
      && s.pool[i] == c.generate(st.cursor)
      && (forall k :: 0 <= k < |st.pool| && k != i ==> s.pool[k] == st.pool[k])
      && s.cursor == st.cursor + 1
      && s.poolOld == st.poolOld + [st.pool[i].(clientId := e.clientId, tGuessed := now)]
      && |s.players| == |st.players|
      && s.players[p] == st.players[p].(score := st.players[p].score + 30 + 2 * |e.inputStr|)
      && (forall k :: 0 <= k < |st.players| && k != p ==> s.players[k] == st.players[k])
      && s == st.(pool := s.pool, poolOld := s.poolOld, players := s.players, cursor := s.cursor)
  {
  }

  /** A wrong guess costs one point, clamped at zero, and leaves the pool
      and its history alone. */
  lemma WrongInput(c: Config, st: State, e: Event, now: real, p: nat)
    requires e.kind == PlayerInput && e.roomId == c.id
    requires now <= st.roundStart + c.roundLength
    requires p < |st.players| && st.players[p].clientId == e.clientId
    requires forall k :: 0 <= k < p ==> st.players[k].clientId != e.clientId
    requires forall k :: 0 <= k < |st.pool| ==> st.pool[k].answer != e.inputStr
    ensures var s := Step(c, st, e, now);
      && s == st.(players := s.players)
      && |s.players| == |st.players|
      && s.players[p].score as int == (if st.players[p].score >= 10 then st.players[p].score - 10 else 0)
      && s.players[p] == st.players[p].(score := s.players[p].score)
      && (forall k :: 0 <= k < |st.players| && k != p ==> s.players[k] == st.players[k])
  {
  }

  // ---------------------------------------------------------------------
  // The invariant

  lemma {:induction false} FilterActiveUnique(ps: seq<PlayerInfo>)
    requires UniqueClients(ps)
    ensures UniqueClients(FilterActive(ps))
  {
    if ps != [] {
      var init, last := ps[..|ps| - 1], ps[|ps| - 1];
      assert ps == init + [last];
      assert UniqueClients(init);
      FilterActiveUnique(init);
      if last.active {
        var f := FilterActive(init);
        forall k | 0 <= k < |f| ensures f[k].clientId != last.clientId {
          assert f[k] in init;
          var j :| 0 <= j < |init| && init[j] == f[k];
          assert ps[j] == f[k];
        }
      }
    }
  }

  /** Every transition keeps the room's invariant. */
  lemma StepPreservesValid(c: Config, st: State, e: Event, now: real)
    requires Valid(c, st)
    ensures Valid(c, Step(c, st, e, now))
  {
    if e.kind == StartNewRound && e.roomId == c.id {
      FilterActiveUnique(st.players);
    } else if e.kind == PlayerJoinRoom && e.roomId == c.id {
      JoinedUnique(st.players, e.clientId);
    }
  }

  // ---------------------------------------------------------------------
  // A worked round

  /** A generator whose first item has the answer "cat" and all others "dog". */
  function CatThenDogs(n: nat): Query
  {
    Query(0.0, 0.0, 0, 0.0, "an animal", if n == 0 then "cat" else "dog")
  }

  /** Room 1 with two items per round and five-second rounds: a round
      starts, client 7 joins, guesses "cat" for 3.6 points, guesses wrong
      for 2.6, and a guess after the round's end is ignored. */
  lemma ScenarioOneRound()
    ensures var c := Config(1, 2, 5.0, 20000, CatThenDogs);
      var s1 := Step(c, Initial(), RoomEvent(StartNewRound, 1), 0.0);
      var s2 := Step(c, s1, Event(PlayerJoinRoom, 1, 7, ""), 0.5);
      var s3 := Step(c, s2, Event(PlayerInput, 1, 7, "cat"), 1.0);
      var s4 := Step(c, s3, Event(PlayerInput, 1, 7, "cow"), 2.0);
      var s5 := Step(c, s4, Event(PlayerInput, 1, 7, "dog"), 6.0);
      && s1.roundId == 1 && |s1.pool| == 2
      && s2.players == [PlayerInfo(7, 0, true)]
      && s3.players[0].score == 36
      && s3.pool[0] == CatThenDogs(2) && |s3.pool| == 2
      && s3.poolOld == [CatThenDogs(0).(clientId := 7, tGuessed := 1.0)]
      && s4.players[0].score == 26
      && s5 == s4
  {
    var c := Config(1, 2, 5.0, 20000, CatThenDogs);
    var s1 := Step(c, Initial(), RoomEvent(StartNewRound, 1), 0.0);
    assert s1.pool[0] == CatThenDogs(0) && s1.pool[1] == CatThenDogs(1);
    var s2 := Step(c, s1, Event(PlayerJoinRoom, 1, 7, ""), 0.5);
    assert s2.players == [PlayerInfo(7, 0, true)];
    var s3 := Step(c, s2, Event(PlayerInput, 1, 7, "cat"), 1.0);
    assert MatchIndex(s2.pool, "cat") == Some(0);
    assert s3.pool[1].answer == "dog" && CatThenDogs(2).answer == "dog";
    assert MatchIndex(s3.pool, "cow") == None;
  }
}
