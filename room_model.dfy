/** The room's event handler as a pure transition function.

    `Step(c, st, e, now)` is the state a room with configuration `c` is in
    after it handled event `e` in state `st` at clock reading `now`. The
    imperative `Rooms.Room.Handle` is proved to perform exactly this
    transition, and the lemmas of `RoomProperties` state what it means. */
module RoomModel {
  import opened Common

  /** What a room is given when it is created and never changes afterwards:
      its id, the number of items in a round's pool, the round length in
      seconds, the cooldown between rounds in milliseconds, and the item
      generator, seen as the infinite stream of items it would return call
      after call. */
  datatype Config = Config(
    id: int32,
    poolSize: nat,
    roundLength: real,
    timeBetweenRoundsMs: nat,
    generate: nat -> Query)

  /** A timer the room has started: after `delayMs` milliseconds it pushes
      `event` onto the room's event queue. */
  datatype FollowUp = FollowUp(delayMs: int, event: Event)

  /** Everything the handler reads or writes. `cursor` counts the items
      taken from the generator so far; `pending` is the last timer started. */
  datatype State = State(
    roundId: nat,
    roundStart: real,
    nextRoundStart: real,
    pool: seq<Query>,
    poolOld: seq<Query>,
    players: seq<PlayerInfo>,
    cursor: nat,
    pending: Option<FollowUp>)

  /** A freshly created room: no round has started, no players, no items. */
  function Initial(): State
  {
    State(0, 0.0, 0.0, [], [], [], 0, None)
  }

  /** The next `n` items of the generator, starting with call number `from`. */
  function Generated(c: Config, from: nat, n: nat): seq<Query>
  {
    seq(n, k requires 0 <= k < n => c.generate(from + k))
  }

  // ---------------------------------------------------------------------
  // Players

  /** No two players share a client id. */
  predicate UniqueClients(ps: seq<PlayerInfo>)
  {
    forall i, j :: 0 <= i < |ps| && 0 <= j < |ps| && ps[i].clientId == ps[j].clientId ==> i == j
  }

  /** The position of the first player with client id `cid`, if any. */
  function PlayerIndex(ps: seq<PlayerInfo>, cid: int32): (r: Option<nat>)
    ensures r.Some? ==> r.value < |ps| && ps[r.value].clientId == cid
    ensures r.Some? ==> forall k :: 0 <= k < r.value ==> ps[k].clientId != cid
    ensures r.None? <==> forall k :: 0 <= k < |ps| ==> ps[k].clientId != cid
  {
    if ps == [] then None
    else if ps[0].clientId == cid then Some(0)
    else match PlayerIndex(ps[1..], cid)
      case None => None
      case Some(k) => Some(k + 1)
  }

  /** The players that are still active, in their original order. */
  function FilterActive(ps: seq<PlayerInfo>): (r: seq<PlayerInfo>)
    ensures |r| <= |ps|
    ensures forall p :: p in r <==> p in ps && p.active
  {
    if ps == [] then []
    else
      var init, last := ps[..|ps| - 1], ps[|ps| - 1];
      assert ps == init + [last];
      if last.active then FilterActive(init) + [last] else FilterActive(init)
  }

  /** The positions of the active players, in increasing order: every entry
      is an active position, and every active position is an entry. */
  function ActivePositions(ps: seq<PlayerInfo>): (idx: seq<nat>)
    ensures forall k :: 0 <= k < |idx| ==> idx[k] < |ps| && ps[idx[k]].active
    ensures forall k, l :: 0 <= k < l < |idx| ==> idx[k] < idx[l]
    ensures forall j :: 0 <= j < |ps| && ps[j].active ==> j in idx
  {
    if ps == [] then []
    else
      var init := ActivePositions(ps[..|ps| - 1]);
      assert forall k :: 0 <= k < |init| ==> ps[..|ps| - 1][init[k]] == ps[init[k]];
      if ps[|ps| - 1].active then init + [|ps| - 1] else init
  }

  /** Every player with its score set back to zero. */
  function ResetScores(ps: seq<PlayerInfo>): seq<PlayerInfo>
  {
    seq(|ps|, k requires 0 <= k < |ps| => ps[k].(score := 0))
  }

  /** The players after client `cid` joined this room: the first player with
      that id is activated, or a new active player with score 0 is added. */
  function Joined(ps: seq<PlayerInfo>, cid: int32): seq<PlayerInfo>
  {
    match PlayerIndex(ps, cid)
    case Some(i) => ps[i := ps[i].(active := true)]
    case None => ps + [PlayerInfo(cid, 0, true)]
  }

  /** The players after client `cid` joined another room: every player with
      that id is deactivated. */
  function Deactivated(ps: seq<PlayerInfo>, cid: int32): seq<PlayerInfo>
  {
    seq(|ps|, k requires 0 <= k < |ps| =>
      if ps[k].clientId == cid then ps[k].(active := false) else ps[k])
  }

  // ---------------------------------------------------------------------
  // Scoring, in tenths of a point

  /** A correct guess earns 3 points plus 0.2 points per character of the answer. */
  function HitBonus(answer: string): nat
  {
    30 + 2 * |answer|
  }

  /** A wrong guess costs 1 point; the score is clamped at zero. */
  function Penalized(score: nat): nat
  {
    if score < 10 then 0 else score - 10
  }

  /** The position of the first pool item whose answer is exactly `input`. */
  function MatchIndex(pool: seq<Query>, input: string): (r: Option<nat>)
    ensures r.Some? ==> r.value < |pool| && pool[r.value].answer == input
    ensures r.Some? ==> forall k :: 0 <= k < r.value ==> pool[k].answer != input
    ensures r.None? <==> forall k :: 0 <= k < |pool| ==> pool[k].answer != input
  {
    if pool == [] then None
    else if pool[0].answer == input then Some(0)
    else match MatchIndex(pool[1..], input)
      case None => None
      case Some(k) => Some(k + 1)
  }

  // ---------------------------------------------------------------------
  // The transitions

  /** The delay of the round timer: the round length in milliseconds, with
      the fraction dropped toward zero as a conversion to an unsigned
      integer does. A result below zero stands for a length of -0.001 s or
      less, which that conversion leaves undefined. */
  function RoundLengthMs(c: Config): (ms: int)
    ensures var x := 1000.0 * c.roundLength;
      && (x >= 0.0 ==> 0 <= ms && ms as real <= x < ms as real + 1.0)
      && (x < 0.0 ==> ms <= 0 && x <= ms as real < x + 1.0)
  {
    var x := 1000.0 * c.roundLength;
    if x >= 0.0 then x.Floor else -((-x).Floor)
  }

  function OnStartNewRound(c: Config, st: State, now: real): State
  {
    st.(roundId := st.roundId + 1,
        pool := Generated(c, st.cursor, c.poolSize),
        poolOld := [],
        players := ResetScores(FilterActive(st.players)),
        roundStart := now,
        cursor := st.cursor + c.poolSize,
        pending := Some(FollowUp(RoundLengthMs(c), RoomEvent(EndRound, c.id))))
  }

  function OnEndRound(c: Config, st: State, now: real): State
  {
    st.(nextRoundStart := now + (c.timeBetweenRoundsMs as real) / 1000.0,
        pending := Some(FollowUp(c.timeBetweenRoundsMs, RoomEvent(StartNewRound, c.id))))
  }

  function OnPlayerJoinRoom(c: Config, st: State, e: Event): State
  {
    if e.roomId == c.id then st.(players := Joined(st.players, e.clientId))
    else st.(players := Deactivated(st.players, e.clientId))
  }

  /** Input for this room: ignored after the round's end and from unknown
      clients; otherwise scored against the first item it answers. */
  function OnPlayerInput(c: Config, st: State, e: Event, now: real): State
  {
    if now > st.roundStart + c.roundLength then st
    else match PlayerIndex(st.players, e.clientId)
      case None => st
      case Some(p) =>
        var player := st.players[p];
        match MatchIndex(st.pool, e.inputStr)
        case Some(i) =>
          st.(players := st.players[p := player.(score := player.score + HitBonus(st.pool[i].answer))],
              poolOld := st.poolOld + [st.pool[i].(clientId := e.clientId, tGuessed := now)],
              pool := st.pool[i := c.generate(st.cursor)],
              cursor := st.cursor + 1)
        case None =>
          st.(players := st.players[p := player.(score := Penalized(player.score))])
  }

  /** The room's reaction to one event. */
  function Step(c: Config, st: State, e: Event, now: real): State
  {
    match e.kind
    case StartNewRound => if e.roomId == c.id then OnStartNewRound(c, st, now) else st
    case EndRound => if e.roomId == c.id then OnEndRound(c, st, now) else st
    case PlayerJoinRoom => OnPlayerJoinRoom(c, st, e)
    case PlayerInput => if e.roomId == c.id then OnPlayerInput(c, st, e, now) else st
    case Unknown | ClientChangeName | ClientChangeColor => st
  }

  /** What holds of a room at every instant: client ids are unique, a started
      round's pool is full, and the pending timer is addressed to this room. */
  predicate Valid(c: Config, st: State)
  {
    && UniqueClients(st.players)
    && (st.roundId > 0 ==> |st.pool| == c.poolSize)
    && (st.pending.Some? ==> st.pending.value.event.roomId == c.id)
  }
}
