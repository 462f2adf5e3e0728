# Typing-battles room handler, modelled in Dafny

This project models the core of the typing-battles game server. That core is
the room: an object that reacts to one event at a time. A room starts and
ends rounds, and it refills its pool of guessable items (queries). It keeps
the list of players in the room, and it scores what players type against the
pool. The game's small whitespace trimmers are modelled too.

Files:

- `common.dfy` (module `Common`): the event, player and query records.
- `room_model.dfy` (module `RoomModel`): the room's handler as a pure transition
  function `Step(config, state, event, now)`. The helpers it uses are here
  too: player lookup, answer matching, the active-player filter and the scoring
  rules.
- `room_properties.dfy` (module `RoomProperties`): what `Step` promises for each
  event kind, the invariant it keeps, and one worked round.
- `room.dfy` (module `Rooms`): class `Room`. Its fields are the room's fields,
  and its methods update them in place with the source's loops. `Handle` is
  proved to perform exactly `Step`, so every lemma about `Step` holds of the
  object.
- `trim.dfy` (module `Trim`): `ltrim`, `rtrim` and `trim` as methods with loops,
  specification functions, and lemmas about the result.

Abstractions:

- **Clock.** The clock is the parameter `now`. Times are exact `real` seconds.
- **Scores.** Scores are natural numbers in tenths of a point. A hit adds
  `30 + 2 * |answer|`. A miss gives `max(0, score - 10)`.
- **Generator.** The item generator is the constant `generate: nat -> Query`:
  the n-th call returns `generate(n)`. The field `cursor` counts the calls made
  so far.
- **Timers.** Each timer the room starts is recorded in the ghost field
  `pending`, as the delay and the event the timer will push. A new round sets
  it to an EndRound for this room, after the round length. EndRound sets it to a
  StartNewRound for this room, after the cooldown.

Three behaviours of the handler are easy to miss:

- The handler does not check that a round is running when EndRound arrives
  (src/common.h:175-181).
- PlayerInput looks a player up by client id alone, so an inactive player (one
  who joined another room) can still score (src/common.h:228-236).
  `RoomProperties.CorrectInput` does not require the player to be active.
- The input window has no lower bound: only `now > roundStart + roundLength`
  is rejected (src/common.h:226).

## Model

| member | source | states |
|---|---|---|
| `RoomModel.PlayerIndex` | src/common.h:228-236 | returns the first position holding the client id, and returns none exactly when no player has that id |
| `RoomModel.MatchIndex` | src/common.h:243-244 | returns the first pool slot whose answer equals the input exactly, and returns none exactly when no slot does |
| `RoomModel.FilterActive` | src/common.h:154-156 | keeps exactly the active players and is never longer than its input |
| `RoomModel.ActivePositions` | src/common.h:154-156 | lists, in strictly increasing order, exactly the positions of the active players |
| `RoomProperties.FilterActiveInOrder` | src/common.h:154-156 | the filter is stable: its k-th survivor is the player at the k-th active position, and there are as many survivors as active positions |
| `RoomModel.Generated` | src/common.h:148-152 | definition, no contract; its meaning is stated by `RoomProperties.StartNewRoundEffects` and `Rooms.Room.RefillPool` |
| `RoomModel.ResetScores` | src/common.h:158-160 | definition, no contract; its meaning is stated by `RoomProperties.SurvivorsAreTheActivePlayers`, `RoomProperties.StartNewRoundEffects` and `Rooms.Room.ZeroScores` |
| `RoomModel.Joined` | src/common.h:196-211 | definition, no contract; its meaning is stated by `RoomProperties.JoinExisting`, `JoinNew`, `JoinedUnique`, `JoinActivatesExactlyOne` and `JoinedIdempotent` |
| `RoomModel.Deactivated` | src/common.h:212-219 | definition, no contract; its meaning is stated by `RoomProperties.LeaveEffects` and `RoomProperties.JoinRoomIdempotent` |
| `RoomModel.HitBonus` | src/common.h:245 | definition, no contract; its meaning (30 + 2 * length of the answer, in tenths) is stated by `RoomProperties.CorrectInput` and `RoomProperties.ScenarioOneRound` |
| `RoomModel.Penalized` | src/common.h:259-260 | definition, no contract; its meaning (minus 10 tenths, clamped at 0) is stated by `RoomProperties.WrongInput` |
| `RoomModel.RoundLengthMs` | src/common.h:165 | the round length in milliseconds with the fraction dropped toward zero: for a non-negative length the largest whole number not above it, for a negative one the smallest whole number not below it, so a length between -0.001 s and 0 gives 0 |
| `RoomModel.OnStartNewRound` | src/common.h:141-172 | definition, no contract; its meaning is stated by `RoomProperties.StartNewRoundEffects` and `RoomProperties.RoundCycle` |
| `RoomModel.OnEndRound` | src/common.h:175-191 | definition, no contract; its meaning is stated by `RoomProperties.EndRoundEffects` and `RoomProperties.RoundCycle` |
| `RoomModel.OnPlayerJoinRoom` | src/common.h:194-221 | definition, no contract; its meaning is stated by `RoomProperties.JoinExisting`, `JoinNew`, `LeaveEffects` and `JoinRoomIdempotent` |
| `RoomModel.OnPlayerInput` | src/common.h:223-262 | definition, no contract; its meaning is stated by `RoomProperties.LateInputIgnored`, `UnknownClientIgnored`, `CorrectInput` and `WrongInput` |
| `RoomModel.Step` | src/common.h:139-270 | definition, no contract; its meaning is stated by the lemmas of `RoomProperties` below, one or more per event kind, and by `StepPreservesValid` |
| `RoomProperties.ForeignEventIgnored` | src/common.h:139-226 | StartNewRound, EndRound and PlayerInput for another room leave the whole room unchanged |
| `RoomProperties.UnhandledEventIgnored` | src/common.h:264-268 | Unknown, ClientChangeName and ClientChangeColor events leave the whole room unchanged |
| `RoomProperties.SurvivorsAreTheActivePlayers` | src/common.h:154-160 | after filtering and zeroing, a player is in the new list exactly when it is an active player of the old list with its score set to 0 |
| `RoomProperties.StartNewRoundEffects` | src/common.h:141-172 | roundId goes up by one; poolOld is empty; the pool holds exactly poolSize items, the next ones from the generator; survivors are the active players in their original order (the k-th survivor is the player at the k-th active position), all active with score 0; roundStart is now; the pending timer is an EndRound for this room |
| `RoomProperties.EndRoundEffects` | src/common.h:175-191 | EndRound is accepted in any state; it changes only nextRoundStart (now plus the cooldown) and the pending timer (a StartNewRound for this room after the cooldown) |
| `RoomProperties.RoundCycle` | src/common.h:164-191 | the event a new round's timer delivers ends the round and leaves pool and players alone; the event the cooldown timer then delivers starts the next round |
| `RoomProperties.JoinedUnique` | src/common.h:196-211 | joining keeps client ids unique |
| `RoomProperties.JoinExisting` | src/common.h:197-201 | a client already present is activated in place; length, order, score and every other player are unchanged |
| `RoomProperties.JoinNew` | src/common.h:204-209 | a client not present is appended at the end, active, with score 0 |
| `RoomProperties.JoinActivatesExactlyOne` | src/common.h:196-211 | after a join, exactly one player has the client id, and it is active |
| `RoomProperties.JoinedIdempotent` | src/common.h:196-211 | joining twice gives the same players as joining once |
| `RoomProperties.LeaveEffects` | src/common.h:212-219 | a join for another room adds no player; every player with the id becomes inactive with its score kept; all other players and fields are unchanged |
| `RoomProperties.JoinRoomIdempotent` | src/common.h:194-221 | handling the same PlayerJoinRoom event twice equals handling it once, for either room |
| `RoomProperties.LateInputIgnored` | src/common.h:226 | input with now > roundStart + roundLength changes nothing |
| `RoomProperties.UnknownClientIgnored` | src/common.h:228-236 | input from a client id that no player has changes nothing |
| `RoomProperties.CorrectInput` | src/common.h:243-254 | the first matching slot gets the next generated item and the other slots are untouched; poolOld gains that item at its end, stamped with the client id and time; the player's score rises by 3 + 0.2 * length of the answer; nothing else changes |
| `RoomProperties.WrongInput` | src/common.h:257-261 | with no matching answer, the score becomes max(0, score - 1); pool, poolOld and the other players are unchanged |
| `RoomProperties.FilterActiveUnique` | src/common.h:154-156 | dropping inactive players keeps client ids unique |
| `RoomProperties.StepPreservesValid` | src/common.h:139-270 | every event keeps the room invariant: unique client ids, a full pool once a round has started, and a pending timer addressed to this room |
| `RoomProperties.ScenarioOneRound` | src/common.h:141-262 | worked round: start, join of client 7, "cat" scores 3.6, a wrong guess leaves 2.6, a late guess is ignored |
| `Rooms.Room.constructor` | src/common.h:116-135 | a new room has no round, no players, empty pools and no pending timer, and it satisfies the invariant |
| `Rooms.Room.Generate` | src/common.h:137 | returns the generator's next item and advances the call count by one |
| `Rooms.Room.Handle` | src/common.h:139-270 | the room's new state is exactly Step of the old state, and the invariant is kept |
| `Rooms.Room.StartNewRound` | src/common.h:141-173 | the in-place round start performs exactly the StartNewRound transition |
| `Rooms.Room.RefillPool` | src/common.h:148-152 | the emptied pool is filled with the next poolSize generated items; nothing else changes |
| `Rooms.Room.DropInactivePlayers` | src/common.h:154-156 | players becomes the active players in their original order; nothing else changes |
| `Rooms.Room.ZeroScores` | src/common.h:158-160 | every player's score becomes 0; nothing else changes |
| `Rooms.Room.EndRound` | src/common.h:175-192 | the in-place round end performs exactly the EndRound transition |
| `Rooms.Room.PlayerJoinRoom` | src/common.h:194-221 | the in-place join or leave performs exactly the PlayerJoinRoom transition |
| `Rooms.Room.FindPlayer` | src/common.h:228-234 | returns the position PlayerIndex gives, or -1 when PlayerIndex finds none |
| `Rooms.Room.ScoreHit` | src/common.h:244-250 | the player's score rises by the hit bonus of the answered item; that item, stamped with the client id and time, is appended to poolOld; its slot gets the generator's next item; nothing else changes |
| `Rooms.Room.PlayerInput` | src/common.h:223-262 | the in-place scoring performs exactly the PlayerInput transition |
| `Trim.IsSpace` | src/common.h:31 | definition, no contract: the characters `isspace` accepts in the C locale (also at src/common.h:38); used by every trim lemma |
| `Trim.LTrimmed` | src/common.h:29-33 | the result is a suffix of the input, only whitespace was cut, and it does not start with whitespace |
| `Trim.RTrimmed` | src/common.h:36-40 | the result is a prefix of the input, only whitespace was cut, and it does not end with whitespace |
| `Trim.Trimmed` | src/common.h:43-46 | definition, no contract; its meaning is stated by `Trim.TrimmedBounds`, `Trim.TrimmedIsUnique` and `Trim.TrimmedIdempotent` |
| `Trim.LTrim` | src/common.h:29-33 | the loop that skips leading whitespace returns LTrimmed of the input |
| `Trim.RTrim` | src/common.h:36-40 | the loop that skips trailing whitespace returns RTrimmed of the input |
| `Trim.TrimBoth` | src/common.h:43-46 | trimming the start and then the end returns Trimmed of the input |
| `Trim.TrimmedBounds` | src/common.h:43-46 | the trimmed string is a contiguous piece of the input, and the lemma returns its positions: everything before and after it is whitespace, and the piece neither starts nor ends with whitespace |
| `Trim.LTrimmedAt` | src/common.h:29-33 | when only whitespace precedes position i and the character at i is not whitespace (or i is the end), trimming the start leaves exactly the string from i on |
| `Trim.RTrimmedAt` | src/common.h:36-40 | when only whitespace follows position j and the character before j is not whitespace (or j is 0), trimming the end leaves exactly the string up to j |
| `Trim.TrimmedIsUnique` | src/common.h:43-46 | conversely, any piece of the input with only whitespace before and after it and no whitespace at its own ends is exactly the trimmed string |
| `Trim.TrimmedOfPiece` | src/common.h:43-46 | a nonempty inner piece of the input is exactly the trimmed string |
| `Trim.TrimmedOfBlank` | src/common.h:43-46 | a string made only of whitespace trims to the empty string |
| `Trim.TrimmedIdempotent` | src/common.h:43-46 | trimming twice is the same as trimming once |

## Left out

- The event queue `Events` (src/common.h:92-103): its mutex and condition variable only hand events between threads. Events are handed to `Handle` one at a time.
- `Notifier` (src/common.h:105-114) and the timer threads (src/common.h:164-172, 183-191): threads, joins and sleeps are concurrency. Only the last timer started is kept, in the ghost field `pending`. The join that waits for the previous timer to finish is not modelled.
- `timestamp_ms` and `timestamp_s` (src/common.h:18-26): wall clock. They are replaced by the parameter `now`. The two clock reads in PlayerInput (src/common.h:226 and 248) both use the same `now`.
- `frand` (src/common.h:16): random floats, not used by the handler.
- `Client` (src/common.h:49-52): the name and colour registry, not touched by the handler.
- All `printf` diagnostics: logging only.
- Float arithmetic: scores are exact tenths of a point and times are exact reals, so float rounding of scores, `tGuessed_s` and `0.001f * tTimeBetweenRounds_ms` is not modelled. The coordinates `Query.x` and `Query.y` are carried unchanged.
- The item generator itself: `generate()` is pure virtual (src/common.h:137). It is modelled as an injected stream of items.
- `RoomModel.RoundLengthMs`: the `(uint64_t)` conversion of `1000.0 * tRoundLength_s` drops the fraction toward zero, so a round length strictly between -0.001 s and 0 gives a delay of 0 ms, as in the source. A round length of -0.001 s or less has no defined result in the source; the model then gives the negative truncated value.
- `RoomModel.HitBonus` counts characters of the answer. The source counts bytes (`size()`), so non-ASCII answers are not modelled.
- `roundId` is unbounded. A 32-bit `int32_t` increment past 2^31 - 1 is not modelled. `poolSize` is a natural number, because a negative `int32_t` compared with `pool.size()` would never end the refill loop.
- `tCreated_s` is not read or written by the handler, so it is not modelled.
- `Rooms.Room.Handle` requires the room invariant. The source has no such precondition. The invariant holds from construction because the handler is the only code that changes a room.
- `Trim.LTrim`, `Trim.RTrim` and `Trim.TrimBoth` take the string and return the trimmed string, instead of erasing from a `std::string&` in place. `isspace` is modelled for the default C locale only.
