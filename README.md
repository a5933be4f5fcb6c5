# Game manager of a top-down dungeon crawler, in Dafny

This project models the game manager of a Unity dungeon-crawler and proves
properties of that model. The game manager does five things:

- It runs the game-state machine. Each frame it switches on the current state.
- It starts a dungeon level. It asks the dungeon builder for the level, announces the current room, and moves the player there.
- It keeps a two-slot room registry: the current room and the previous room.
- It keeps a `long` score and an `int` multiplier clamped to [1, 30].
- It reacts to room-changed, point-scored and multiplier-changed events from a static event bus.

Layout:

- `wrappers.dfy` (`Wrappers`): `Option` stands for a C# reference that may be null. `Result` stands for a call that may throw.
- `machine_int.dfy` (`MachineInt`): the C# `int` and `long` types, and the unchecked wrap-around of their arithmetic.
- `score_tracker.dfy` (`ScoreTracker`): the score and multiplier updates as pure functions. `Run` folds a run of events. `Announced` gives the score-changed announcements. The lemmas cover bounds, saturation, exact sums and event ordering.
- `game_loop.dfy` (`GameLoop`): one frame as pure functions on a `Machine` snapshot, plus runs of frames (`Frames`) and lemmas about them.
- `game_manager.dfy` (`GameManagerClass`): the class `GameManager`. Its fields are updated in place. The frame and score methods are proved against the `GameLoop` and `ScoreTracker` functions; the accessors and the registry update state their effect directly.

Modelling decisions:

- **Event bus.** The ghost sequence `log` is everything the manager publishes. The manager subscribes to its own room-changed events. So announcing a room is modelled as appending `RoomChanged` to `log`, then calling `OnRoomChange` at once. This matches the bus's synchronous dispatch.
- **Dungeon builder.** The builder is an input, a `BuildReport`:
  - `built` is its boolean result. The code only logs a failure, so `built` has no effect on any state (lemma `BuildResultIgnored`).
  - `entrance` is the room the builder made current through `SetCurrentRoom` while building, if it did. `None` means the builder touches no field of the manager.
- **Exceptions.** Two exceptions are modelled as a `Fault`:
  - an index outside the level list;
  - `currentRoom.GetMiddlePosition()` on a null room.
  
  An exception ends the frame. Changes already made stay, and later statements do not run. So a frame that throws in `PlayDungeonLevel` stays in GAME_STARTED and skips the key-P reset. The engine then runs the next frame as usual (`Frames`).
- **Player movement.** Moving the player is recorded as the room appended to the ghost sequence `placements`. The handed-over level definitions are recorded in `builds`.
- **Enum values.** `GameState.Unnamed(v)` stands for a value of the C# enum's integer that is not one of its named members. Only the `default` branch of the switch sees it.
- **Integer arithmetic.** `point * scoreMultiplier` is `int` arithmetic, added to a `long` score. Both are unchecked and wrap (`AddPoints`). The type of the event's `point` field is not in the modelled source; it is taken to be `int`.

Behaviour of the code that the model keeps, though a reader might expect otherwise:

- After GAME_STARTED the state becomes PLAYING_LEVEL even when the build failed, provided a room is current (a room kept from an earlier play, or one the builder set). The current room is then still announced and the player still moved. Without a current room, see the null-room case below.
- An out-of-range level index is an exception in the frame, not a start-up error.
- A null current room makes every frame throw after announcing a null room. The game then stays in GAME_STARTED (`StuckWithoutRoom`).
- The score is not kept non-negative: one large award can wrap it below zero (`ProductWraps`).

## Model

| member | source | states |
|---|---|---|
| `MachineInt.Wrap32` | Assets/Project/Scripts/GameManager/GameManager.cs:108 | unchecked `int` result: equal to the exact value when it fits, congruent to it modulo 2^32 always |
| `MachineInt.Wrap64` | Assets/Project/Scripts/GameManager/GameManager.cs:108 | unchecked `long` result: equal to the exact value when it fits, congruent to it modulo 2^64 always |
| `ScoreTracker.Clamp` | Assets/Project/Scripts/GameManager/GameManager.cs:122 | the clamp lies in [lo, hi], is the identity inside it, and equals max(lo, min(v, hi)) |
| `ScoreTracker.NextMultiplier` | Assets/Project/Scripts/GameManager/GameManager.cs:117-122 | the new multiplier is always in [1, 30]; from an in-bounds value it is min(m+1, 30) or max(m-1, 1) |
| `ScoreTracker.AddPoints` | Assets/Project/Scripts/GameManager/GameManager.cs:108 | the score grows by exactly point × multiplier when nothing overflows; otherwise it is the wrapped sum |
| `ScoreTracker.Step` | Assets/Project/Scripts/GameManager/GameManager.cs:106-122 | a point event leaves the multiplier alone; a multiplier event leaves the score alone and lands in bounds; bounds are preserved |
| `ScoreTracker.StepPoint` | Assets/Project/Scripts/GameManager/GameManager.cs:108 | a point event that overflows nothing adds exactly point × current multiplier |
| `ScoreTracker.Run` | Assets/Project/Scripts/GameManager/GameManager.cs:106-122 | after any run of events the multiplier is in [1, 30] if it started there or if any multiplier event was handled |
| `ScoreTracker.Announced` | Assets/Project/Scripts/GameManager/GameManager.cs:110-123 | one score-changed announcement per event, the i-th carrying the score and multiplier after the first i + 1 events |
| `ScoreTracker.RunAppend` | Assets/Project/Scripts/GameManager/GameManager.cs:106-122 | handling two runs in sequence is handling their concatenation |
| `ScoreTracker.Increments` | Assets/Project/Scripts/GameManager/GameManager.cs:117-122 | k increments give min(m + k, 30) and keep the score |
| `ScoreTracker.Decrements` | Assets/Project/Scripts/GameManager/GameManager.cs:117-122 | k decrements give max(m - k, 1) and keep the score |
| `ScoreTracker.SaturationStillAnnounces` | Assets/Project/Scripts/GameManager/GameManager.cs:117-123 | an increment at 30 stays 30 and a decrement at 1 stays 1, and each is still announced |
| `ScoreTracker.MultiplierScenario` | Assets/Project/Scripts/GameManager/GameManager.cs:117-122 | from 1, five increments give 6 and ten more decrements give 1 |
| `ScoreTracker.PointScenario` | Assets/Project/Scripts/GameManager/GameManager.cs:106-111 | score 0 at multiplier 3 plus 10 points gives 30, announced as (30, 3) |
| `ScoreTracker.PointsUseCurrentMultiplier` | Assets/Project/Scripts/GameManager/GameManager.cs:106-122 | a point handled after a multiplier change uses the changed multiplier, for any awards that overflow nothing |
| `ScoreTracker.PointRun` | Assets/Project/Scripts/GameManager/GameManager.cs:106-111 | a run of non-negative awards adds multiplier × their sum when nothing overflows |
| `ScoreTracker.ProductWraps` | Assets/Project/Scripts/GameManager/GameManager.cs:108 | the largest `int` award at multiplier 2 takes score 0 to -2 |
| `GameLoop.Initial` | Assets/Project/Scripts/GameManager/GameManager.cs:75-82 | after start both game states are GAME_STARTED, no room is set and nothing is recorded |
| `GameLoop.SetCurrentRoom` | Assets/Project/Scripts/GameManager/GameManager.cs:197-201 | previous becomes the old current, current becomes the argument, nothing else changes |
| `GameLoop.PlayDungeonLevel` | Assets/Project/Scripts/GameManager/GameManager.cs:172-186 | a bad index throws and changes nothing; otherwise the level is built, the room announced and registered by the builder, if it entered a room, and by the handler (previous == current), and the player moved unless the room is null, which throws NullCurrentRoom |
| `GameLoop.HandleGameState` | Assets/Project/Scripts/GameManager/GameManager.cs:131-168 | GAME_STARTED plays the level and becomes PLAYING_LEVEL unless that threw; every other state, named or not, changes nothing; the previous state is never written |
| `GameLoop.Update` | Assets/Project/Scripts/GameManager/GameManager.cs:86-95 | the switch runs, then key P resets the state to GAME_STARTED, except when the switch threw; without key P the frame is exactly the switch |
| `GameLoop.Frames` | Assets/Project/Scripts/GameManager/GameManager.cs:86-95 | over any run of frames the previous state is unchanged and the records only grow |
| `GameLoop.BuildResultIgnored` | Assets/Project/Scripts/GameManager/GameManager.cs:174-181 | a failed build gives the same frame as a successful one |
| `GameLoop.OtherStatesAreStable` | Assets/Project/Scripts/GameManager/GameManager.cs:141-166 | without a reset, any state other than GAME_STARTED stays put and nothing is recorded |
| `GameLoop.LevelIsPlayedOnce` | Assets/Project/Scripts/GameManager/GameManager.cs:135-139 | from GAME_STARTED with a room to enter, the level is built and announced once, and the game stays in PLAYING_LEVEL |
| `GameLoop.StuckWithoutRoom` | Assets/Project/Scripts/GameManager/GameManager.cs:181-183 | with no room anywhere, every frame rebuilds the level, announces a null room and stays in GAME_STARTED |
| `GameLoop.BadIndexFreezes` | Assets/Project/Scripts/GameManager/GameManager.cs:174 | with the level index out of range, GAME_STARTED never changes anything |
| `GameLoop.ResetReplaysLevel` | Assets/Project/Scripts/GameManager/GameManager.cs:92-93 | after a frame with key P, the next frame builds the level and announces the room again |
| `GameManagerClass.GameManager.constructor` | Assets/Project/Scripts/GameManager/GameManager.cs:75-82 | both game states GAME_STARTED, score 0, multiplier 1, the snapshot is `Initial` |
| `GameManagerClass.GameManager.Update` | Assets/Project/Scripts/GameManager/GameManager.cs:86-95 | the new state and fault are those of `GameLoop.Update`; the previous state is untouched |
| `GameManagerClass.GameManager.OnRoomChange` | Assets/Project/Scripts/GameManager/GameManager.cs:99-102 | the announced room goes through the registry update |
| `GameManagerClass.GameManager.OnPointScored` | Assets/Project/Scripts/GameManager/GameManager.cs:106-111 | score grows by point × the multiplier in effect (exactly, when nothing overflows); the multiplier is unchanged; (score, multiplier) is announced |
| `GameManagerClass.GameManager.OnMultiplierChanged` | Assets/Project/Scripts/GameManager/GameManager.cs:115-124 | the multiplier steps and is clamped into [1, 30]; the score is untouched; the announcement is unconditional |
| `GameManagerClass.GameManager.HandleGameState` | Assets/Project/Scripts/GameManager/GameManager.cs:131-168 | the new state and fault are those of `GameLoop.HandleGameState` |
| `GameManagerClass.GameManager.PlayDungeonLevel` | Assets/Project/Scripts/GameManager/GameManager.cs:172-186 | the new state and fault are those of `GameLoop.PlayDungeonLevel`; with a valid index, previous room == current room |
| `GameManagerClass.GameManager.GetCurrentRoom` | Assets/Project/Scripts/GameManager/GameManager.cs:190-193 | returns the current room and changes nothing |
| `GameManagerClass.GameManager.SetCurrentRoom` | Assets/Project/Scripts/GameManager/GameManager.cs:197-201 | previous becomes the old current and current becomes the argument; no other field changes |
| `GameManagerClass.GameManager.GetCurrentDungeonLevel` | Assets/Project/Scripts/GameManager/GameManager.cs:219-222 | returns the configured level when the index is in range and throws otherwise; changes nothing |

## Left out

- Assets/Project/Scripts/Enemy/Enemy.cs: it only fetches engine components in `Awake`.
- `Awake` and `InstantiatePlayer`: they instantiate the player through engine calls and the resources singleton. The model assumes the player exists.
- `GetCurrentPlayer` and `GetCurrentPlayerMinimapIcon`: accessors of engine objects that are not modelled.
- Player positioning: the room middle position, the nearest spawn point and the transform write are floating-point geometry in helpers that are not part of this model. They are recorded only as the room in `placements`.
- `DungeonBuilder.GenerateDungeon` internals: the builder is reduced to its `BuildReport`.
- `OnEnable` and `OnDisable`: the subscription wiring. The model assumes the manager is subscribed. Other subscribers, and the events the bus delivers, are outside the model.
- `Debug.LogError`, the polling of `Input.GetKeyDown`, and the editor-only `OnValidate`: I/O and editor tooling. Key P is a boolean frame input.
- Events handled before `Start`: the constructor models creation followed by `Start`. The C# default field values that hold before `Start` (for instance a multiplier of 0) are not modelled.
- The integer values of the `GameState` enum: that enum's declaration is not part of this model. `Unnamed(v)` is assumed to carry only integers that no named member has; an `Unnamed` value equal to a named member's integer would go to the `default` branch here, where C# would take the named case.
