/**
 * The game manager component: the game-state machine, the two-slot room
 * registry and the score fields, all updated in place by the per-frame
 * update and by the handlers of the static event bus. The static event bus
 * is the ghost record `log`; the manager's own subscription to room-changed
 * events is the call to `OnRoomChange` right after a room is announced.
 */
module GameManagerClass {
  import opened Wrappers
  import opened MachineInt
  import opened ScoreTracker
  import opened GameLoop

  class GameManager<Room, Level> {
    /** The configured dungeon levels and the level to play (set in the editor). */
    const levels: seq<Level>
    const levelIndex: int

    var currentRoom: Option<Room>
    var previousRoom: Option<Room>
    var gameState: GameState
    var previousGameState: GameState
    var score: Int64
    var scoreMultiplier: Int32

    /** Everything published on the static event bus, in order. */
    ghost var log: seq<Announcement<Room>>
    /** The rooms the player was moved into (to the spawn point nearest the room's middle). */
    ghost var placements: seq<Room>
    /** The level definitions handed to the dungeon builder. */
    ghost var builds: seq<Level>

    /** The multiplier is within its bounds. */
    ghost predicate Valid()
      reads this
    {
      InBounds(Tracker())
    }

    function Tracker(): (t: Tracker)
      reads this
    {
      ScoreTracker.Tracker(score, scoreMultiplier)
    }

    ghost function Machine(): (m: Machine<Room, Level>)
      reads this
    {
      GameLoop.Machine(gameState, previousGameState, currentRoom, previousRoom, log, placements, builds)
    }

    /** A configured manager after `Start`. */
    constructor (levels: seq<Level>, levelIndex: int)
      ensures this.levels == levels && this.levelIndex == levelIndex
      ensures gameState == GameStarted && previousGameState == GameStarted
      ensures score == 0 && scoreMultiplier == 1
      ensures Machine() == Initial() && Valid()
    {
      this.levels := levels;
      this.levelIndex := levelIndex;
      currentRoom, previousRoom := None, None;
      previousGameState := GameStarted;
      gameState := GameStarted;
      score := 0;
      scoreMultiplier := 1;
      log, placements, builds := [], [], [];
    }

    /** One frame: the game-state switch, then the development reset on key P. */
    method Update(report: BuildReport<Room>, resetKey: bool) returns (fault: Option<Fault>)
      modifies this`gameState, this`currentRoom, this`previousRoom, this`log, this`placements, this`builds
      ensures var o := GameLoop.Update(old(Machine()), levels, levelIndex, FrameInput(report, resetKey));
        Machine() == o.after && fault == o.fault
      ensures fault.None? && resetKey ==> gameState == GameStarted
      ensures previousGameState == old(previousGameState)
    {
      fault := HandleGameState(report);
      if fault.Some? {
        return;
      }
      if resetKey {
        gameState := GameStarted;
      }
    }

    method OnRoomChange(room: Option<Room>)
      modifies this`currentRoom, this`previousRoom
      ensures previousRoom == old(currentRoom) && currentRoom == room
    {
      SetCurrentRoom(room);
    }

    /** A point-scored event: the points at the multiplier in effect now, then a score-changed announcement. */
    method OnPointScored(point: Int32)
      modifies this`score, this`log
      ensures Tracker() == Step(old(Tracker()), PointScored(point))
      ensures scoreMultiplier == old(scoreMultiplier)
      ensures IsInt32(point * scoreMultiplier) && IsInt64(old(score) + point * scoreMultiplier) ==>
        score == old(score) + point * scoreMultiplier
      ensures log == old(log) + [ScoreChangedEvent(ScoreChanged(score, scoreMultiplier))]
    {
      score := AddPoints(score, point, scoreMultiplier);
      log := log + [ScoreChangedEvent(ScoreChanged(score, scoreMultiplier))];
    }

    /** A multiplier-changed event: one step up or down, clamped, then announced even if unchanged. */
    method OnMultiplierChanged(isIncrement: bool)
      modifies this`scoreMultiplier, this`log
      ensures Tracker() == Step(old(Tracker()), MultiplierChanged(isIncrement))
      ensures score == old(score) && Valid()
      ensures old(Valid()) ==>
        scoreMultiplier == if isIncrement then Min(old(scoreMultiplier) + 1, MAX_MULTIPLIER)
                           else Max(old(scoreMultiplier) - 1, MIN_MULTIPLIER)
      ensures log == old(log) + [ScoreChangedEvent(ScoreChanged(score, scoreMultiplier))]
    {
      var stepped: Int32;
      if isIncrement {
        stepped := Wrap32(scoreMultiplier + 1);
      } else {
        stepped := Wrap32(scoreMultiplier - 1);
      }
      scoreMultiplier := Clamp(stepped, MIN_MULTIPLIER, MAX_MULTIPLIER);
      log := log + [ScoreChangedEvent(ScoreChanged(score, scoreMultiplier))];
    }

    /** The game-state switch; only GAME_STARTED has work to do. */
    method HandleGameState(report: BuildReport<Room>) returns (fault: Option<Fault>)
      modifies this`gameState, this`currentRoom, this`previousRoom, this`log, this`placements, this`builds
      ensures var o := GameLoop.HandleGameState(old(Machine()), levels, levelIndex, report);
        Machine() == o.after && fault == o.fault
      ensures old(gameState) != GameStarted ==> Machine() == old(Machine()) && fault.None?
      ensures old(gameState) == GameStarted && fault.None? ==> gameState == PlayingLevel
      ensures previousGameState == old(previousGameState)
    {
      match gameState
      case GameStarted =>
        fault := PlayDungeonLevel(levelIndex, report);
        if fault.None? {
          gameState := PlayingLevel;
        }
      case PlayingLevel => fault := None;
      case EngagingEnemy => fault := None;
      case LevelCompleted => fault := None;
      case GameWon => fault := None;
      case GameLost => fault := None;
      case GamePaused => fault := None;
      case DungeonOverviewMap => fault := None;
      case RestartGame => fault := None;
      case Unnamed(_) => fault := None;
    }

    /**
     * Builds the level at `index`, announces the current room whatever the
     * build result, and moves the player into it.
     */
    method PlayDungeonLevel(index: int, report: BuildReport<Room>) returns (fault: Option<Fault>)
      modifies this`currentRoom, this`previousRoom, this`log, this`placements, this`builds
      ensures var o := GameLoop.PlayDungeonLevel(old(Machine()), levels, index, report);
        Machine() == o.after && fault == o.fault
      ensures 0 <= index < |levels| ==> previousRoom == currentRoom
    {
      if !(0 <= index < |levels|) {
        return Some(LevelIndexOutOfRange);
      }
      builds := builds + [levels[index]];
      if report.entrance.Some? {
        SetCurrentRoom(report.entrance);
      }
      // a failed build (report.built false) is only logged
      log := log + [RoomChanged(currentRoom)];
      OnRoomChange(currentRoom);
      if currentRoom.None? {
        return Some(NullCurrentRoom);
      }
      placements := placements + [currentRoom.value];
      fault := None;
    }

    method GetCurrentRoom() returns (room: Option<Room>)
      ensures room == currentRoom
    {
      room := currentRoom;
    }

    /** The registry update: the current room becomes the previous one, then `room` is current. */
    method SetCurrentRoom(room: Option<Room>)
      modifies this`currentRoom, this`previousRoom
      ensures previousRoom == old(currentRoom) && currentRoom == room
    {
      previousRoom := currentRoom;
      currentRoom := room;
    }

    /** The configured level to play; an index outside the list throws. */
    method GetCurrentDungeonLevel() returns (level: Result<Level, Fault>)
      ensures 0 <= levelIndex < |levels| ==> level == Ok(levels[levelIndex])
      ensures !(0 <= levelIndex < |levels|) ==> level == Err(LevelIndexOutOfRange)
    {
      if 0 <= levelIndex < |levels| {
        level := Ok(levels[levelIndex]);
      } else {
        level := Err(LevelIndexOutOfRange);
      }
    }
  }

  /** A client: the first frame after start enters the builder's room and starts playing. */
  method FirstFrame<Room, Level>(levels: seq<Level>, entrance: Room, built: bool)
    requires |levels| > 0
  {
    var gm := new GameManager<Room, Level>(levels, 0);
    var fault := gm.Update(BuildReport(built, Some(entrance)), false);
    assert fault.None?;
    assert gm.gameState == PlayingLevel;
    assert gm.currentRoom == Some(entrance) && gm.previousRoom == Some(entrance);
    assert gm.log == [RoomChanged(Some(entrance))] && gm.placements == [entrance];
    gm.OnMultiplierChanged(true);
    gm.OnPointScored(10);
    assert gm.score == 20;
  }
}
