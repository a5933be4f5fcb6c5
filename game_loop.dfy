/**
 * The per-frame behaviour of the game manager as functions on a snapshot of
 * its state: the game-state switch, the level start, the room registry and
 * the announcements made on the static event bus. An exception thrown inside
 * a frame is a `Fault`: it ends that frame, keeps what was already done, and
 * the engine calls the next frame as usual.
 */
module GameLoop {
  import opened Wrappers
  import opened MachineInt
  import opened ScoreTracker

  /**
   * The game states. `Unnamed` is any other value of the underlying C# enum
   * integer, which only the switch's `default` branch can see.
   */
  datatype GameState =
    | GameStarted
    | PlayingLevel
    | EngagingEnemy
    | LevelCompleted
    | GameWon
    | GameLost
    | GamePaused
    | DungeonOverviewMap
    | RestartGame
    | Unnamed(value: Int32)

  /** The exceptions a frame can throw. */
  datatype Fault =
    | LevelIndexOutOfRange  // `dungeonLevelList[index]` with index outside the list
    | NullCurrentRoom       // `currentRoom.GetMiddlePosition()` while `currentRoom` is null

  /** What the game manager publishes on the static event bus. */
  datatype Announcement<Room> =
    | RoomChanged(room: Option<Room>)
    | ScoreChangedEvent(payload: ScoreChanged)

  /**
   * What the dungeon builder reports for one `GenerateDungeon` call: its
   * boolean result, and the room it made current through `SetCurrentRoom`
   * while building, if it did.
   */
  datatype BuildReport<Room> = BuildReport(built: bool, entrance: Option<Room>)

  /** What the engine hands to one frame: the builder's report, and whether key P went down. */
  datatype FrameInput<Room> = FrameInput(report: BuildReport<Room>, resetKey: bool)

  /**
   * The part of the game manager's state a frame touches, plus three ghost
   * records: what was announced, the rooms the player was moved into, and the
   * level definitions handed to the builder.
   */
  datatype Machine<Room, Level> = Machine(
    state: GameState,
    previousState: GameState,
    current: Option<Room>,
    previous: Option<Room>,
    log: seq<Announcement<Room>>,
    placements: seq<Room>,
    builds: seq<Level>)

  /** A frame's result: the new state and the exception, if one was thrown. */
  datatype Outcome<Room, Level> = Outcome(after: Machine<Room, Level>, fault: Option<Fault>)

  /** The state right after `Start`: both game states GAME_STARTED, no room, nothing recorded. */
  function Initial<Room, Level>(): (m: Machine<Room, Level>)
    ensures m.state == GameStarted && m.previousState == GameStarted
    ensures m.current == None && m.previous == None
    ensures m.log == [] && m.placements == [] && m.builds == []
  {
    Machine(GameStarted, GameStarted, None, None, [], [], [])
  }

  /** The room registry update: the old current room becomes the previous one. */
  function SetCurrentRoom<Room, Level>(m: Machine<Room, Level>, room: Option<Room>): (r: Machine<Room, Level>)
    ensures r.previous == m.current && r.current == room
    ensures r.(current := m.current, previous := m.previous) == m
  {
    m.(previous := m.current, current := room)
  }

  /**
   * Starting the level at `index`: hand its definition to the builder, announce
   * the current room whatever the builder reported (the room-changed handler
   * then registers it again), and move the player to that room.
   */
  function PlayDungeonLevel<Room, Level>(m: Machine<Room, Level>, levels: seq<Level>, index: int,
                                         report: BuildReport<Room>): (o: Outcome<Room, Level>)
    ensures o.after.state == m.state && o.after.previousState == m.previousState
    ensures !(0 <= index < |levels|) ==> o == Outcome(m, Some(LevelIndexOutOfRange))
    ensures 0 <= index < |levels| ==>
      var room := if report.entrance.Some? then report.entrance else m.current;
      && o.after.builds == m.builds + [levels[index]]
      && o.after.log == m.log + [RoomChanged(room)]
      && o.after.current == room && o.after.previous == room
      && o.fault == (if room.None? then Some(NullCurrentRoom) else None)
      && o.after.placements == if room.None? then m.placements else m.placements + [room.value]
    ensures o.fault.Some? ==> o.after.placements == m.placements
  {
    if !(0 <= index < |levels|) then
      Outcome(m, Some(LevelIndexOutOfRange))
    else
      var generated := m.(builds := m.builds + [levels[index]]);
      var entered := if report.entrance.Some? then SetCurrentRoom(generated, report.entrance) else generated;
      // a failed build is only logged
      var announced := entered.(log := entered.log + [RoomChanged(entered.current)]);
      var handled := SetCurrentRoom(announced, announced.current);
      if handled.current.None? then
        Outcome(handled, Some(NullCurrentRoom))
      else
        Outcome(handled.(placements := handled.placements + [handled.current.value]), None)
  }

  /**
   * The game-state switch. GAME_STARTED plays the current level and, unless
   * that threw, moves to PLAYING_LEVEL (whatever the builder reported); every
   * other state, named or not, does nothing.
   */
  function HandleGameState<Room, Level>(m: Machine<Room, Level>, levels: seq<Level>, index: int,
                                        report: BuildReport<Room>): (o: Outcome<Room, Level>)
    ensures o.after.previousState == m.previousState
    ensures m.state != GameStarted ==> o == Outcome(m, None)
    ensures m.state == GameStarted ==>
      var played := PlayDungeonLevel(m, levels, index, report);
      && o.fault == played.fault
      && o.after == if o.fault.None? then played.after.(state := PlayingLevel) else played.after
    ensures m.state == GameStarted ==> o.after.state == if o.fault.None? then PlayingLevel else GameStarted
  {
    match m.state
    case GameStarted =>
      var played := PlayDungeonLevel(m, levels, index, report);
      if played.fault.Some? then played else Outcome(played.after.(state := PlayingLevel), None)
    case PlayingLevel => Outcome(m, None)
    case EngagingEnemy => Outcome(m, None)
    case LevelCompleted => Outcome(m, None)
    case GameWon => Outcome(m, None)
    case GameLost => Outcome(m, None)
    case GamePaused => Outcome(m, None)
    case DungeonOverviewMap => Outcome(m, None)
    case RestartGame => Outcome(m, None)
    case Unnamed(_) => Outcome(m, None)
  }

  /**
   * One frame: the game-state switch, then the development reset on key P,
   * which puts the game back to GAME_STARTED. An exception in the switch
   * leaves the frame before the reset.
   */
  function Update<Room, Level>(m: Machine<Room, Level>, levels: seq<Level>, index: int,
                               input: FrameInput<Room>): (o: Outcome<Room, Level>)
    ensures o.after.previousState == m.previousState
    ensures o.fault == HandleGameState(m, levels, index, input.report).fault
    ensures o.fault.None? && input.resetKey ==> o.after.state == GameStarted
    ensures o.fault.None? && !input.resetKey ==> o == HandleGameState(m, levels, index, input.report)
    ensures o.fault.None? ==> o.after.(state := m.state) == HandleGameState(m, levels, index, input.report).after.(state := m.state)
    ensures o.fault.Some? ==> o.after == HandleGameState(m, levels, index, input.report).after && o.after.state == GameStarted
    ensures m.state != GameStarted ==> o.after == m.(state := if input.resetKey then GameStarted else m.state)
  {
    var handled := HandleGameState(m, levels, index, input.report);
    if handled.fault.Some? then handled
    else if input.resetKey then Outcome(handled.after.(state := GameStarted), None)
    else handled
  }

  /**
   * The frames the engine runs, one per input, in order. The previous game
   * state is never written, and every record only grows.
   */
  function Frames<Room, Level>(m: Machine<Room, Level>, levels: seq<Level>, index: int,
                               inputs: seq<FrameInput<Room>>): (r: Machine<Room, Level>)
    ensures r.previousState == m.previousState
    ensures m.log <= r.log && m.placements <= r.placements && m.builds <= r.builds
    decreases |inputs|
  {
    if inputs == [] then m
    else Frames(Update(m, levels, index, inputs[0]).after, levels, index, inputs[1..])
  }

  /** A key-P reset in any frame. */
  predicate AnyReset<Room>(inputs: seq<FrameInput<Room>>) {
    exists k :: 0 <= k < |inputs| && inputs[k].resetKey
  }

  /** The build result has no effect: a failed build only writes a log line. */
  lemma BuildResultIgnored<Room, Level>(m: Machine<Room, Level>, levels: seq<Level>, index: int,
                                        entrance: Option<Room>, resetKey: bool)
    ensures Update(m, levels, index, FrameInput(BuildReport(false, entrance), resetKey))
         == Update(m, levels, index, FrameInput(BuildReport(true, entrance), resetKey))
  {
  }

  /** Without a reset, a state other than GAME_STARTED is never left, and nothing is recorded. */
  lemma {:induction false} OtherStatesAreStable<Room, Level>(m: Machine<Room, Level>, levels: seq<Level>, index: int,
                                                             inputs: seq<FrameInput<Room>>)
    requires m.state != GameStarted
    requires !AnyReset(inputs)
    ensures Frames(m, levels, index, inputs) == m
    decreases |inputs|
  {
    if inputs != [] {
      OtherStatesAreStable(m, levels, index, inputs[1..]);
    }
  }

  /**
   * From GAME_STARTED with a valid level index and a room to enter, the first
   * frame plays the level once and the game stays in PLAYING_LEVEL for every
   * later frame without a reset.
   */
  lemma {:induction false} LevelIsPlayedOnce<Room, Level>(m: Machine<Room, Level>, levels: seq<Level>, index: int,
                                                          inputs: seq<FrameInput<Room>>)
    requires m.state == GameStarted && 0 <= index < |levels|
    requires inputs != [] && !AnyReset(inputs)
    requires m.current.Some? || inputs[0].report.entrance.Some?
    ensures var r := Frames(m, levels, index, inputs);
      var room := if inputs[0].report.entrance.Some? then inputs[0].report.entrance else m.current;
      && r.state == PlayingLevel
      && r.builds == m.builds + [levels[index]]
      && r.log == m.log + [RoomChanged(room)]
      && r.placements == m.placements + [room.value]
      && r.current == room && r.previous == room
  {
    var first := Update(m, levels, index, inputs[0]);
    assert first.fault.None?;
    assert first.after.state == PlayingLevel;
    OtherStatesAreStable(first.after, levels, index, inputs[1..]);
  }

  /** `k` announcements of the same room. */
  function Announcements<Room>(room: Option<Room>, k: nat): (r: seq<Announcement<Room>>)
    ensures |r| == k && forall i :: 0 <= i < k ==> r[i] == RoomChanged(room)
  {
    if k == 0 then [] else Announcements(room, k - 1) + [RoomChanged(room)]
  }

  /** `k` copies of a level definition. */
  function Copies<Level>(level: Level, k: nat): (r: seq<Level>)
    ensures |r| == k && forall i :: 0 <= i < k ==> r[i] == level
  {
    if k == 0 then [] else Copies(level, k - 1) + [level]
  }

  /**
   * With no current room and a builder that never enters one, every frame
   * announces a null room and then throws, so the game stays in GAME_STARTED
   * and rebuilds the level each frame; key P is never reached.
   */
  lemma {:induction false} StuckWithoutRoom<Room, Level>(m: Machine<Room, Level>, levels: seq<Level>, index: int,
                                                         inputs: seq<FrameInput<Room>>)
    requires m.state == GameStarted && 0 <= index < |levels| && m.current.None?
    requires forall k :: 0 <= k < |inputs| ==> inputs[k].report.entrance.None?
    ensures var r := Frames(m, levels, index, inputs);
      && r.state == GameStarted
      && r.current == None && r.previous == (if inputs == [] then m.previous else None)
      && r.log == m.log + Announcements(None, |inputs|)
      && r.builds == m.builds + Copies(levels[index], |inputs|)
      && r.placements == m.placements
    decreases |inputs|
  {
    if inputs != [] {
      var n := |inputs|;
      var front, last := inputs[..n - 1], inputs[n - 1];
      assert inputs == front + [last];
      StuckWithoutRoom(m, levels, index, front);
      FramesSnoc(m, levels, index, front, last);
      StuckFrame(Frames(m, levels, index, front), levels, index, last);
      assert Announcements<Room>(None, n) == Announcements(None, n - 1) + [RoomChanged(None)];
      assert Copies(levels[index], n) == Copies(levels[index], n - 1) + [levels[index]];
    }
  }

  /** One frame with no current room and no entrance: a null room is announced, then the frame throws. */
  lemma StuckFrame<Room, Level>(m: Machine<Room, Level>, levels: seq<Level>, index: int, input: FrameInput<Room>)
    requires m.state == GameStarted && 0 <= index < |levels| && m.current.None?
    requires input.report.entrance.None?
    ensures Update(m, levels, index, input)
         == Outcome(m.(previous := None, log := m.log + [RoomChanged(None)], builds := m.builds + [levels[index]]),
                    Some(NullCurrentRoom))
  {
  }

  /** Running one more frame after a run of frames. */
  lemma {:induction false} FramesSnoc<Room, Level>(m: Machine<Room, Level>, levels: seq<Level>, index: int,
                                                   inputs: seq<FrameInput<Room>>, last: FrameInput<Room>)
    ensures Frames(m, levels, index, inputs + [last])
         == Update(Frames(m, levels, index, inputs), levels, index, last).after
    decreases |inputs|
  {
    if inputs == [] {
      assert [] + [last] == [last];
    } else {
      assert (inputs + [last])[1..] == inputs[1..] + [last];
      FramesSnoc(Update(m, levels, index, inputs[0]).after, levels, index, inputs[1..], last);
    }
  }

  /** With the level index out of range, GAME_STARTED throws every frame and nothing changes. */
  lemma {:induction false} BadIndexFreezes<Room, Level>(m: Machine<Room, Level>, levels: seq<Level>, index: int,
                                                        inputs: seq<FrameInput<Room>>)
    requires m.state == GameStarted && !(0 <= index < |levels|)
    ensures Frames(m, levels, index, inputs) == m
    decreases |inputs|
  {
    if inputs != [] {
      BadIndexFreezes(m, levels, index, inputs[1..]);
    }
  }

  /**
   * A successful frame with key P leaves GAME_STARTED behind, so the next frame
   * hands the level to the builder again and announces the room again.
   */
  lemma ResetReplaysLevel<Room, Level>(m: Machine<Room, Level>, levels: seq<Level>, index: int,
                                       first: FrameInput<Room>, next: FrameInput<Room>)
    requires 0 <= index < |levels|
    requires first.resetKey && Update(m, levels, index, first).fault.None?
    ensures var a := Update(m, levels, index, first).after;
      var b := Update(a, levels, index, next).after;
      var room := if next.report.entrance.Some? then next.report.entrance else a.current;
      && a.state == GameStarted
      && b.builds == a.builds + [levels[index]]
      && b.log == a.log + [RoomChanged(room)]
  {
  }
}
