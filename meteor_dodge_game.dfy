/**
 * The command handling of the game object (game/meteor_dodge_game.py): every
 * EOG command moves or stops the character, is logged with the evaluator and
 * is kept in a ten-entry history, and the last two history entries decide the
 * "double move" speed rules (two equal moves speed up, two opposite moves
 * slow down).
 *
 * The pygame window, the frame loop (`update`, `draw`, `handle_events`) and
 * the clock are not modelled: the clock reading is a parameter of every
 * operation that reads it.
 */
module MeteorDodgeGame {
  import opened Wrappers
  import opened BoundedDeque
  import Character
  import GameEvaluator
  import Meteor

  const ScreenWidth: real := 1200.0
  /** `command_history` keeps the ten most recent commands. */
  const HistoryCapacity: nat := 10

  /** One `command_history` entry: the raw command, its clock reading and the character's x then. */
  datatype HistoryEntry = HistoryEntry(command: string, timestamp: real, characterPos: real)

  /** The outcome of `check_advanced_commands`. */
  datatype Adjustment = SpeedUp | SlowDown | NoChange

  predicate IsMove(command: string)
  {
    command == "left" || command == "right"
  }

  /** The command logged with the evaluator: a move as itself, anything else as idle. */
  function RecordedCommand(command: string): (r: string)
    ensures r in GameEvaluator.Classes
    ensures r == command <==> command in GameEvaluator.Classes
    ensures IsMove(command) <==> IsMove(r)
  {
    if command == "left" then "left"
    else if command == "right" then "right"
    else "idle"
  }

  /** The velocity after the basic move: a step left, a step right, or a stop for anything else. */
  function BasicMove(command: string, velocity: real): (v: real)
    ensures -Character.MaxSpeed <= velocity <= Character.MaxSpeed ==> -Character.MaxSpeed <= v <= Character.MaxSpeed
    ensures !IsMove(command) ==> v == 0.0
  {
    if command == "left" then Character.AfterMoveLeft(velocity)
    else if command == "right" then Character.AfterMoveRight(velocity)
    else 0.0
  }

  /** The direction the basic move leaves: -1, 1, or 0 after a stop. */
  function DirectionOf(command: string): (d: int)
    ensures -1 <= d <= 1
    ensures d == 0 <==> !IsMove(command)
  {
    if command == "left" then -1 else if command == "right" then 1 else 0
  }

  /** The rule `check_advanced_commands` applies to the last two raw commands. */
  function PairAdjustment(previous: string, current: string): (a: Adjustment)
    ensures a != NoChange ==> IsMove(previous) && IsMove(current)
    ensures a == SpeedUp ==> previous == current
    ensures a == SlowDown ==> previous != current
  {
    if previous == current && (previous == "left" || previous == "right") then SpeedUp
    else if [previous, current] == ["left", "right"] || [previous, current] == ["right", "left"] then SlowDown
    else NoChange
  }

  /** `check_advanced_commands` on a history: nothing with fewer than two entries. */
  function AdvancedAdjustment(history: seq<HistoryEntry>): (a: Adjustment)
    ensures |history| < 2 ==> a == NoChange
    ensures a != NoChange ==> IsMove(history[|history| - 1].command) && IsMove(history[|history| - 2].command)
  {
    if |history| >= 2 then PairAdjustment(history[|history| - 2].command, history[|history| - 1].command)
    else NoChange
  }

  /** `increase_speed`, `decrease_speed` or nothing. */
  function Adjusted(a: Adjustment, velocity: real): real
  {
    match a
    case SpeedUp => Character.Faster(velocity)
    case SlowDown => Character.Slower(velocity)
    case NoChange => velocity
  }

  /** The velocity after one `process_eog_command` whose history entry is `entry`. */
  function NextVelocity(history: seq<HistoryEntry>, entry: HistoryEntry, velocity: real): (v: real)
    requires |history| <= HistoryCapacity
    ensures -Character.MaxSpeed <= velocity <= Character.MaxSpeed ==> -Character.MaxSpeed <= v <= Character.MaxSpeed
  {
    var next := Push(history, HistoryCapacity, entry);
    Adjusted(AdvancedAdjustment(next), BasicMove(entry.command, velocity))
  }

  /**
   * Appending to the history and reading its last two entries only looks at
   * the previous last command and the new one: the eviction of the oldest
   * entry never matters.
   */
  lemma AdjustmentOfPush(history: seq<HistoryEntry>, entry: HistoryEntry)
    requires |history| <= HistoryCapacity
    ensures history == [] ==> AdvancedAdjustment(Push(history, HistoryCapacity, entry)) == NoChange
    ensures history != [] ==>
      AdvancedAdjustment(Push(history, HistoryCapacity, entry)) == PairAdjustment(history[|history| - 1].command, entry.command)
  {
    var next := Push(history, HistoryCapacity, entry);
    if history != [] {
      if |history| < HistoryCapacity {
        assert next == history + [entry];
      } else {
        assert next == history[1..] + [entry];
      }
      assert next[|next| - 2] == history[|history| - 1];
    }
  }

  /** Any command other than a move stops the character, whatever the history says. */
  lemma NonMoveStops(history: seq<HistoryEntry>, entry: HistoryEntry, velocity: real)
    requires |history| <= HistoryCapacity && !IsMove(entry.command)
    ensures NextVelocity(history, entry, velocity) == 0.0
  {
    var next := Push(history, HistoryCapacity, entry);
    assert next[|next| - 1] == entry;
  }

  /** The first command of a fresh history never triggers a speed rule. */
  lemma FirstCommandIsBasic(entry: HistoryEntry, velocity: real)
    ensures NextVelocity([], entry, velocity) == BasicMove(entry.command, velocity)
  {
    AdjustmentOfPush([], entry);
  }

  /** In exact arithmetic, from standing still with an empty history, left then left reaches -0.3: two steps and a boost. */
  lemma DoubleLeftFromRest(first: HistoryEntry, second: HistoryEntry)
    requires first.command == "left" && second.command == "left"
    ensures NextVelocity([], first, 0.0) == -0.1
    ensures NextVelocity([first], second, -0.1) == -0.3
  {
    AdjustmentOfPush([], first);
    AdjustmentOfPush([first], second);
  }

  /** In exact arithmetic, right, right, left from rest: 0.1, then 0.3 after the boost, then 0.1 after the opposite-move slow-down. */
  lemma RightRightLeft(first: HistoryEntry, second: HistoryEntry, third: HistoryEntry)
    requires first.command == "right" && second.command == "right" && third.command == "left"
    ensures NextVelocity([], first, 0.0) == 0.1
    ensures NextVelocity([first], second, 0.1) == 0.3
    ensures NextVelocity([first, second], third, 0.3) == 0.1
  {
    AdjustmentOfPush([], first);
    AdjustmentOfPush([first], second);
    AdjustmentOfPush([first, second], third);
  }

  /**
   * The boost keeps the sign of the velocity, not the direction of the
   * moves (values in exact arithmetic): two lefts while still moving right at 0.5 leave 0.4, to the right.
   */
  lemma DoubleLeftKeepsRightwardSign(previous: HistoryEntry, entry: HistoryEntry)
    requires previous.command == "left" && entry.command == "left"
    ensures NextVelocity([], previous, 0.5) == 0.4
    ensures NextVelocity([previous], entry, 0.4) == 0.4
  {
    AdjustmentOfPush([], previous);
    AdjustmentOfPush([previous], entry);
  }

  /** All four confusion-matrix counters of the evaluator are empty. */
  ghost predicate EmptyCounters(evaluator: GameEvaluator.GameEvaluator)
    reads evaluator
  {
    && evaluator.truePositives == map[] && evaluator.falseNegatives == map[]
    && evaluator.falsePositives == map[] && evaluator.trueNegatives == map[]
  }

  /**
   * The evaluator's four counters are the given old ones with the pair
   * `(recorded, recorded)` counted in every class, as `record_command` without an intention does.
   */
  ghost predicate CountsRecorded(evaluator: GameEvaluator.GameEvaluator, tp: map<string, nat>, fn: map<string, nat>,
                                 fp: map<string, nat>, tn: map<string, nat>, recorded: string)
    reads evaluator
  {
    && GameEvaluator.CountsOnePair(tp, evaluator.truePositives, GameEvaluator.TruePositive, recorded, recorded)
    && GameEvaluator.CountsOnePair(fn, evaluator.falseNegatives, GameEvaluator.FalseNegative, recorded, recorded)
    && GameEvaluator.CountsOnePair(fp, evaluator.falsePositives, GameEvaluator.FalsePositive, recorded, recorded)
    && GameEvaluator.CountsOnePair(tn, evaluator.trueNegatives, GameEvaluator.TrueNegative, recorded, recorded)
  }

  class MeteorDodgeGame {
    var character: Character.Character
    var evaluator: GameEvaluator.GameEvaluator
    var meteors: seq<Meteor.Meteor>
    var meteorSpawner: Meteor.MeteorSpawner
    var gameActive: bool
    var lastCommand: string
    var commandHistory: seq<HistoryEntry>
    var commandTimestamp: real

    ghost predicate Valid()
      reads this, character, evaluator, meteorSpawner
    {
      && character.Valid()
      && evaluator.Valid()
      && meteorSpawner.Valid()
      && |commandHistory| <= HistoryCapacity
    }

    /** `__init__` at clock reading `now`, with the spawner's five initial delays drawn by the caller. */
    constructor (now: real, delays: seq<real>)
      requires |delays| == Meteor.SpawnPointCount && Meteor.AllIn(delays, Meteor.InitialDelayMin, Meteor.InitialDelayMax)
      ensures Valid()
      ensures fresh(character) && fresh(evaluator) && fresh(meteorSpawner)
      ensures character.x == Character.StartX && character.y == Character.StartY && character.velocity == 0.0
      ensures character.direction == 0 && character.animationFrame == 0.0
      ensures meteors == [] && meteorSpawner.screenWidth == ScreenWidth
      ensures meteorSpawner.spawnTimers == [0.0, 0.0, 0.0, 0.0, 0.0] && meteorSpawner.spawnDelays == delays
      ensures meteorSpawner.lastSpawnTime == 0.0 && meteorSpawner.difficulty == 1.0
      ensures !gameActive && lastCommand == "idle" && commandHistory == [] && commandTimestamp == now
      ensures evaluator.commandEvents == [] && evaluator.collisionEvents == [] && EmptyCounters(evaluator)
      ensures evaluator.score == 0 && evaluator.meteorsAvoided == 0 && evaluator.totalMeteors == 0
      ensures evaluator.sessionStartTime == now && evaluator.gameDuration == 0.0
    {
      character := new Character.Character();
      meteors := [];
      meteorSpawner := new Meteor.MeteorSpawner(ScreenWidth, delays);
      evaluator := new GameEvaluator.GameEvaluator(now);
      gameActive := false;
      lastCommand := "idle";
      commandHistory := [];
      commandTimestamp := now;
    }

    /**
     * `process_eog_command` at clock reading `now`: the command joins the
     * history (the oldest of eleven is dropped), the character makes the
     * basic move, the evaluator logs the move, the speed rules run on the new
     * history, and the raw command and the time are remembered.
     */
    method ProcessEogCommand(command: string, now: real)
      requires Valid()
      modifies this, character, evaluator
      ensures Valid()
      ensures character == old(character) && evaluator == old(evaluator)
      ensures meteors == old(meteors) && meteorSpawner == old(meteorSpawner) && gameActive == old(gameActive)
      ensures var entry := HistoryEntry(command, now, old(character.x));
        && commandHistory == Push(old(commandHistory), HistoryCapacity, entry)
        && character.velocity == NextVelocity(old(commandHistory), entry, old(character.velocity))
      ensures character.direction == DirectionOf(command)
      ensures character.x == old(character.x) && character.y == old(character.y)
      ensures character.animationFrame == old(character.animationFrame)
      ensures var recorded := RecordedCommand(command);
        && evaluator.commandEvents ==
             old(evaluator.commandEvents) + [GameEvaluator.CommandEvent(now, recorded, recorded, old(character.x), true)]
        && CountsRecorded(evaluator, old(evaluator.truePositives), old(evaluator.falseNegatives),
                          old(evaluator.falsePositives), old(evaluator.trueNegatives), recorded)
      ensures evaluator.score == old(evaluator.score) && evaluator.totalMeteors == old(evaluator.totalMeteors)
      ensures evaluator.meteorsAvoided == old(evaluator.meteorsAvoided)
      ensures evaluator.collisionEvents == old(evaluator.collisionEvents)
      ensures evaluator.sessionStartTime == old(evaluator.sessionStartTime)
      ensures evaluator.gameDuration == old(evaluator.gameDuration)
      ensures lastCommand == command && commandTimestamp == now
    {
      RememberCommand(HistoryEntry(command, now, character.x));
      MoveAndRecord(command, now);
      CheckAdvancedCommands();
      lastCommand := command;
      commandTimestamp := now;
    }

    /** Appending to `command_history` and dropping its oldest entry past ten. */
    method RememberCommand(entry: HistoryEntry)
      requires |commandHistory| <= HistoryCapacity
      modifies this`commandHistory
      ensures commandHistory == Push(old(commandHistory), HistoryCapacity, entry)
    {
      commandHistory := commandHistory + [entry];
      if |commandHistory| > HistoryCapacity {
        commandHistory := commandHistory[1..];
      }
    }

    /** The basic move of `process_eog_command` and its entry in the evaluator's log. */
    method MoveAndRecord(command: string, now: real)
      requires character.Valid() && evaluator.Valid()
      modifies character, evaluator
      ensures character.Valid() && evaluator.Valid()
      ensures character.velocity == BasicMove(command, old(character.velocity))
      ensures character.direction == DirectionOf(command)
      ensures character.x == old(character.x) && character.y == old(character.y)
      ensures character.animationFrame == old(character.animationFrame)
      ensures var recorded := RecordedCommand(command);
        && evaluator.commandEvents ==
             old(evaluator.commandEvents) + [GameEvaluator.CommandEvent(now, recorded, recorded, old(character.x), true)]
        && CountsRecorded(evaluator, old(evaluator.truePositives), old(evaluator.falseNegatives),
                          old(evaluator.falsePositives), old(evaluator.trueNegatives), recorded)
      ensures evaluator.score == old(evaluator.score) && evaluator.totalMeteors == old(evaluator.totalMeteors)
      ensures evaluator.meteorsAvoided == old(evaluator.meteorsAvoided)
      ensures evaluator.collisionEvents == old(evaluator.collisionEvents)
      ensures evaluator.sessionStartTime == old(evaluator.sessionStartTime)
      ensures evaluator.gameDuration == old(evaluator.gameDuration)
    {
      if command == "left" {
        character.MoveLeft();
        evaluator.RecordCommand("left", character.x, None, now);
      } else if command == "right" {
        character.MoveRight();
        evaluator.RecordCommand("right", character.x, None, now);
      } else {
        character.Stop();
        evaluator.RecordCommand("idle", character.x, None, now);
      }
    }

    /** `check_advanced_commands`: the speed rule the last two history entries select. */
    method CheckAdvancedCommands()
      requires Valid()
      modifies character
      ensures Valid()
      ensures character.velocity == Adjusted(AdvancedAdjustment(commandHistory), old(character.velocity))
      ensures character.x == old(character.x) && character.y == old(character.y)
      ensures character.direction == old(character.direction)
      ensures character.animationFrame == old(character.animationFrame)
    {
      if |commandHistory| >= 2 {
        var first := commandHistory[|commandHistory| - 2].command;
        var second := commandHistory[|commandHistory| - 1].command;
        if first == second && (first == "left" || first == "right") {
          character.IncreaseSpeed();
        } else if [first, second] == ["left", "right"] || [first, second] == ["right", "left"] {
          character.DecreaseSpeed();
        }
      }
    }

    /**
     * `reset_game` at clock reading `now`, with the spawner's five fresh
     * delays drawn by the caller: the character is back in the centre, the
     * meteors, the spawner, the evaluator and the history start over.
     */
    method ResetGame(now: real, delays: seq<real>)
      requires Valid()
      requires |delays| == Meteor.SpawnPointCount && Meteor.AllIn(delays, Meteor.InitialDelayMin, Meteor.InitialDelayMax)
      modifies this, character, evaluator, meteorSpawner
      ensures Valid()
      ensures character == old(character) && evaluator == old(evaluator) && meteorSpawner == old(meteorSpawner)
      ensures character.x == Character.StartX && character.velocity == 0.0 && character.direction == 0
      ensures character.animationFrame == 0.0 && character.y == old(character.y)
      ensures meteors == [] && commandHistory == []
      ensures meteorSpawner.screenWidth == old(meteorSpawner.screenWidth)
      ensures meteorSpawner.spawnPoints == old(meteorSpawner.spawnPoints)
      ensures meteorSpawner.spawnTimers == [0.0, 0.0, 0.0, 0.0, 0.0] && meteorSpawner.spawnDelays == delays
      ensures meteorSpawner.lastSpawnTime == 0.0 && meteorSpawner.difficulty == 1.0
      ensures evaluator.commandEvents == [] && evaluator.collisionEvents == [] && EmptyCounters(evaluator)
      ensures evaluator.score == 0 && evaluator.totalMeteors == 0 && evaluator.meteorsAvoided == 0
      ensures evaluator.sessionStartTime == now && evaluator.gameDuration == 0.0
      ensures lastCommand == old(lastCommand) && commandTimestamp == old(commandTimestamp) && gameActive == old(gameActive)
    {
      character.Reset();
      meteors := [];
      meteorSpawner.Reset(delays);
      evaluator.Reset(now);
      commandHistory := [];
    }
  }
}
