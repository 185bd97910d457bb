/**
 * The game's performance bookkeeping (game/game_evaluator.py): a log of
 * executed commands and of collisions, one confusion matrix per class
 * (left, right, idle), a score that never drops below zero, and the
 * percentages computed from them.
 *
 * Python's `defaultdict(int)` counters are maps read with a default of 0;
 * the clock is a parameter; the percentages are exact reals.
 */
module GameEvaluator {
  import opened Wrappers

  /** The three classes the confusion matrices are kept for, in loop order. */
  const Classes: seq<string> := ["left", "right", "idle"]

  /** A collision this close to the character counts as avoidable. */
  const AvoidableDistance: real := 100.0
  const CollisionPenalty: int := 10
  const AvoidedBonus: int := 5

  datatype CommandEvent = CommandEvent(
    timestamp: real, intendedCommand: string, actualCommand: string,
    characterPosition: real, success: bool)

  datatype CollisionEvent = CollisionEvent(timestamp: real, meteorX: real, characterX: real, avoidable: bool)

  datatype Cell = TruePositive | FalseNegative | FalsePositive | TrueNegative

  /** The three averaged percentages of `get_metrics`. */
  datatype Metrics = Metrics(precision: real, sensitivity: real, specificity: real)

  // ---------------------------------------------------------------------
  // Confusion-matrix arithmetic
  // ---------------------------------------------------------------------

  /** The cell of `className`'s matrix an (intended, actual) pair falls in. */
  function CellOf(className: string, intended: string, actual: string): (cell: Cell)
    ensures cell == TruePositive <==> intended == className && actual == className
    ensures cell == FalseNegative <==> intended == className && actual != className
    ensures cell == FalsePositive <==> intended != className && actual == className
    ensures cell == TrueNegative <==> intended != className && actual != className
  {
    if intended == className && actual == className then TruePositive
    else if intended == className && actual != className then FalseNegative
    else if intended != className && actual == className then FalsePositive
    else TrueNegative
  }

  /** How many logged commands fall in `cell` of `className`'s matrix. */
  function Tally(events: seq<CommandEvent>, className: string, cell: Cell): (n: nat)
    ensures n <= |events|
  {
    if |events| == 0 then 0
    else
      var e := events[|events| - 1];
      Tally(events[..|events| - 1], className, cell)
        + (if CellOf(className, e.intendedCommand, e.actualCommand) == cell then 1 else 0)
  }

  lemma TallyAppend(events: seq<CommandEvent>, e: CommandEvent, className: string, cell: Cell)
    ensures Tally(events + [e], className, cell) ==
      Tally(events, className, cell) + (if CellOf(className, e.intendedCommand, e.actualCommand) == cell then 1 else 0)
  {
    assert (events + [e])[..|events|] == events;
  }

  /** Every logged command lands in exactly one cell of each matrix. */
  lemma {:induction false} TallyPartition(events: seq<CommandEvent>, className: string)
    ensures Tally(events, className, TruePositive) + Tally(events, className, FalseNegative)
      + Tally(events, className, FalsePositive) + Tally(events, className, TrueNegative) == |events|
  {
    if |events| > 0 {
      TallyPartition(events[..|events| - 1], className);
    }
  }

  /** A `defaultdict(int)` lookup. */
  function Count(counter: map<string, nat>, key: string): nat
  {
    if key in counter then counter[key] else 0
  }

  /** The counter holds, for each class, the number of logged commands in `cell`, and no other key. */
  ghost predicate MatchesLog(counter: map<string, nat>, cell: Cell, events: seq<CommandEvent>)
  {
    && (forall k :: k in counter ==> k in Classes)
    && (forall k {:trigger Count(counter, k)} :: k in Classes ==> Count(counter, k) == Tally(events, k, cell))
  }

  /** The counter after one (intended, actual) pair: each class's `cell` count grows when the pair falls in it. */
  ghost predicate CountsOnePair(before: map<string, nat>, after: map<string, nat>, cell: Cell, intended: string, actual: string)
  {
    && (forall k :: k in after ==> k in before || k in Classes)
    && (forall k {:trigger Count(after, k)} :: Count(after, k) == Count(before, k) + (if k in Classes && CellOf(k, intended, actual) == cell then 1 else 0))
  }

  /** Empty counters match the empty log. */
  lemma EmptyMatchesLog(cell: Cell)
    ensures MatchesLog(map[], cell, [])
  {
    forall k | k in Classes
      ensures Count(map[], k) == Tally([], k, cell)
    {
    }
  }

  lemma CountsOnePairKeepsLog(before: map<string, nat>, after: map<string, nat>, cell: Cell,
                              events: seq<CommandEvent>, e: CommandEvent)
    requires MatchesLog(before, cell, events)
    requires CountsOnePair(before, after, cell, e.intendedCommand, e.actualCommand)
    ensures MatchesLog(after, cell, events + [e])
  {
    forall k | k in Classes
      ensures Count(after, k) == Tally(events + [e], k, cell)
    {
      TallyAppend(events, e, k, cell);
    }
  }

  /**
   * For every class the four counters add up to the number of recorded
   * commands: each `record_command` increments exactly one of them.
   */
  lemma CountersCoverEveryCommand(tp: map<string, nat>, fn: map<string, nat>, fp: map<string, nat>,
                                  tn: map<string, nat>, events: seq<CommandEvent>, className: string)
    requires MatchesLog(tp, TruePositive, events) && MatchesLog(fn, FalseNegative, events)
    requires MatchesLog(fp, FalsePositive, events) && MatchesLog(tn, TrueNegative, events)
    requires className in Classes
    ensures Count(tp, className) + Count(fn, className) + Count(fp, className) + Count(tn, className) == |events|
  {
    TallyPartition(events, className);
  }

  /** `intended or command`: an omitted or empty intention means the executed command. */
  function IntendedCommand(command: string, intended: Option<string>): (r: string)
    ensures intended.None? || intended.value == "" ==> r == command
    ensures intended.Some? && intended.value != "" ==> r == intended.value
  {
    if intended.Some? && intended.value != "" then intended.value else command
  }

  /** Without an intention every command is a success, so only true positives and negatives grow. */
  lemma OmittedIntentionOnlyTrue(command: string, className: string)
    ensures var cell := CellOf(className, IntendedCommand(command, None), command);
      cell == TruePositive || cell == TrueNegative
  {
  }

  // ---------------------------------------------------------------------
  // Percentages
  // ---------------------------------------------------------------------

  /** `part / whole * 100`, or 0 when `whole` is 0. */
  function Percentage(part: nat, whole: nat): (r: real)
    ensures whole == 0 ==> r == 0.0
    ensures whole > 0 ==> r * (whole as real) == 100.0 * (part as real)
    ensures part <= whole ==> 0.0 <= r <= 100.0
  {
    if whole == 0 then 0.0
    else
      var ratio := (part as real) / (whole as real);
      assert ratio * (whole as real) == part as real;
      assert part <= whole ==> ratio <= 1.0;
      ratio * 100.0
  }

  /** How many logged commands were successes. */
  function SuccessCount(events: seq<CommandEvent>): (n: nat)
    ensures n <= |events|
  {
    if |events| == 0 then 0
    else SuccessCount(events[..|events| - 1]) + (if events[|events| - 1].success then 1 else 0)
  }

  /**
   * Precision, sensitivity and specificity of one class, as the counters
   * give them: TP/(TP+FP), TP/(TP+FN), TN/(TN+FP), each times 100.
   */
  function Precision(tp: map<string, nat>, fp: map<string, nat>, className: string): (r: real)
    ensures Count(tp, className) + Count(fp, className) == 0 ==> r == 0.0
    ensures 0.0 <= r <= 100.0
  {
    Percentage(Count(tp, className), Count(tp, className) + Count(fp, className))
  }

  function Sensitivity(tp: map<string, nat>, fn: map<string, nat>, className: string): (r: real)
    ensures Count(tp, className) + Count(fn, className) == 0 ==> r == 0.0
    ensures 0.0 <= r <= 100.0
  {
    Percentage(Count(tp, className), Count(tp, className) + Count(fn, className))
  }

  function Specificity(tn: map<string, nat>, fp: map<string, nat>, className: string): (r: real)
    ensures Count(tn, className) + Count(fp, className) == 0 ==> r == 0.0
    ensures 0.0 <= r <= 100.0
  {
    Percentage(Count(tn, className), Count(tn, className) + Count(fp, className))
  }

  /** A class predicted every time it was meant and never otherwise scores 100 on all three. */
  lemma PerfectClassScoresFull(tp: map<string, nat>, fn: map<string, nat>, fp: map<string, nat>,
                               tn: map<string, nat>, className: string)
    requires Count(tp, className) > 0 && Count(tn, className) > 0
    requires Count(fn, className) == 0 && Count(fp, className) == 0
    ensures Precision(tp, fp, className) == 100.0
    ensures Sensitivity(tp, fn, className) == 100.0
    ensures Specificity(tn, fp, className) == 100.0
  {
    WholePercentage(Count(tp, className));
    WholePercentage(Count(tn, className));
  }

  /** A part equal to a non-empty whole is 100 percent. */
  lemma WholePercentage(n: nat)
    requires n > 0
    ensures Percentage(n, n) == 100.0
  {
  }

  // ---------------------------------------------------------------------
  // The evaluator object
  // ---------------------------------------------------------------------

  class GameEvaluator {
    var commandEvents: seq<CommandEvent>
    var collisionEvents: seq<CollisionEvent>
    var truePositives: map<string, nat>
    var trueNegatives: map<string, nat>
    var falsePositives: map<string, nat>
    var falseNegatives: map<string, nat>
    var score: int
    var meteorsAvoided: nat
    var totalMeteors: nat
    var sessionStartTime: real
    var gameDuration: real

    /** The counters agree with the command log, the score is not negative, avoided meteors are among all meteors. */
    ghost predicate Valid()
      reads this
    {
      && MatchesLog(truePositives, TruePositive, commandEvents)
      && MatchesLog(falseNegatives, FalseNegative, commandEvents)
      && MatchesLog(falsePositives, FalsePositive, commandEvents)
      && MatchesLog(trueNegatives, TrueNegative, commandEvents)
      && score >= 0
      && meteorsAvoided <= totalMeteors
    }

    constructor (now: real)
      ensures Valid()
      ensures commandEvents == [] && collisionEvents == []
      ensures truePositives == map[] && trueNegatives == map[] && falsePositives == map[] && falseNegatives == map[]
      ensures score == 0 && meteorsAvoided == 0 && totalMeteors == 0
      ensures sessionStartTime == now && gameDuration == 0.0
    {
      commandEvents := [];
      collisionEvents := [];
      truePositives := map[];
      trueNegatives := map[];
      falsePositives := map[];
      falseNegatives := map[];
      score := 0;
      meteorsAvoided := 0;
      totalMeteors := 0;
      sessionStartTime := now;
      gameDuration := 0.0;
      EmptyMatchesLog(TruePositive);
      EmptyMatchesLog(FalseNegative);
      EmptyMatchesLog(FalsePositive);
      EmptyMatchesLog(TrueNegative);
    }

    /**
     * `record_command`: logs the command with its intention and success and
     * counts the pair in every class's confusion matrix.
     */
    method RecordCommand(command: string, characterPos: real, intended: Option<string>, now: real)
      requires Valid()
      modifies this
      ensures Valid()
      ensures var intendedCmd := IntendedCommand(command, intended);
        && commandEvents == old(commandEvents) + [CommandEvent(now, intendedCmd, command, characterPos, intendedCmd == command)]
        && CountsOnePair(old(truePositives), truePositives, TruePositive, intendedCmd, command)
        && CountsOnePair(old(falseNegatives), falseNegatives, FalseNegative, intendedCmd, command)
        && CountsOnePair(old(falsePositives), falsePositives, FalsePositive, intendedCmd, command)
        && CountsOnePair(old(trueNegatives), trueNegatives, TrueNegative, intendedCmd, command)
      ensures collisionEvents == old(collisionEvents) && score == old(score)
      ensures meteorsAvoided == old(meteorsAvoided) && totalMeteors == old(totalMeteors)
      ensures sessionStartTime == old(sessionStartTime) && gameDuration == old(gameDuration)
    {
      var intendedCmd := IntendedCommand(command, intended);
      var success := intendedCmd == command;
      var event := CommandEvent(now, intendedCmd, command, characterPos, success);
      ghost var events := commandEvents;
      commandEvents := commandEvents + [event];
      UpdateClassificationMetrics(intendedCmd, command);
      CountsOnePairKeepsLog(old(truePositives), truePositives, TruePositive, events, event);
      CountsOnePairKeepsLog(old(falseNegatives), falseNegatives, FalseNegative, events, event);
      CountsOnePairKeepsLog(old(falsePositives), falsePositives, FalsePositive, events, event);
      CountsOnePairKeepsLog(old(trueNegatives), trueNegatives, TrueNegative, events, event);
    }

    /** `_update_classification_metrics`: one counter per class grows, chosen by the pair's cell. */
    method UpdateClassificationMetrics(intended: string, actual: string)
      modifies this`truePositives, this`falseNegatives, this`falsePositives, this`trueNegatives
      ensures CountsOnePair(old(truePositives), truePositives, TruePositive, intended, actual)
      ensures CountsOnePair(old(falseNegatives), falseNegatives, FalseNegative, intended, actual)
      ensures CountsOnePair(old(falsePositives), falsePositives, FalsePositive, intended, actual)
      ensures CountsOnePair(old(trueNegatives), trueNegatives, TrueNegative, intended, actual)
    {
      for i := 0 to |Classes|
        invariant PartlyCounted(old(truePositives), truePositives, TruePositive, intended, actual, i)
        invariant PartlyCounted(old(falseNegatives), falseNegatives, FalseNegative, intended, actual, i)
        invariant PartlyCounted(old(falsePositives), falsePositives, FalsePositive, intended, actual, i)
        invariant PartlyCounted(old(trueNegatives), trueNegatives, TrueNegative, intended, actual, i)
      {
        PartlyCountedStep(old(truePositives), truePositives, TruePositive, intended, actual, i);
        PartlyCountedStep(old(falseNegatives), falseNegatives, FalseNegative, intended, actual, i);
        PartlyCountedStep(old(falsePositives), falsePositives, FalsePositive, intended, actual, i);
        PartlyCountedStep(old(trueNegatives), trueNegatives, TrueNegative, intended, actual, i);
        CountPair(Classes[i], intended, actual);
      }
      FullyCounted(old(truePositives), truePositives, TruePositive, intended, actual);
      FullyCounted(old(falseNegatives), falseNegatives, FalseNegative, intended, actual);
      FullyCounted(old(falsePositives), falsePositives, FalsePositive, intended, actual);
      FullyCounted(old(trueNegatives), trueNegatives, TrueNegative, intended, actual);
    }

    /** The body of the loop over the classes: the pair's cell of `className`'s matrix grows by one. */
    method CountPair(className: string, intended: string, actual: string)
      modifies this`truePositives, this`falseNegatives, this`falsePositives, this`trueNegatives
      ensures truePositives == CountClass(old(truePositives), TruePositive, intended, actual, className)
      ensures falseNegatives == CountClass(old(falseNegatives), FalseNegative, intended, actual, className)
      ensures falsePositives == CountClass(old(falsePositives), FalsePositive, intended, actual, className)
      ensures trueNegatives == CountClass(old(trueNegatives), TrueNegative, intended, actual, className)
    {
      if intended == className && actual == className {
        truePositives := truePositives[className := Count(truePositives, className) + 1];
      } else if intended == className && actual != className {
        falseNegatives := falseNegatives[className := Count(falseNegatives, className) + 1];
      } else if intended != className && actual == className {
        falsePositives := falsePositives[className := Count(falsePositives, className) + 1];
      } else if intended != className && actual != className {
        trueNegatives := trueNegatives[className := Count(trueNegatives, className) + 1];
      }
    }

    /**
     * `record_collision`: logs the collision, counts the meteor and, when it
     * was within 100 of the character, takes 10 off the score, stopping at 0.
     */
    method RecordCollision(meteorX: real, characterX: real, now: real)
      requires Valid()
      modifies this
      ensures Valid()
      ensures var avoidable := Distance(meteorX, characterX) < AvoidableDistance;
        && collisionEvents == old(collisionEvents) + [CollisionEvent(now, meteorX, characterX, avoidable)]
        && score == (if avoidable then Floored(old(score) - CollisionPenalty) else old(score))
      ensures totalMeteors == old(totalMeteors) + 1 && meteorsAvoided == old(meteorsAvoided)
      ensures commandEvents == old(commandEvents)
      ensures truePositives == old(truePositives) && falseNegatives == old(falseNegatives)
      ensures falsePositives == old(falsePositives) && trueNegatives == old(trueNegatives)
      ensures sessionStartTime == old(sessionStartTime) && gameDuration == old(gameDuration)
    {
      var distance := Distance(meteorX, characterX);
      var avoidable := distance < AvoidableDistance;
      collisionEvents := collisionEvents + [CollisionEvent(now, meteorX, characterX, avoidable)];
      totalMeteors := totalMeteors + 1;
      if avoidable {
        score := if 0 >= score - CollisionPenalty then 0 else score - CollisionPenalty;
      }
    }

    /** `record_meteor_avoided`: one more meteor, one more avoided, five more points. */
    method RecordMeteorAvoided()
      requires Valid()
      modifies this
      ensures Valid()
      ensures meteorsAvoided == old(meteorsAvoided) + 1 && totalMeteors == old(totalMeteors) + 1
      ensures score == old(score) + AvoidedBonus
      ensures commandEvents == old(commandEvents) && collisionEvents == old(collisionEvents)
      ensures truePositives == old(truePositives) && falseNegatives == old(falseNegatives)
      ensures falsePositives == old(falsePositives) && trueNegatives == old(trueNegatives)
      ensures sessionStartTime == old(sessionStartTime) && gameDuration == old(gameDuration)
    {
      meteorsAvoided := meteorsAvoided + 1;
      totalMeteors := totalMeteors + 1;
      score := score + AvoidedBonus;
    }

    /** `get_metrics`: nothing before the first command, then the three percentages averaged over the classes. */
    function GetMetrics(): (m: Option<Metrics>)
      reads this
      ensures m.None? <==> commandEvents == []
      ensures m.Some? ==>
        (0.0 <= m.value.precision <= 100.0 && 0.0 <= m.value.sensitivity <= 100.0 &&
         0.0 <= m.value.specificity <= 100.0)
    {
      if |commandEvents| == 0 then None
      else
        var precision := Precision(truePositives, falsePositives, "left")
          + Precision(truePositives, falsePositives, "right") + Precision(truePositives, falsePositives, "idle");
        var sensitivity := Sensitivity(truePositives, falseNegatives, "left")
          + Sensitivity(truePositives, falseNegatives, "right") + Sensitivity(truePositives, falseNegatives, "idle");
        var specificity := Specificity(trueNegatives, falsePositives, "left")
          + Specificity(trueNegatives, falsePositives, "right") + Specificity(trueNegatives, falsePositives, "idle");
        Some(Metrics(precision / 3.0, sensitivity / 3.0, specificity / 3.0))
    }

    /** `get_score`: never negative. */
    function GetScore(): (s: int)
      reads this
      requires Valid()
      ensures s >= 0
    {
      score
    }

    /** `get_avoidance_rate`: 100 before any meteor, then the avoided share. */
    function AvoidanceRate(): (r: real)
      reads this
      requires Valid()
      ensures totalMeteors == 0 ==> r == 100.0
      ensures 0.0 <= r <= 100.0
      ensures totalMeteors > 0 ==> r * (totalMeteors as real) == 100.0 * (meteorsAvoided as real)
    {
      if totalMeteors == 0 then 100.0 else Percentage(meteorsAvoided, totalMeteors)
    }

    /** `_calculate_command_accuracy`: 0 before any command, then the share of successes. */
    function CommandAccuracy(): (r: real)
      reads this
      ensures commandEvents == [] ==> r == 0.0
      ensures 0.0 <= r <= 100.0
      ensures commandEvents != [] ==> r * (|commandEvents| as real) == 100.0 * (SuccessCount(commandEvents) as real)
    {
      if |commandEvents| == 0 then 0.0 else Percentage(SuccessCount(commandEvents), |commandEvents|)
    }

    /** `reset`: every log, counter and score back to empty or zero; the session restarts at `now`. */
    method Reset(now: real)
      modifies this
      ensures Valid()
      ensures commandEvents == [] && collisionEvents == []
      ensures truePositives == map[] && trueNegatives == map[] && falsePositives == map[] && falseNegatives == map[]
      ensures score == 0 && meteorsAvoided == 0 && totalMeteors == 0
      ensures sessionStartTime == now && gameDuration == 0.0
    {
      commandEvents := [];
      collisionEvents := [];
      truePositives := map[];
      trueNegatives := map[];
      falsePositives := map[];
      falseNegatives := map[];
      score := 0;
      meteorsAvoided := 0;
      totalMeteors := 0;
      sessionStartTime := now;
      gameDuration := 0.0;
      EmptyMatchesLog(TruePositive);
      EmptyMatchesLog(FalseNegative);
      EmptyMatchesLog(FalsePositive);
      EmptyMatchesLog(TrueNegative);
    }
  }

  function Distance(a: real, b: real): (d: real)
    ensures d >= 0.0 && (d == a - b || d == b - a)
  {
    if a >= b then a - b else b - a
  }

  /** `max(0, x)`. */
  function Floored(x: int): (r: nat)
    ensures r >= x && (x >= 0 ==> r == x)
  {
    if 0 >= x then 0 else x
  }

  /** The loop invariant of `_update_classification_metrics` after the first `n` classes. */
  ghost predicate PartlyCounted(before: map<string, nat>, after: map<string, nat>, cell: Cell,
                                intended: string, actual: string, n: nat)
    requires n <= |Classes|
  {
    && (forall k :: k in after ==> k in before || k in Classes[..n])
    && (forall k :: Count(after, k) == Count(before, k) + (if k in Classes[..n] && CellOf(k, intended, actual) == cell then 1 else 0))
  }

  /** One more class counted: its `cell` count grows when the pair falls in that cell. */
  function CountClass(counter: map<string, nat>, cell: Cell, intended: string, actual: string, className: string): map<string, nat>
  {
    if CellOf(className, intended, actual) == cell then counter[className := Count(counter, className) + 1] else counter
  }

  lemma PartlyCountedStep(before: map<string, nat>, after: map<string, nat>, cell: Cell,
                          intended: string, actual: string, i: nat)
    requires i < |Classes| && PartlyCounted(before, after, cell, intended, actual, i)
    ensures PartlyCounted(before, CountClass(after, cell, intended, actual, Classes[i]), cell, intended, actual, i + 1)
  {
    assert Classes[..i + 1] == Classes[..i] + [Classes[i]];
    assert Classes[i] !in Classes[..i];
  }

  /** After the last class the partial count is the count of one pair. */
  lemma FullyCounted(before: map<string, nat>, after: map<string, nat>, cell: Cell, intended: string, actual: string)
    requires PartlyCounted(before, after, cell, intended, actual, |Classes|)
    ensures CountsOnePair(before, after, cell, intended, actual)
  {
    assert Classes[..|Classes|] == Classes;
  }
}
