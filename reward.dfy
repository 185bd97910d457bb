/**
 * Falling rewards and their spawner (game/reward.py). A reward falls at half
 * a pixel per frame until it leaves the bottom of the screen; the spawner
 * adds one every eight seconds, sooner as the game goes on, while fewer than
 * three are active, and drops every reward that is no longer active.
 *
 * `random.randint` is a parameter: the drawn x position is passed in. The
 * star drawing and the collision rectangle are not modelled.
 */
module Reward {
  import opened Lists

  const StartY: real := -50.0
  /** Pixels per frame at 60 frames per second. */
  const FallSpeed: real := 0.5
  const PointValue: int := 100
  /** `2 * math.pi` as a double. */
  const ShinePeriod: real := 6.283185307179586
  const ShineRate: real := 3.0
  /** A reward below this y has left the screen. */
  const BottomY: real := 850.0

  const SpawnInterval: real := 8.0
  const MaxRewards: nat := 3
  const Margin: int := 50
  /** Spawning gets 30 percent faster per minute of play. */
  const SpeedUpPerMinute: real := 0.3

  /** The shine phase after `dt` seconds: it grows by `3 * dt` and restarts at 0 once past a full turn. */
  function NextShine(shine: real, dt: real): (s: real)
    ensures s <= ShinePeriod
    ensures s == 0.0 || s == shine + dt * ShineRate
    ensures shine + dt * ShineRate <= ShinePeriod ==> s == shine + dt * ShineRate
  {
    var advanced := shine + dt * ShineRate;
    if advanced > ShinePeriod then 0.0 else advanced
  }

  /** The fields of a reward that `update` reads or writes. */
  datatype RewardState = RewardState(x: real, y: real, speed: real, shineOffset: real, active: bool)

  /** A reward as `spawn_reward` creates it at `x`. */
  function Spawned(x: real): RewardState
  {
    RewardState(x, StartY, FallSpeed, 0.0, true)
  }

  /** `update(dt)` on a reward's state: an inactive reward is untouched; an active one falls and shines. */
  function Step(s: RewardState, dt: real): (t: RewardState)
    ensures t.x == s.x && t.speed == s.speed
    ensures t.active ==> s.active
    ensures !s.active ==> t == s
    ensures s.active ==> t.y == s.y + s.speed * dt * 60.0 && (t.active <==> t.y <= BottomY)
  {
    if !s.active then s
    else
      var y := s.y + s.speed * dt * 60.0;
      RewardState(s.x, y, s.speed, NextShine(s.shineOffset, dt), y <= BottomY)
  }

  /** `update(dt)` applied to every state, in order. */
  function StepAll(states: seq<RewardState>, dt: real): (r: seq<RewardState>)
    ensures |r| == |states|
    ensures forall k :: 0 <= k < |states| ==> r[k] == Step(states[k], dt)
  {
    seq(|states|, k requires 0 <= k < |states| => Step(states[k], dt))
  }

  /** The `active` flags of a list of states. */
  function Actives(states: seq<RewardState>): (flags: seq<bool>)
    ensures |flags| == |states|
    ensures forall k :: 0 <= k < |states| ==> flags[k] == states[k].active
  {
    seq(|states|, k requires 0 <= k < |states| => states[k].active)
  }

  /** An update never makes a reward active again, so it never raises the number of active rewards. */
  lemma StepAllNeverActivates(states: seq<RewardState>, dt: real)
    ensures Implies(Actives(StepAll(states, dt)), Actives(states))
    ensures CountTrue(Actives(StepAll(states, dt))) <= CountTrue(Actives(states))
  {
    CountTrueMonotone(Actives(StepAll(states, dt)), Actives(states));
  }

  class Reward {
    var x: real
    var y: real
    var speed: real
    var value: int
    var shineOffset: real
    var active: bool
    var collected: bool

    constructor (x0: real, y0: real)
      ensures x == x0 && y == y0 && speed == FallSpeed && value == PointValue
      ensures shineOffset == 0.0 && active && !collected
    {
      x := x0;
      y := y0;
      speed := FallSpeed;
      value := PointValue;
      shineOffset := 0.0;
      active := true;
      collected := false;
    }

    /** `update(dt)`: the state steps as `Step` says; the value and the collected flag stay. */
    method Update(dt: real)
      modifies this
      ensures State(this) == Step(old(State(this)), dt)
      ensures value == old(value) && collected == old(collected)
    {
      if !active {
        return;
      }
      y := y + speed * dt * 60.0;
      shineOffset := shineOffset + dt * ShineRate;
      if shineOffset > ShinePeriod {
        shineOffset := 0.0;
      }
      if y > BottomY {
        active := false;
      }
    }

    /** `collect`: the reward is collected and no longer active. */
    method Collect()
      modifies this
      ensures collected && !active
      ensures x == old(x) && y == old(y) && speed == old(speed) && value == old(value) && shineOffset == old(shineOffset)
    {
      collected := true;
      active := false;
    }
  }

  ghost function State(r: Reward): RewardState
    reads r
  {
    RewardState(r.x, r.y, r.speed, r.shineOffset, r.active)
  }

  /** The states of a list of rewards, position by position. */
  ghost function States(rewards: seq<Reward>): (states: seq<RewardState>)
    reads rewards
    ensures |states| == |rewards|
    ensures forall k :: 0 <= k < |rewards| ==> states[k] == State(rewards[k])
  {
    seq(|rewards|, k reads rewards requires 0 <= k < |rewards| => State(rewards[k]))
  }

  /** The two fields of a reward that only `collect` changes: its point value and whether it was collected. */
  ghost function Prize(r: Reward): (int, bool)
    reads r
  {
    (r.value, r.collected)
  }

  /** The prizes of a list of rewards, position by position. */
  ghost function Prizes(rewards: seq<Reward>): (prizes: seq<(int, bool)>)
    reads rewards
    ensures |prizes| == |rewards|
    ensures forall k :: 0 <= k < |rewards| ==> prizes[k] == Prize(rewards[k])
  {
    seq(|rewards|, k reads rewards requires 0 <= k < |rewards| => Prize(rewards[k]))
  }

  /** The prize of a freshly spawned reward: 100 points, not collected. */
  const NewPrize: (int, bool) := (PointValue, false)

  /** `get_active_rewards`, `[r for r in self.rewards if r.active]`: the active rewards, in order. */
  function ActiveRewards(rewards: seq<Reward>): (r: seq<Reward>)
    reads rewards
    ensures r == Kept(rewards, Actives(States(rewards)))
  {
    if |rewards| == 0 then []
    else
      var n := |rewards| - 1;
      assert Actives(States(rewards[..n])) == Actives(States(rewards))[..n];
      ActiveRewards(rewards[..n]) + (if rewards[n].active then [rewards[n]] else [])
  }

  /** The number of active rewards, `len([r for r in self.rewards if r.active])`. */
  function ActiveCount(rewards: seq<Reward>): (n: nat)
    reads rewards
    ensures n == CountTrue(Actives(States(rewards)))
  {
    |ActiveRewards(rewards)|
  }

  /** `1 + (game_time / 60) * 0.3`: at least 1 once the game has started. */
  function DifficultyFactor(gameTime: real): (d: real)
    ensures gameTime >= 0.0 ==> d >= 1.0
    ensures (d - 1.0) * 60.0 == gameTime * SpeedUpPerMinute
  {
    1.0 + (gameTime / 60.0) * SpeedUpPerMinute
  }

  /** `spawn_interval / difficulty_factor`: never longer than eight seconds. */
  function EffectiveInterval(gameTime: real): (interval: real)
    requires gameTime >= 0.0
    ensures 0.0 < interval <= SpawnInterval
    ensures interval * DifficultyFactor(gameTime) == SpawnInterval
  {
    SpawnInterval / DifficultyFactor(gameTime)
  }

  /** Two minutes in, spawning is 60 percent faster: every five seconds. */
  lemma TwoMinutesIn()
    ensures DifficultyFactor(120.0) == 1.6 && EffectiveInterval(120.0) == 5.0
  {
  }

  /** Whether `update` spawns: the timer has reached the interval and fewer than three rewards are active. */
  predicate ShouldSpawn(spawnTimer: real, gameTime: real, activeCount: nat)
    requires gameTime >= 0.0
  {
    spawnTimer >= EffectiveInterval(gameTime) && activeCount < MaxRewards
  }

  /**
   * The bound of three: after the spawn decision and the filter, at most
   * three rewards remain, whatever the list held before (it may hold more
   * than three when collected rewards have not been dropped yet).
   */
  lemma {:induction false} AtMostThreeKept(before: seq<RewardState>, spawning: bool, x: real, dt: real)
    requires spawning ==> CountTrue(Actives(before)) < MaxRewards
    requires !spawning ==> CountTrue(Actives(before)) <= MaxRewards
    ensures var candidates := before + (if spawning then [Spawned(x)] else []);
      CountTrue(Actives(StepAll(candidates, dt))) <= MaxRewards
  {
    var candidates := before + (if spawning then [Spawned(x)] else []);
    StepAllNeverActivates(candidates, dt);
    if spawning {
      assert Actives(candidates) == Actives(before) + [true];
      CountTrueAppend(Actives(before), true);
    } else {
      assert candidates == before;
    }
  }

  /**
   * `after` is `before` with one freshly spawned reward at `x` appended when
   * `appended`, and otherwise the same list; `states` and `prizes` are what
   * `before`'s rewards held.
   */
  ghost predicate ExtendedBy(before: seq<Reward>, states: seq<RewardState>, prizes: seq<(int, bool)>,
                             after: seq<Reward>, appended: bool, x: real)
    reads after
  {
    && |after| == |before| + (if appended then 1 else 0)
    && after[..|before|] == before
    && States(after) == states + (if appended then [Spawned(x)] else [])
    && Prizes(after) == prizes + (if appended then [NewPrize] else [])
  }

  /** `randint(50, width - 50)` has an empty range, and raises `ValueError`, below a width of 100. */
  predicate TooNarrow(screenWidth: int)
  {
    screenWidth - Margin < Margin
  }

  class RewardSpawner {
    var screenWidth: int
    var screenHeight: int
    var rewards: seq<Reward>
    var spawnTimer: real
    var gameTime: real
    var difficultyFactor: real

    /**
     * No reward is listed twice, at most three are listed, and the game
     * time is not negative. The list may still hold collected rewards.
     */
    ghost predicate Valid()
      reads this
    {
      && Distinct(rewards)
      && |rewards| <= MaxRewards
      && gameTime >= 0.0
    }

    constructor (width: int, height: int)
      ensures Valid()
      ensures screenWidth == width && screenHeight == height
      ensures rewards == [] && spawnTimer == 0.0 && gameTime == 0.0 && difficultyFactor == 1.0
    {
      screenWidth := width;
      screenHeight := height;
      rewards := [];
      spawnTimer := 0.0;
      gameTime := 0.0;
      difficultyFactor := 1.0;
    }

    /**
     * `update(dt)`, where `randomX` is the `randint` draw used if a reward
     * spawns. The game time and the difficulty advance; a reward spawns at
     * most once, when `ShouldSpawn` holds, and then the timer restarts;
     * every reward, the new one included, is updated; and only the active
     * ones are kept, in order. `candidates` are the rewards updated: the
     * old list, plus the new reward if one spawned. `raised` is the
     * `ValueError` of a spawn on a screen too narrow for the margins: the
     * clocks have advanced, and the rewards are neither extended nor updated.
     */
    method Update(dt: real, randomX: int) returns (raised: bool, ghost candidates: seq<Reward>)
      requires Valid() && dt >= 0.0
      requires ShouldSpawn(spawnTimer + dt, gameTime + dt, ActiveCount(rewards)) && !TooNarrow(screenWidth) ==>
        Margin <= randomX <= screenWidth - Margin
      modifies this, rewards
      ensures Valid()
      ensures gameTime == old(gameTime) + dt && difficultyFactor == DifficultyFactor(gameTime)
      ensures var spawning := ShouldSpawn(old(spawnTimer) + dt, gameTime, old(ActiveCount(rewards)));
        raised == (spawning && TooNarrow(screenWidth))
      ensures raised ==> && spawnTimer == old(spawnTimer) + dt
                         && rewards == old(rewards) && States(rewards) == old(States(rewards))
                         && Prizes(rewards) == old(Prizes(rewards))
      ensures !raised ==>
        var spawning := ShouldSpawn(old(spawnTimer) + dt, gameTime, old(ActiveCount(rewards)));
        && spawnTimer == (if spawning then 0.0 else old(spawnTimer) + dt)
        && |candidates| == |old(rewards)| + (if spawning then 1 else 0)
        && candidates[..|old(rewards)|] == old(rewards)
        && (spawning ==> fresh(candidates[|old(rewards)|]))
        && States(candidates) ==
             StepAll(old(States(rewards)) + (if spawning then [Spawned(randomX as real)] else []), dt)
        && Prizes(candidates) == old(Prizes(rewards)) + (if spawning then [NewPrize] else [])
        && rewards == Kept(candidates, Actives(States(candidates)))
        && (forall r :: r in rewards ==> r.active)
      ensures screenWidth == old(screenWidth) && screenHeight == old(screenHeight)
    {
      raised := SpawnIfDue(dt, randomX);
      candidates := rewards;
      if raised {
        return;
      }
      UpdateRewards(dt);
    }

    /**
     * The spawning half of `update`: the clocks advance, and a reward spawns
     * when `ShouldSpawn` holds, unless the draw raises.
     */
    method SpawnIfDue(dt: real, randomX: int) returns (raised: bool)
      requires Valid() && dt >= 0.0
      requires ShouldSpawn(spawnTimer + dt, gameTime + dt, ActiveCount(rewards)) && !TooNarrow(screenWidth) ==>
        Margin <= randomX <= screenWidth - Margin
      modifies this`gameTime, this`difficultyFactor, this`spawnTimer, this`rewards
      ensures Distinct(rewards) && gameTime >= 0.0
      ensures gameTime == old(gameTime) + dt && difficultyFactor == DifficultyFactor(gameTime)
      ensures var spawning := ShouldSpawn(old(spawnTimer) + dt, gameTime, old(ActiveCount(rewards)));
        var appended := spawning && !raised;
        && raised == (spawning && TooNarrow(screenWidth))
        && spawnTimer == (if appended then 0.0 else old(spawnTimer) + dt)
        && ExtendedBy(old(rewards), old(States(rewards)), old(Prizes(rewards)), rewards, appended, randomX as real)
        && (appended ==> fresh(rewards[|old(rewards)|]))
      ensures CountTrue(Actives(StepAll(States(rewards), dt))) <= MaxRewards
    {
      ghost var statesBefore := States(rewards);
      ghost var prizesBefore := Prizes(rewards);
      var activeCount := ActiveCount(rewards);
      assert activeCount == CountTrue(Actives(statesBefore)) <= |statesBefore| <= MaxRewards;
      var effectiveInterval, spawning := AdvanceClocks(dt, activeCount);
      assert States(rewards) == statesBefore && Prizes(rewards) == prizesBefore;
      raised := SpawnWhen(spawning, randomX);
      AtMostThreeKept(statesBefore, spawning && !raised, randomX as real, dt);
    }

    /**
     * The guarded block of `update`: when due, one reward is spawned and the
     * spawn timer restarts; a raising draw leaves both as they were.
     */
    method SpawnWhen(spawning: bool, randomX: int) returns (raised: bool)
      requires Distinct(rewards)
      requires spawning && !TooNarrow(screenWidth) ==> Margin <= randomX <= screenWidth - Margin
      modifies this`spawnTimer, this`rewards
      ensures Distinct(rewards)
      ensures raised == (spawning && TooNarrow(screenWidth))
      ensures var appended := spawning && !raised;
        && spawnTimer == (if appended then 0.0 else old(spawnTimer))
        && ExtendedBy(old(rewards), old(States(rewards)), old(Prizes(rewards)), rewards, appended, randomX as real)
        && (appended ==> fresh(rewards[|old(rewards)|]))
    {
      raised := false;
      if spawning {
        raised := SpawnReward(randomX);
        if !raised {
          spawnTimer := 0.0;
        }
      }
      if !spawning || raised {
        assert rewards[..|rewards|] == rewards;
      }
    }

    /**
     * The clocks of `update`: the game time and the spawn timer advance by
     * `dt`, and the difficulty follows; then the spawning test, given the
     * number of active rewards.
     */
    method AdvanceClocks(dt: real, activeCount: nat) returns (effectiveInterval: real, spawning: bool)
      requires gameTime >= 0.0 && dt >= 0.0
      modifies this`gameTime, this`difficultyFactor, this`spawnTimer
      ensures gameTime == old(gameTime) + dt && spawnTimer == old(spawnTimer) + dt
      ensures difficultyFactor == DifficultyFactor(gameTime)
      ensures effectiveInterval == EffectiveInterval(gameTime)
      ensures spawning == ShouldSpawn(spawnTimer, gameTime, activeCount)
    {
      gameTime := gameTime + dt;
      difficultyFactor := 1.0 + (gameTime / 60.0) * SpeedUpPerMinute;
      effectiveInterval := SpawnInterval / difficultyFactor;
      spawnTimer := spawnTimer + dt;
      spawning := spawnTimer >= effectiveInterval && activeCount < MaxRewards;
    }

    /**
     * `spawn_reward`, with `randomX` the `randint(50, width - 50)` draw: one
     * new reward at the top. On a screen narrower than the two margins
     * `randint` raises `ValueError` and nothing is appended.
     */
    method SpawnReward(randomX: int) returns (raised: bool)
      requires Distinct(rewards)
      requires !TooNarrow(screenWidth) ==> Margin <= randomX <= screenWidth - Margin
      modifies this`rewards
      ensures Distinct(rewards)
      ensures raised == TooNarrow(screenWidth)
      ensures raised ==> rewards == old(rewards)
      ensures !raised ==>
        && |rewards| == |old(rewards)| + 1 && rewards[..|old(rewards)|] == old(rewards)
        && fresh(rewards[|old(rewards)|])
        && States(rewards) == old(States(rewards)) + [Spawned(randomX as real)]
        && Prizes(rewards) == old(Prizes(rewards)) + [NewPrize]
        && rewards[|old(rewards)|].value == PointValue && !rewards[|old(rewards)|].collected
    {
      if TooNarrow(screenWidth) {
        return true;
      }
      var reward := new Reward(randomX as real, StartY);
      DistinctAppend(rewards, reward);
      rewards := rewards + [reward];
      assert rewards[..|old(rewards)|] == old(rewards);
      return false;
    }

    /**
     * The filtering half of `update`: every reward is updated, and the list
     * keeps the ones still active, in order.
     */
    method UpdateRewards(dt: real)
      requires Distinct(rewards)
      modifies this`rewards, rewards
      ensures States(old(rewards)) == StepAll(old(States(rewards)), dt)
      ensures Prizes(old(rewards)) == old(Prizes(rewards))
      ensures rewards == Kept(old(rewards), Actives(StepAll(old(States(rewards)), dt)))
      ensures Distinct(rewards)
      ensures |rewards| == CountTrue(Actives(StepAll(old(States(rewards)), dt)))
      ensures forall r :: r in rewards ==> r.active
      ensures spawnTimer == old(spawnTimer) && gameTime == old(gameTime) && difficultyFactor == old(difficultyFactor)
      ensures screenWidth == old(screenWidth) && screenHeight == old(screenHeight)
    {
      var all := rewards;
      var activeRewards := UpdateAll(all, dt);
      KeptDistinct(all, Actives(States(all)));
      forall r | r in activeRewards
        ensures r.active
      {
        KeptMembers(all, Actives(States(all)), r);
      }
      rewards := activeRewards;
    }

    /** `clear_all`: no rewards, and the timer, the game time and the difficulty start over. */
    method ClearAll()
      modifies this
      ensures Valid()
      ensures rewards == [] && spawnTimer == 0.0 && gameTime == 0.0 && difficultyFactor == 1.0
      ensures screenWidth == old(screenWidth) && screenHeight == old(screenHeight)
    {
      rewards := [];
      spawnTimer := 0.0;
      gameTime := 0.0;
      difficultyFactor := 1.0;
    }
  }

  /**
   * The `for reward in self.rewards` loop of `RewardSpawner.update`: each
   * reward is updated once, and the result lists those still active, in order.
   */
  method UpdateAll(all: seq<Reward>, dt: real) returns (activeRewards: seq<Reward>)
    requires Distinct(all)
    modifies all
    ensures States(all) == StepAll(old(States(all)), dt)
    ensures Prizes(all) == old(Prizes(all))
    ensures activeRewards == Kept(all, Actives(States(all)))
  {
    ghost var initial := States(all);
    ghost var prizes := Prizes(all);
    ghost var after := StepAll(initial, dt);
    activeRewards := [];
    for i := 0 to |all|
      invariant forall k :: 0 <= k < |all| ==>
        State(all[k]) == (if k < i then after[k] else initial[k]) && Prize(all[k]) == prizes[k]
      invariant activeRewards == Kept(all[..i], Actives(after)[..i])
    {
      var reward := all[i];
      reward.Update(dt);
      KeptPrefixStep(all, Actives(after), i);
      if reward.active {
        activeRewards := activeRewards + [reward];
      }
    }
    assert all[..|all|] == all && Actives(after)[..|all|] == Actives(after);
    assert States(all) == after;
    assert Prizes(all) == prizes;
  }
}
