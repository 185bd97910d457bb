/**
 * Falling meteors and their spawner (game/meteor.py). A meteor accelerates
 * up to ten times its maximum speed and keeps a trail of its last eight
 * positions. The spawner has five spawn points across the top of the screen,
 * each with its own timer and delay; it stops spawning while five meteors
 * are on screen or within half a second of the last spawn.
 *
 * `random.random`, `random.uniform` and the pygame clock are parameters:
 * the draws, the fresh delays and the clock reading are passed in.
 */
module Meteor {
  import opened BoundedDeque

  const InitialSpeed: real := 0.1
  const BaseMaxSpeed: real := 0.1
  const BaseAcceleration: real := 0.01
  /** The speed cap is this many times `max_speed`. */
  const SpeedCapFactor: real := 10.0
  const TrailLength: nat := 8

  const SpawnPointCount: nat := 5
  const MaxMeteors: nat := 5
  const SpawnCooldown: real := 0.5
  const SpawnChance: real := 0.6
  const DifficultyIncreaseRate: real := 0.01
  /** `random.uniform(2.0, 5.0)` at start and reset, `random.uniform(1.5, 4.0)` after an expiry. */
  const InitialDelayMin: real := 2.0
  const InitialDelayMax: real := 5.0
  const RespawnDelayMin: real := 1.5
  const RespawnDelayMax: real := 4.0

  class Meteor {
    var x: real
    var y: real
    var speed: real
    var maxSpeed: real
    var acceleration: real
    var trailPositions: seq<(real, real)>
    var difficultyMultiplier: real

    ghost predicate Valid()
      reads this
    {
      |trailPositions| <= TrailLength
    }

    constructor (x0: real, y0: real)
      ensures Valid()
      ensures x == x0 && y == y0 && speed == InitialSpeed && maxSpeed == BaseMaxSpeed
      ensures acceleration == BaseAcceleration && trailPositions == [] && difficultyMultiplier == 1.0
    {
      x := x0;
      y := y0;
      speed := InitialSpeed;
      maxSpeed := BaseMaxSpeed;
      acceleration := BaseAcceleration;
      trailPositions := [];
      difficultyMultiplier := 1.0;
    }

    /**
     * `update(dt)` without the rotation: accelerate, cap the speed at ten
     * times `max_speed`, fall, and record the new position in the trail.
     */
    method Update(dt: real)
      requires Valid()
      modifies this
      ensures Valid()
      ensures speed <= maxSpeed * SpeedCapFactor
      ensures speed == CappedSpeed(old(speed) + old(acceleration) * dt * 60.0, old(maxSpeed))
      ensures y == old(y) + speed * 300.0 * dt
      ensures trailPositions == Push(old(trailPositions), TrailLength, (x, y))
      ensures x == old(x) && maxSpeed == old(maxSpeed) && acceleration == old(acceleration)
      ensures difficultyMultiplier == old(difficultyMultiplier)
    {
      speed := speed + acceleration * dt * 60.0;
      speed := if speed <= maxSpeed * SpeedCapFactor then speed else maxSpeed * SpeedCapFactor;
      var movement := speed * 300.0 * dt;
      y := y + movement;
      trailPositions := trailPositions + [(x, y)];
      if |trailPositions| > TrailLength {
        trailPositions := trailPositions[1..];
      }
    }

    /** `set_difficulty` without the size change: speed limit and acceleration scale with the difficulty. */
    method SetDifficulty(difficulty: real)
      modifies this
      ensures difficultyMultiplier == difficulty
      ensures maxSpeed == BaseMaxSpeed * difficulty && acceleration == BaseAcceleration * difficulty
      ensures x == old(x) && y == old(y) && speed == old(speed) && trailPositions == old(trailPositions)
    {
      difficultyMultiplier := difficulty;
      maxSpeed := 0.1 * difficulty;
      acceleration := 0.01 * difficulty;
    }
  }

  /** `min(speed, max_speed * 10)`. */
  function CappedSpeed(speed: real, maxSpeed: real): (r: real)
    ensures r <= maxSpeed * SpeedCapFactor && r <= speed
    ensures r == speed || r == maxSpeed * SpeedCapFactor
  {
    if speed <= maxSpeed * SpeedCapFactor then speed else maxSpeed * SpeedCapFactor
  }

  /** A meteor that has reached its cap stays there while it keeps accelerating. */
  lemma CapIsStable(speed: real, maxSpeed: real, acceleration: real, dt: real)
    requires speed == maxSpeed * SpeedCapFactor && acceleration * dt >= 0.0
    ensures CappedSpeed(speed + acceleration * dt * 60.0, maxSpeed) == speed
  {
  }

  // ---------------------------------------------------------------------
  // The spawner
  // ---------------------------------------------------------------------

  /** The five spawn points at 10, 30, 50, 70 and 90 percent of the width. */
  function SpawnPoints(screenWidth: real): (points: seq<real>)
    ensures |points| == SpawnPointCount
    ensures screenWidth >= 0.0 ==> forall i :: 0 <= i < |points| ==> 0.0 <= points[i] <= screenWidth
  {
    [screenWidth * 0.1, screenWidth * 0.3, screenWidth * 0.5, screenWidth * 0.7, screenWidth * 0.9]
  }

  /** Whether spawn point `i`'s timer reaches its delay once `dt` is added. */
  predicate Expired(timers: seq<real>, delays: seq<real>, dt: real, i: nat)
    requires i < |timers| && i < |delays|
  {
    timers[i] + dt >= delays[i]
  }

  /** The indices among the first `n` spawn points that expire and whose draw is below 0.6, in order. */
  function SpawnIndices(timers: seq<real>, delays: seq<real>, draws: seq<real>, dt: real, n: nat): (r: seq<nat>)
    requires n <= |timers| && n <= |delays| && n <= |draws|
    ensures |r| <= n
  {
    if n == 0 then []
    else
      var earlier := SpawnIndices(timers, delays, draws, dt, n - 1);
      if Expired(timers, delays, dt, n - 1) && draws[n - 1] < SpawnChance then earlier + [n - 1] else earlier
  }

  /** The spawning points come out in strictly increasing order, so no point spawns twice in one call. */
  lemma {:induction false} SpawnIndicesIncreasing(timers: seq<real>, delays: seq<real>, draws: seq<real>, dt: real, n: nat)
    requires n <= |timers| && n <= |delays| && n <= |draws|
    ensures forall k :: 0 <= k < |SpawnIndices(timers, delays, draws, dt, n)| ==>
      SpawnIndices(timers, delays, draws, dt, n)[k] < n
    ensures forall j, k :: 0 <= j < k < |SpawnIndices(timers, delays, draws, dt, n)| ==>
      SpawnIndices(timers, delays, draws, dt, n)[j] < SpawnIndices(timers, delays, draws, dt, n)[k]
  {
    if n > 0 {
      SpawnIndicesIncreasing(timers, delays, draws, dt, n - 1);
      var earlier := SpawnIndices(timers, delays, draws, dt, n - 1);
      if Expired(timers, delays, dt, n - 1) && draws[n - 1] < SpawnChance {
        var r := earlier + [n - 1];
        assert r == SpawnIndices(timers, delays, draws, dt, n);
        forall k | 0 <= k < |r|
          ensures r[k] < n
        {
          if k < |earlier| {
            assert r[k] == earlier[k];
          }
        }
        forall j, k | 0 <= j < k < |r|
          ensures r[j] < r[k]
        {
          assert r[j] == earlier[j];
          if k < |earlier| {
            assert r[k] == earlier[k];
          }
        }
      }
    }
  }

  /** A point spawns exactly when its timer expired and its draw was below 0.6. */
  lemma {:induction false} SpawnIndicesMembers(timers: seq<real>, delays: seq<real>, draws: seq<real>, dt: real, n: nat, i: nat)
    requires n <= |timers| && n <= |delays| && n <= |draws|
    ensures i in SpawnIndices(timers, delays, draws, dt, n) <==>
      i < n && Expired(timers, delays, dt, i) && draws[i] < SpawnChance
  {
    if n > 0 {
      SpawnIndicesMembers(timers, delays, draws, dt, n - 1, i);
    }
  }

  /** A spawn point's timer after one ungated update: 0 once expired, otherwise advanced by `dt`. */
  function NextTimer(timers: seq<real>, delays: seq<real>, dt: real, i: nat): real
    requires i < |timers| && i < |delays|
  {
    if Expired(timers, delays, dt, i) then 0.0 else timers[i] + dt
  }

  /** A spawn point's delay after one ungated update: redrawn once expired. */
  function NextDelay(timers: seq<real>, delays: seq<real>, newDelays: seq<real>, dt: real, i: nat): real
    requires i < |timers| && i < |delays| && i < |newDelays|
  {
    if Expired(timers, delays, dt, i) then newDelays[i] else delays[i]
  }

  /**
   * `m` is a meteor just made by `Meteor(x, 0)` and `set_difficulty(difficulty)`:
   * at the top of the screen above `x`, at the initial speed, with the speed
   * limit and acceleration the difficulty gives it, and with an empty trail.
   */
  ghost predicate FreshlySpawned(m: Meteor, x: real, difficulty: real)
    reads m
  {
    && m.Valid() && m.x == x && m.y == 0.0 && m.speed == InitialSpeed
    && m.maxSpeed == BaseMaxSpeed * difficulty && m.acceleration == BaseAcceleration * difficulty
    && m.difficultyMultiplier == difficulty && m.trailPositions == []
  }

  /** The `k`-th new meteor is freshly spawned at the spawn point `spawned[k]`. */
  ghost predicate SpawnedAt(meteors: seq<Meteor>, points: seq<real>, spawned: seq<nat>, difficulty: real)
    reads set m | m in meteors
  {
    && |meteors| == |spawned|
    && forall k :: 0 <= k < |meteors| ==>
         spawned[k] < |points| && FreshlySpawned(meteors[k], points[spawned[k]], difficulty)
  }

  lemma SpawnedAtAppend(meteors: seq<Meteor>, points: seq<real>, spawned: seq<nat>, difficulty: real,
                        meteor: Meteor, i: nat)
    requires SpawnedAt(meteors, points, spawned, difficulty)
    requires i < |points| && FreshlySpawned(meteor, points[i], difficulty)
    ensures SpawnedAt(meteors + [meteor], points, spawned + [i], difficulty)
  {
  }

  /** The first `n` points have had their update; the others are as they were. */
  ghost predicate AdvancedUpTo(timers0: seq<real>, delays0: seq<real>, newDelays: seq<real>, dt: real,
                               timers: seq<real>, delays: seq<real>, n: nat)
  {
    && |timers0| == SpawnPointCount && |delays0| == SpawnPointCount && |newDelays| == SpawnPointCount
    && |timers| == SpawnPointCount && |delays| == SpawnPointCount && n <= SpawnPointCount
    && (forall j :: 0 <= j < n ==>
          timers[j] == NextTimer(timers0, delays0, dt, j) && delays[j] == NextDelay(timers0, delays0, newDelays, dt, j))
    && (forall j :: n <= j < SpawnPointCount ==> timers[j] == timers0[j] && delays[j] == delays0[j])
  }

  predicate AllIn(values: seq<real>, low: real, high: real)
  {
    forall i :: 0 <= i < |values| ==> low <= values[i] <= high
  }

  /** The `Meteor(spawn_x, 0)` and `set_difficulty` of a spawn. */
  method SpawnMeteor(x: real, difficulty: real) returns (m: Meteor)
    ensures fresh(m) && FreshlySpawned(m, x, difficulty)
  {
    m := new Meteor(x, 0.0);
    m.SetDifficulty(difficulty);
  }

  class MeteorSpawner {
    var screenWidth: real
    var spawnPoints: seq<real>
    var spawnTimers: seq<real>
    var spawnDelays: seq<real>
    var lastSpawnTime: real
    var difficulty: real

    ghost predicate Valid()
      reads this
    {
      && spawnPoints == SpawnPoints(screenWidth)
      && |spawnTimers| == SpawnPointCount && |spawnDelays| == SpawnPointCount
      && AllIn(spawnDelays, RespawnDelayMin, InitialDelayMax)
    }

    constructor (width: real, delays: seq<real>)
      requires |delays| == SpawnPointCount && AllIn(delays, InitialDelayMin, InitialDelayMax)
      ensures Valid()
      ensures screenWidth == width && spawnTimers == [0.0, 0.0, 0.0, 0.0, 0.0] && spawnDelays == delays
      ensures lastSpawnTime == 0.0 && difficulty == 1.0
    {
      screenWidth := width;
      spawnPoints := [width * 0.1, width * 0.3, width * 0.5, width * 0.7, width * 0.9];
      spawnTimers := [0.0, 0.0, 0.0, 0.0, 0.0];
      spawnDelays := delays;
      lastSpawnTime := 0.0;
      difficulty := 1.0;
    }

    /**
     * `update(dt, meteors)` at clock reading `now`. `draws[i]` is the
     * `random.random()` drawn when point `i` expires and `newDelays[i]` the
     * delay drawn for it then. While five meteors exist or the cooldown has
     * not passed, nothing happens. Otherwise every timer advances; each
     * expired point restarts with its new delay and, on a draw below 0.6,
     * yields one meteor at its position at the top of the screen; and the
     * difficulty grows by `0.01 * dt`.
     */
    method Update(dt: real, meteors: seq<Meteor>, now: real, draws: seq<real>, newDelays: seq<real>)
      returns (newMeteors: seq<Meteor>)
      requires Valid()
      requires |draws| == SpawnPointCount && |newDelays| == SpawnPointCount
      requires AllIn(newDelays, RespawnDelayMin, RespawnDelayMax)
      modifies this
      ensures Valid()
      ensures |meteors| >= MaxMeteors || now - old(lastSpawnTime) < SpawnCooldown ==>
        && newMeteors == []
        && spawnTimers == old(spawnTimers) && spawnDelays == old(spawnDelays)
        && lastSpawnTime == old(lastSpawnTime) && difficulty == old(difficulty)
      ensures !(|meteors| >= MaxMeteors || now - old(lastSpawnTime) < SpawnCooldown) ==>
        var spawned := SpawnIndices(old(spawnTimers), old(spawnDelays), draws, dt, SpawnPointCount);
        && (forall m :: m in newMeteors ==> fresh(m))
        && SpawnedAt(newMeteors, spawnPoints, spawned, old(difficulty))
        && AdvancedUpTo(old(spawnTimers), old(spawnDelays), newDelays, dt, spawnTimers, spawnDelays, SpawnPointCount)
        && lastSpawnTime == (if |spawned| > 0 then now else old(lastSpawnTime))
        && difficulty == old(difficulty) + DifficultyIncreaseRate * dt
      ensures screenWidth == old(screenWidth) && spawnPoints == old(spawnPoints)
    {
      newMeteors := [];
      if |meteors| >= MaxMeteors {
        return;
      }
      if now - lastSpawnTime < SpawnCooldown {
        return;
      }
      newMeteors := UpdateSpawnPoints(dt, now, draws, newDelays);
      difficulty := difficulty + DifficultyIncreaseRate * dt;
    }

    /** The `for i, spawn_x in enumerate(self.spawn_points)` loop of `update`. */
    method UpdateSpawnPoints(dt: real, now: real, draws: seq<real>, newDelays: seq<real>)
      returns (newMeteors: seq<Meteor>)
      requires Valid()
      requires |draws| == SpawnPointCount && |newDelays| == SpawnPointCount
      requires AllIn(newDelays, RespawnDelayMin, RespawnDelayMax)
      modifies this
      ensures Valid()
      ensures var spawned := SpawnIndices(old(spawnTimers), old(spawnDelays), draws, dt, SpawnPointCount);
        && (forall m :: m in newMeteors ==> fresh(m))
        && SpawnedAt(newMeteors, spawnPoints, spawned, difficulty)
        && AdvancedUpTo(old(spawnTimers), old(spawnDelays), newDelays, dt, spawnTimers, spawnDelays, SpawnPointCount)
        && lastSpawnTime == (if |spawned| > 0 then now else old(lastSpawnTime))
      ensures screenWidth == old(screenWidth) && spawnPoints == old(spawnPoints) && difficulty == old(difficulty)
    {
      newMeteors := [];
      var timers, delays, lastSpawn := spawnTimers, spawnDelays, lastSpawnTime;
      ghost var spawned: seq<nat> := [];
      for i := 0 to |spawnPoints|
        modifies {}
        invariant AdvancedUpTo(spawnTimers, spawnDelays, newDelays, dt, timers, delays, i)
        invariant AllIn(delays, RespawnDelayMin, InitialDelayMax)
        invariant spawned == SpawnIndices(spawnTimers, spawnDelays, draws, dt, i)
        invariant forall m :: m in newMeteors ==> fresh(m)
        invariant SpawnedAt(newMeteors, spawnPoints, spawned, difficulty)
        invariant lastSpawn == (if |spawned| > 0 then now else lastSpawnTime)
      {
        var spawnX := spawnPoints[i];
        timers := timers[i := timers[i] + dt];
        if timers[i] >= delays[i] {
          if draws[i] < SpawnChance {
            var meteor := SpawnMeteor(spawnX, difficulty);
            SpawnedAtAppend(newMeteors, spawnPoints, spawned, difficulty, meteor, i);
            newMeteors := newMeteors + [meteor];
            spawned := spawned + [i];
            lastSpawn := now;
          }
          timers := timers[i := 0.0];
          delays := delays[i := newDelays[i]];
        }
      }
      spawnTimers, spawnDelays, lastSpawnTime := timers, delays, lastSpawn;
    }

    /** `reset`: timers and the last spawn time back to 0, fresh delays, difficulty 1. */
    method Reset(delays: seq<real>)
      requires Valid()
      requires |delays| == SpawnPointCount && AllIn(delays, InitialDelayMin, InitialDelayMax)
      modifies this
      ensures Valid()
      ensures spawnTimers == [0.0, 0.0, 0.0, 0.0, 0.0] && spawnDelays == delays
      ensures lastSpawnTime == 0.0 && difficulty == 1.0
      ensures screenWidth == old(screenWidth) && spawnPoints == old(spawnPoints)
    {
      spawnTimers := [0.0, 0.0, 0.0, 0.0, 0.0];
      spawnDelays := delays;
      lastSpawnTime := 0.0;
      difficulty := 1.0;
    }
  }

  /**
   * The cap of five is only checked before spawning: with four meteors on
   * screen and every point expired with a low draw, one call yields five
   * more, nine in all.
   */
  lemma CapCheckedBeforeSpawning()
    ensures |SpawnIndices([3.0, 3.0, 3.0, 3.0, 3.0], [2.0, 2.0, 2.0, 2.0, 2.0], [0.0, 0.0, 0.0, 0.0, 0.0], 0.1, 5)| == 5
  {
  }
}
