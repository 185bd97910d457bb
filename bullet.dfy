/**
 * Bullets and their manager (game/bullet.py). A bullet flies upward at five
 * pixels per frame, leaving a trail of its last five positions, until it is
 * above the screen or hits a reward; the manager fires at most one bullet
 * per half second, drops finished bullets, and counts shots and hits.
 *
 * `time.time()` is the parameter `now`. The collision rectangles and pygame's
 * `colliderect` are the parameter `collides`, a test on a bullet's centre and
 * a reward's centre: both rectangles have fixed sizes around those centres.
 */
module Bullet {
  import opened Wrappers
  import opened Lists
  import opened BoundedDeque
  import Reward

  const BulletWidth: int := 8
  const BulletHeight: int := 12
  /** Pixels per frame at 60 frames per second, upward. */
  const BulletSpeed: real := 5.0
  const MaxTrailLength: nat := 5
  /** A bullet above this y has left the screen. */
  const TopY: real := -50.0
  const FireCooldown: real := 0.5
  /** Bullets start this far above the character's y. */
  const MuzzleOffset: real := 30.0

  /** The trail after recording `p`: append, then drop the oldest entry once there are more than five. */
  function NextTrail(trail: seq<(real, real)>, p: (real, real)): (r: seq<(real, real)>)
    ensures |trail| <= MaxTrailLength ==> r == Last(MaxTrailLength, trail + [p])
    ensures |r| > 0 && r[|r| - 1] == p
    ensures |r| <= MaxTrailLength || |r| == |trail|
  {
    var appended := trail + [p];
    if |appended| > MaxTrailLength then appended[1..] else appended
  }

  /** The fields of a bullet that `update` and `hit_target` read or write. */
  datatype BulletState = BulletState(x: real, y: real, speed: real, trail: seq<(real, real)>, active: bool)

  /** A bullet as `Bullet(x, y)` creates it. */
  function Fired(x: real, y: real): BulletState
  {
    BulletState(x, y, BulletSpeed, [], true)
  }

  /**
   * `update(dt)` on a bullet's state: an inactive bullet is untouched; an
   * active one records its position in the trail, rises, and stays active
   * while it has not passed the top.
   */
  function Step(s: BulletState, dt: real): (t: BulletState)
    ensures t.x == s.x && t.speed == s.speed
    ensures t.active ==> s.active
    ensures !s.active ==> t == s
    ensures s.active ==> t.y == s.y - s.speed * dt * 60.0 && (t.active <==> t.y >= TopY)
    ensures s.active && |s.trail| <= MaxTrailLength ==> t.trail == Last(MaxTrailLength, s.trail + [(s.x, s.y)])
    ensures |s.trail| <= MaxTrailLength ==> |t.trail| <= MaxTrailLength
  {
    if !s.active then s
    else
      var y := s.y - s.speed * dt * 60.0;
      BulletState(s.x, y, s.speed, NextTrail(s.trail, (s.x, s.y)), !(y < TopY))
  }

  /** `update(dt)` applied to every state, in order. */
  function StepAll(states: seq<BulletState>, dt: real): (r: seq<BulletState>)
    ensures |r| == |states|
    ensures forall k :: 0 <= k < |states| ==> r[k] == Step(states[k], dt)
  {
    seq(|states|, k requires 0 <= k < |states| => Step(states[k], dt))
  }

  /** The `active` flags of a list of states. */
  function Actives(states: seq<BulletState>): (flags: seq<bool>)
    ensures |flags| == |states|
    ensures forall k :: 0 <= k < |states| ==> flags[k] == states[k].active
  {
    seq(|states|, k requires 0 <= k < |states| => states[k].active)
  }

  /** An update never makes a bullet active again. */
  lemma StepAllNeverActivates(states: seq<BulletState>, dt: real)
    ensures Implies(Actives(StepAll(states, dt)), Actives(states))
    ensures CountTrue(Actives(StepAll(states, dt))) <= CountTrue(Actives(states))
  {
    CountTrueMonotone(Actives(StepAll(states, dt)), Actives(states));
  }

  /** At one frame per step a bullet rises five pixels; it is gone once it is above y = -50, not at -50. */
  lemma TopOfScreen()
    ensures Step(Fired(0.0, -45.0), 1.0 / 60.0) == BulletState(0.0, -50.0, BulletSpeed, [(0.0, -45.0)], true)
    ensures !Step(Fired(0.0, -45.5), 1.0 / 60.0).active
  {
  }

  class Bullet {
    var x: real
    var y: real
    var speed: real
    var active: bool
    var trailPositions: seq<(real, real)>

    constructor (startX: real, startY: real)
      ensures State(this) == Fired(startX, startY)
    {
      x := startX;
      y := startY;
      speed := BulletSpeed;
      active := true;
      trailPositions := [];
    }

    /** `update(dt)`: the state steps as `Step` says. */
    method Update(dt: real)
      modifies this
      ensures State(this) == Step(old(State(this)), dt)
    {
      if !active {
        return;
      }
      trailPositions := trailPositions + [(x, y)];
      if |trailPositions| > MaxTrailLength {
        trailPositions := trailPositions[1..];
      }
      y := y - speed * dt * 60.0;
      if y < TopY {
        active := false;
      }
    }

    /** `hit_target`: the bullet is no longer active; nothing else changes. */
    method HitTarget()
      modifies this
      ensures State(this) == old(State(this)).(active := false)
    {
      active := false;
    }
  }

  ghost function State(b: Bullet): BulletState
    reads b
  {
    BulletState(b.x, b.y, b.speed, b.trailPositions, b.active)
  }

  /** The states of a list of bullets, position by position. */
  ghost function States(bullets: seq<Bullet>): (states: seq<BulletState>)
    reads bullets
    ensures |states| == |bullets|
    ensures forall k :: 0 <= k < |bullets| ==> states[k] == State(bullets[k])
  {
    seq(|bullets|, k reads bullets requires 0 <= k < |bullets| => State(bullets[k]))
  }

  /** `get_active_bullets`: the active bullets, in order. */
  function ActiveBullets(bullets: seq<Bullet>): (r: seq<Bullet>)
    reads bullets
    ensures r == Kept(bullets, Actives(States(bullets)))
  {
    if |bullets| == 0 then []
    else
      var n := |bullets| - 1;
      assert Actives(States(bullets[..n])) == Actives(States(bullets))[..n];
      ActiveBullets(bullets[..n]) + (if bullets[n].active then [bullets[n]] else [])
  }

  /** Whether a bullet centred at (`bulletX`, `bulletY`) hits reward `r`: only active rewards count. */
  predicate Hits(bulletX: real, bulletY: real, r: Reward.RewardState, collides: (real, real, real, real) -> bool)
  {
    r.active && collides(bulletX, bulletY, r.x, r.y)
  }

  /** The index of the first reward the bullet hits: the inner loop of `check_reward_collisions`, up to its `break`. */
  function FirstHit(bulletX: real, bulletY: real, rs: seq<Reward.RewardState>, collides: (real, real, real, real) -> bool): (o: Option<nat>)
    ensures o.Some? ==> o.value < |rs| && Hits(bulletX, bulletY, rs[o.value], collides)
    ensures o.Some? ==> forall k :: 0 <= k < o.value ==> !Hits(bulletX, bulletY, rs[k], collides)
    ensures o.None? ==> forall k :: 0 <= k < |rs| ==> !Hits(bulletX, bulletY, rs[k], collides)
  {
    if |rs| == 0 then None
    else if Hits(bulletX, bulletY, rs[0], collides) then Some(0)
    else
      match FirstHit(bulletX, bulletY, rs[1..], collides)
      case None => None
      case Some(j) => Some(j + 1)
  }

  /** The reward a bullet reports: inactive bullets are skipped. */
  function Report(b: BulletState, rs: seq<Reward.RewardState>, collides: (real, real, real, real) -> bool): Option<nat>
  {
    if b.active then FirstHit(b.x, b.y, rs, collides) else None
  }

  /** The pairs `check_reward_collisions` returns: one per reporting bullet, in bullet order. */
  function Collisions(bs: seq<BulletState>, rs: seq<Reward.RewardState>, collides: (real, real, real, real) -> bool): (c: seq<(nat, nat)>)
    ensures |c| <= |bs|
    ensures forall p :: 0 <= p < |c| ==> c[p].0 < |bs|
  {
    if |bs| == 0 then []
    else
      var n := |bs| - 1;
      Collisions(bs[..n], rs, collides) +
        match Report(bs[n], rs, collides)
        case Some(j) => [(n, j)]
        case None => []
  }

  /** The bullet states after `check_reward_collisions`: every reporting bullet has hit its target. */
  function AfterHits(bs: seq<BulletState>, rs: seq<Reward.RewardState>, collides: (real, real, real, real) -> bool): (r: seq<BulletState>)
    ensures |r| == |bs|
    ensures forall k :: 0 <= k < |bs| ==> r[k] == if Report(bs[k], rs, collides).Some? then bs[k].(active := false) else bs[k]
  {
    seq(|bs|, k requires 0 <= k < |bs| => if Report(bs[k], rs, collides).Some? then bs[k].(active := false) else bs[k])
  }

  lemma CollisionsPrefixStep(bs: seq<BulletState>, rs: seq<Reward.RewardState>, collides: (real, real, real, real) -> bool, i: nat)
    requires i < |bs|
    ensures Collisions(bs[..i + 1], rs, collides) ==
      Collisions(bs[..i], rs, collides) + match Report(bs[i], rs, collides) case Some(j) => [(i, j)] case None => []
  {
    assert bs[..i + 1][..i] == bs[..i];
  }

  /**
   * A pair is reported exactly when its bullet reports that reward: the
   * bullet is active, the reward is the first active one it collides with.
   */
  lemma {:induction false} CollisionsExactly(bs: seq<BulletState>, rs: seq<Reward.RewardState>, collides: (real, real, real, real) -> bool, i: nat, j: nat)
    ensures (i, j) in Collisions(bs, rs, collides) <==> i < |bs| && Report(bs[i], rs, collides) == Some(j)
  {
    if |bs| > 0 {
      var n := |bs| - 1;
      CollisionsExactly(bs[..n], rs, collides, i, j);
      assert forall p :: 0 <= p < |Collisions(bs[..n], rs, collides)| ==> Collisions(bs[..n], rs, collides)[p].0 < n;
    }
  }

  /** The bullet indices of the pairs strictly increase, so no bullet is reported twice. */
  lemma {:induction false} CollisionsIncreasing(bs: seq<BulletState>, rs: seq<Reward.RewardState>, collides: (real, real, real, real) -> bool)
    ensures forall p, q :: 0 <= p < q < |Collisions(bs, rs, collides)| ==>
      Collisions(bs, rs, collides)[p].0 < Collisions(bs, rs, collides)[q].0
  {
    if |bs| > 0 {
      var n := |bs| - 1;
      CollisionsIncreasing(bs[..n], rs, collides);
      var earlier := Collisions(bs[..n], rs, collides);
      var c := Collisions(bs, rs, collides);
      assert c[..|earlier|] == earlier;
      forall p, q | 0 <= p < q < |c|
        ensures c[p].0 < c[q].0
      {
        if q >= |earlier| {
          assert c[q].0 == n;
          assert c[p] == earlier[p] && earlier[p].0 < |bs[..n]| == n;
        } else {
          assert c[p] == earlier[p] && c[q] == earlier[q];
        }
      }
    }
  }

  /** Every pair deactivates one active bullet: pairs plus active bullets after equal active bullets before. */
  lemma {:induction false} HitsUseUpBullets(bs: seq<BulletState>, rs: seq<Reward.RewardState>, collides: (real, real, real, real) -> bool)
    ensures |Collisions(bs, rs, collides)| + CountTrue(Actives(AfterHits(bs, rs, collides))) == CountTrue(Actives(bs))
  {
    if |bs| > 0 {
      var n := |bs| - 1;
      HitsUseUpBullets(bs[..n], rs, collides);
      var flagsAfter := Actives(AfterHits(bs, rs, collides));
      var flagsBefore := Actives(bs);
      assert Actives(AfterHits(bs[..n], rs, collides)) == flagsAfter[..n];
      assert Actives(bs[..n]) == flagsBefore[..n];
      assert flagsAfter[n] == (bs[n].active && Report(bs[n], rs, collides).None?);
      CollisionsCountStep(bs, rs, collides);
    }
  }

  /** The last bullet adds one pair exactly when it reports a target. */
  lemma CollisionsCountStep(bs: seq<BulletState>, rs: seq<Reward.RewardState>, collides: (real, real, real, real) -> bool)
    requires |bs| > 0
    ensures |Collisions(bs, rs, collides)| ==
      |Collisions(bs[..|bs| - 1], rs, collides)| + (if Report(bs[|bs| - 1], rs, collides).Some? then 1 else 0)
  {
    var n := |bs| - 1;
    var extra: seq<(nat, nat)> := match Report(bs[n], rs, collides) case Some(j) => [(n, j)] case None => [];
    assert Collisions(bs, rs, collides) == Collisions(bs[..n], rs, collides) + extra;
  }

  /** A reward can be reported by several bullets: collisions do not deactivate rewards. */
  lemma TwoBulletsOneReward()
    ensures var rs := [Reward.Spawned(100.0)];
      var both := (bulletX: real, bulletY: real, rx: real, ry: real) => true;
      Collisions([Fired(100.0, 0.0), Fired(100.0, 10.0)], rs, both) == [(0, 0), (1, 0)]
  {
    var rs := [Reward.Spawned(100.0)];
    var both := (bulletX: real, bulletY: real, rx: real, ry: real) => true;
    var bs := [Fired(100.0, 0.0), Fired(100.0, 10.0)];
    assert bs[..1][..0] == [];
    assert bs[..1] == [Fired(100.0, 0.0)];
  }

  /**
   * The inner loop of `check_reward_collisions` for one bullet: the index of
   * the first active reward it collides with, if any.
   */
  method FindTarget(bulletX: real, bulletY: real, rewards: seq<Reward.Reward>, collides: (real, real, real, real) -> bool)
    returns (target: Option<nat>)
    ensures target == FirstHit(bulletX, bulletY, Reward.States(rewards), collides)
  {
    ghost var rs := Reward.States(rewards);
    target := None;
    var j := 0;
    while j < |rewards|
      invariant 0 <= j <= |rewards|
      invariant forall k :: 0 <= k < j ==> !Hits(bulletX, bulletY, rs[k], collides)
    {
      var reward := rewards[j];
      if !reward.active {
        j := j + 1;
        continue;
      }
      if collides(bulletX, bulletY, reward.x, reward.y) {
        target := Some(j);
        break;
      }
      j := j + 1;
    }
  }

  /**
   * The `for bullet in self.bullets` loop of `BulletManager.update`: each
   * bullet is updated once, and the result lists those still active, in order.
   */
  method UpdateAll(all: seq<Bullet>, dt: real) returns (activeBullets: seq<Bullet>)
    requires Distinct(all)
    modifies all
    ensures States(all) == StepAll(old(States(all)), dt)
    ensures activeBullets == Kept(all, Actives(States(all)))
  {
    ghost var initial := States(all);
    ghost var after := StepAll(initial, dt);
    activeBullets := [];
    for i := 0 to |all|
      invariant forall k :: 0 <= k < |all| ==> State(all[k]) == if k < i then after[k] else initial[k]
      invariant activeBullets == Kept(all[..i], Actives(after)[..i])
    {
      var bullet := all[i];
      bullet.Update(dt);
      KeptPrefixStep(all, Actives(after), i);
      if bullet.active {
        activeBullets := activeBullets + [bullet];
      }
    }
    assert all[..|all|] == all && Actives(after)[..|all|] == Actives(after);
    assert States(all) == after;
  }

  /** The outer loop of `check_reward_collisions` over the bullets, in order. */
  method HitAll(all: seq<Bullet>, rewards: seq<Reward.Reward>, collides: (real, real, real, real) -> bool)
    returns (collisions: seq<(nat, nat)>)
    requires Distinct(all)
    modifies all
    ensures collisions == Collisions(old(States(all)), Reward.States(rewards), collides)
    ensures States(all) == AfterHits(old(States(all)), Reward.States(rewards), collides)
    ensures Reward.States(rewards) == old(Reward.States(rewards))
  {
    ghost var initial := States(all);
    ghost var rs := Reward.States(rewards);
    ghost var after := AfterHits(initial, rs, collides);
    collisions := [];
    for i := 0 to |all|
      invariant forall k :: 0 <= k < |all| ==> State(all[k]) == if k < i then after[k] else initial[k]
      invariant collisions == Collisions(initial[..i], rs, collides)
      invariant Reward.States(rewards) == rs
    {
      CollisionsPrefixStep(initial, rs, collides, i);
      var target := CheckBullet(all[i], rewards, collides);
      if target.Some? {
        collisions := collisions + [(i, target.value)];
      }
    }
    assert initial[..|all|] == initial;
    assert States(all) == after;
  }

  /**
   * One pass of the outer loop of `check_reward_collisions`: an inactive
   * bullet is skipped; an active one that collides with an active reward
   * reports the first such reward and hits it.
   */
  method CheckBullet(bullet: Bullet, rewards: seq<Reward.Reward>, collides: (real, real, real, real) -> bool)
    returns (target: Option<nat>)
    modifies bullet
    ensures target == Report(old(State(bullet)), Reward.States(rewards), collides)
    ensures State(bullet) == if target.Some? then old(State(bullet)).(active := false) else old(State(bullet))
    ensures Reward.States(rewards) == old(Reward.States(rewards))
  {
    if !bullet.active {
      return None;
    }
    target := FindTarget(bullet.x, bullet.y, rewards, collides);
    if target.Some? {
      bullet.HitTarget();
    }
  }

  class BulletManager {
    var bullets: seq<Bullet>
    var lastFireTime: real
    var bulletsFired: nat
    var bulletsHit: nat

    /** No bullet is listed twice. */
    ghost predicate Valid()
      reads this
    {
      Distinct(bullets)
    }

    /**
     * Every hit used up a fired bullet, and every bullet still flying is a
     * fired one that has not hit: hits plus active bullets never exceed shots.
     */
    ghost predicate Accounted()
      reads this, bullets
    {
      bulletsHit + CountTrue(Actives(States(bullets))) <= bulletsFired
    }

    constructor ()
      ensures Valid() && Accounted()
      ensures bullets == [] && lastFireTime == 0.0 && bulletsFired == 0 && bulletsHit == 0
    {
      bullets := [];
      lastFireTime := 0.0;
      bulletsFired := 0;
      bulletsHit := 0;
    }

    /**
     * `fire_bullet` at time `now`: off cooldown, one new bullet starts 30
     * pixels above the character, the shot is counted and the time recorded.
     */
    method FireBullet(characterX: real, characterY: real, now: real) returns (fired: bool)
      requires Valid()
      modifies this
      ensures Valid()
      ensures fired <==> now - old(lastFireTime) >= FireCooldown
      ensures fired ==> && |bullets| == |old(bullets)| + 1 && bullets[..|old(bullets)|] == old(bullets)
                        && fresh(bullets[|old(bullets)|])
                        && States(bullets) == old(States(bullets)) + [Fired(characterX, characterY - MuzzleOffset)]
                        && bulletsFired == old(bulletsFired) + 1 && lastFireTime == now
      ensures !fired ==> bullets == old(bullets) && bulletsFired == old(bulletsFired) && lastFireTime == old(lastFireTime)
      ensures bulletsHit == old(bulletsHit)
      ensures old(Accounted()) ==> Accounted()
    {
      if now - lastFireTime >= FireCooldown {
        var bullet := new Bullet(characterX, characterY - MuzzleOffset);
        DistinctAppend(bullets, bullet);
        ghost var before := States(bullets);
        bullets := bullets + [bullet];
        assert bullets[..|old(bullets)|] == old(bullets);
        assert States(bullets) == before + [Fired(characterX, characterY - MuzzleOffset)];
        CountTrueAppend(Actives(before), true);
        assert Actives(States(bullets)) == Actives(before) + [true];
        bulletsFired := bulletsFired + 1;
        lastFireTime := now;
        return true;
      }
      return false;
    }

    /** `update(dt)`: every bullet is updated, and only the active ones are kept, in order. */
    method Update(dt: real)
      requires Valid()
      modifies this`bullets, bullets
      ensures Valid()
      ensures States(old(bullets)) == StepAll(old(States(bullets)), dt)
      ensures bullets == Kept(old(bullets), Actives(StepAll(old(States(bullets)), dt)))
      ensures forall b :: b in bullets ==> b.active
      ensures old(Accounted()) ==> Accounted()
    {
      ghost var before := States(bullets);
      var all := bullets;
      var activeBullets := UpdateAll(all, dt);
      KeptDistinct(all, Actives(States(all)));
      forall b | b in activeBullets
        ensures b.active
      {
        KeptMembers(all, Actives(States(all)), b);
      }
      bullets := activeBullets;
      KeptAll(bullets, Actives(States(bullets)));
      StepAllNeverActivates(before, dt);
    }

    /**
     * `check_reward_collisions`: the pairs are those `Collisions` lists, the
     * reporting bullets have hit their targets, and each pair counts one hit.
     * The bullet list and the rewards are unchanged.
     */
    method CheckRewardCollisions(rewards: seq<Reward.Reward>, collides: (real, real, real, real) -> bool)
      returns (collisions: seq<(nat, nat)>)
      requires Valid()
      modifies bullets, this`bulletsHit
      ensures collisions == Collisions(old(States(bullets)), Reward.States(rewards), collides)
      ensures States(bullets) == AfterHits(old(States(bullets)), Reward.States(rewards), collides)
      ensures Reward.States(rewards) == old(Reward.States(rewards))
      ensures bulletsHit == old(bulletsHit) + |collisions|
      ensures old(Accounted()) ==> Accounted()
    {
      ghost var before := States(bullets);
      collisions := HitAll(bullets, rewards, collides);
      bulletsHit := bulletsHit + |collisions|;
      HitsUseUpBullets(before, Reward.States(rewards), collides);
    }

    /** `clear_all`: no bullets; the statistics stay. */
    method ClearAll()
      modifies this`bullets
      ensures bullets == []
      ensures Valid()
      ensures old(Accounted()) ==> Accounted()
    {
      bullets := [];
    }

    /** `get_accuracy`: hits per shot as a percentage, 0 before the first shot. */
    function Accuracy(): (r: real)
      reads this
      ensures bulletsFired == 0 ==> r == 0.0
      ensures bulletsFired > 0 ==> r * bulletsFired as real == bulletsHit as real * 100.0
      ensures bulletsHit <= bulletsFired ==> 0.0 <= r <= 100.0
    {
      if bulletsFired == 0 then 0.0 else (bulletsHit as real / bulletsFired as real) * 100.0
    }

    /**
     * `reset_stats`: both counters restart at 0. Bullets still flying may
     * hit afterwards, so the accounting survives only when none is active.
     */
    method ResetStats()
      modifies this`bulletsFired, this`bulletsHit
      ensures bulletsFired == 0 && bulletsHit == 0
      ensures Accounted() <==> CountTrue(Actives(States(bullets))) == 0
    {
      bulletsFired := 0;
      bulletsHit := 0;
    }
  }

}
