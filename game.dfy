/**
 * The per-frame simulation: the session state, turning, firing, the threat
 * indicators, and one frame of the game loop (spawn, sort, advance, remove).
 */
module Game {
  import opened Enemies
  import opened Rules

  /** Places `e` after every enemy at least as far away, keeping the list farthest first. */
  method InsertByDistance(sorted: seq<Enemy>, e: Enemy) returns (r: seq<Enemy>)
    requires ByDistanceDesc(sorted)
    ensures multiset(r) == multiset(sorted) + multiset{e}
    ensures ByDistanceDesc(r)
  {
    var k := 0;
    while k < |sorted| && sorted[k].distance >= e.distance
      invariant 0 <= k <= |sorted|
      invariant forall j :: 0 <= j < k ==> sorted[j].distance >= e.distance
    {
      k := k + 1;
    }
    r := sorted[..k] + [e] + sorted[k..];
    assert sorted == sorted[..k] + sorted[k..];
    InsertedSorted(sorted, k, e);
  }

  /** Inserting at a position that follows every farther enemy and precedes every nearer one keeps the order. */
  lemma InsertedSorted(sorted: seq<Enemy>, k: int, e: Enemy)
    requires ByDistanceDesc(sorted) && 0 <= k <= |sorted|
    requires forall j :: 0 <= j < k ==> sorted[j].distance >= e.distance
    requires k < |sorted| ==> sorted[k].distance < e.distance
    ensures ByDistanceDesc(sorted[..k] + [e] + sorted[k..])
  {
    var r := sorted[..k] + [e] + sorted[k..];
    forall i | 0 <= i < |r| ensures r[i] == if i < k then sorted[i] else if i == k then e else sorted[i - 1] {
    }
  }

  /** The enemy list reordered by non-increasing distance (the comparator `b.distance - a.distance`). */
  method SortByDistance(es: seq<Enemy>) returns (sorted: seq<Enemy>)
    ensures multiset(sorted) == multiset(es)
    ensures ByDistanceDesc(sorted)
  {
    sorted := [];
    var i := 0;
    while i < |es|
      invariant 0 <= i <= |es|
      invariant multiset(sorted) == multiset(es[..i])
      invariant ByDistanceDesc(sorted)
    {
      sorted := InsertByDistance(sorted, es[i]);
      assert es[..i + 1] == es[..i] + [es[i]];
      i := i + 1;
    }
    assert es[..|es|] == es;
  }

  /** The session state of one game: score, tower hit points, wave, enemies, facing and spawn clock. */
  class State {
    var score: int
    var hp: int
    var wave: int
    var enemies: seq<Enemy>
    var dirIndex: int
    var lastTime: real
    var spawnTimer: real
    var spawnRate: int
    /** Stands for the game-over alert and page reload: once set, frames no longer advance. */
    var gameOver: bool
    /** How many enemies the session has spawned; the spawn interval is determined by it. */
    ghost var spawns: nat

    ghost predicate Valid()
      reads this`dirIndex, this`wave, this`spawnRate, this`spawns, this`hp, this`gameOver, this`score
      reads this`enemies, enemies
    {
      0 <= dirIndex <= 3 && wave >= 1 &&
      spawnRate == RateAfter(spawns) &&
      hp <= 100 && (gameOver <==> hp <= 0) &&
      0 <= score && score % 10 == 0 &&
      Distinct(enemies) &&
      forall e :: e in enemies ==> e.Valid() && 1 <= e.hp && 0.0 < e.distance
    }

    /** The wall the player faces. */
    function Facing(): Dir
      reads this
      requires 0 <= dirIndex <= 3
    {
      Directions[dirIndex]
    }

    constructor ()
      ensures Valid()
      ensures score == 0 && hp == 100 && wave == 1 && enemies == [] && dirIndex == 0
      ensures lastTime == 0.0 && spawnTimer == 0.0 && spawnRate == InitialSpawnRate && !gameOver && spawns == 0
    {
      score := 0;
      hp := 100;
      wave := 1;
      enemies := [];
      dirIndex := 0;
      lastTime := 0.0;
      spawnTimer := 0.0;
      spawnRate := InitialSpawnRate;
      gameOver := false;
      spawns := 0;
    }

    /** Turn by `dir` walls (the buttons send -1 and 1), wrapping around the four walls. */
    method Turn(dir: int)
      requires Valid()
      modifies this`dirIndex
      ensures Valid()
      ensures dirIndex == Turned(old(dirIndex), dir)
    {
      dirIndex := dirIndex + dir;
      if dirIndex < 0 {
        dirIndex := 3;
      }
      if dirIndex > 3 {
        dirIndex := 0;
      }
    }

    /**
     * The search of a shot: from the end of the list backwards, skip enemies on other
     * walls and stop at the first whose hitbox holds the aim point; -1 when there is none.
     */
    method FindTarget(aimX: real, aimY: real) returns (target: int)
      requires Valid()
      ensures -1 <= target < |enemies|
      ensures target >= 0 ==> Qualifies(enemies[target], Facing(), aimX, aimY)
      ensures forall j :: target < j < |enemies| ==> !Qualifies(enemies[j], Facing(), aimX, aimY)
      ensures target == LastQualifying(enemies, Facing(), aimX, aimY)
    {
      target := -1;
      var i := |enemies| - 1;
      while i >= 0
        invariant -1 <= i < |enemies|
        invariant target == -1
        invariant forall j :: i < j < |enemies| ==> !Qualifies(enemies[j], Facing(), aimX, aimY)
      {
        var e := enemies[i];
        if e.view == Directions[dirIndex] {
          var scale := (100.0 - e.distance) / 10.0;
          var drawY := e.y + (100.0 - e.distance) * (Height / 300.0);
          var size := 25.0 * scale;
          var dx, dy := e.x - aimX, drawY - aimY;
          if size > 0.0 && dx * dx + dy * dy < size * size {
            target := i;
            break;
          }
        }
        i := i - 1;
      }
    }

    /**
     * One shot at the aim point: the last qualifying enemy loses one hit point; if that
     * leaves it at 0 or below it is removed and the score rises by 10. A miss changes nothing.
     */
    method Shoot(aimX: real, aimY: real)
      requires Valid()
      modifies this`enemies, this`score, enemies
      ensures Valid()
      ensures var t := old(LastQualifying(enemies, Facing(), aimX, aimY));
        (t < 0 ==> enemies == old(enemies) && score == old(score)) &&
        (t >= 0 ==>
          var victim := old(enemies)[t];
          victim.hp == old(victim.hp) - 1 &&
          (victim.hp <= 0 ==> enemies == old(enemies[..t] + enemies[t + 1..]) && score == old(score) + 10) &&
          (victim.hp > 0 ==> enemies == old(enemies) && score == old(score))) &&
        (forall e :: e in old(enemies) && (t < 0 || e != old(enemies)[t]) ==> e.hp == old(e.hp))
      ensures forall e :: e in old(enemies) ==> e.distance == old(e.distance)
    {
      var t := FindTarget(aimX, aimY);
      if t >= 0 {
        HitAt(t, enemies[t]);
      }
    }

    /** The enemy at index t takes one hit; at 0 hit points or below it is removed for 10 points. */
    method HitAt(t: int, victim: Enemy)
      requires Valid() && 0 <= t < |enemies| && victim == enemies[t]
      modifies this`enemies, this`score, victim`hp
      ensures Valid()
      ensures victim.hp == old(victim.hp) - 1
      ensures victim.hp <= 0 ==> enemies == old(enemies[..t] + enemies[t + 1..]) && score == old(score) + 10
      ensures victim.hp > 0 ==> enemies == old(enemies) && score == old(score)
    {
      DistinctAt(enemies, t);
      victim.hp := victim.hp - 1;
      if victim.hp <= 0 {
        DistinctRemove(enemies, t);
        enemies := enemies[..t] + enemies[t + 1..];
        score := score + 10;
      }
    }

    /**
     * The three danger indicators: an enemy at distance 50 or less lights the indicator of
     * the side its wall lies on; enemies on the faced wall light none.
     */
    method CheckIndicators() returns (dangerL: bool, dangerR: bool, dangerB: bool)
      requires 0 <= dirIndex <= 3
      ensures dangerL <==> ThreatAt(enemies, dirIndex, ToLeft)
      ensures dangerR <==> ThreatAt(enemies, dirIndex, ToRight)
      ensures dangerB <==> ThreatAt(enemies, dirIndex, Behind)
    {
      dangerL, dangerR, dangerB := false, false, false;
      var i := 0;
      while i < |enemies|
        invariant 0 <= i <= |enemies|
        invariant dangerL <==> ThreatAt(enemies[..i], dirIndex, ToLeft)
        invariant dangerR <==> ThreatAt(enemies[..i], dirIndex, ToRight)
        invariant dangerB <==> ThreatAt(enemies[..i], dirIndex, Behind)
      {
        var e := enemies[i];
        ThreatExtend(enemies, i, dirIndex, ToLeft);
        ThreatExtend(enemies, i, dirIndex, ToRight);
        ThreatExtend(enemies, i, dirIndex, Behind);
        if e.distance <= 50.0 {
          var side := SideOf(IndexOf(e.view), dirIndex);
          if side == ToRight {
            dangerR := true;
          } else if side == ToLeft {
            dangerL := true;
          } else if side == Behind {
            dangerB := true;
          }
        }
        i := i + 1;
      }
      assert enemies[..i] == enemies;
    }

    /**
     * The spawn step of a frame: the timer grows by `dt`; once it exceeds the spawn interval
     * one enemy is added, the timer restarts at 0 and the interval decays.
     */
    method Spawn(dt: real, typeRoll: real, viewRoll: real, xRoll: real) returns (ghost spawned: seq<Enemy>)
      requires Valid()
      requires 0.0 <= typeRoll < 1.0 && 0.0 <= viewRoll < 1.0 && 0.0 <= xRoll < 1.0
      modifies this`enemies, this`spawnTimer, this`spawnRate, this`spawns
      ensures Valid()
      ensures enemies == old(enemies) + spawned && spawns == old(spawns) + |spawned|
      ensures |spawned| == if old(spawnTimer) + dt > old(spawnRate) as real then 1 else 0
      ensures forall e :: e in spawned ==> fresh(e) && e.CreatedAs(Width, Height, wave, typeRoll, viewRoll, xRoll)
      ensures old(spawnTimer) + dt > old(spawnRate) as real ==>
        |enemies| == |old(enemies)| + 1 && enemies[..|old(enemies)|] == old(enemies) &&
        fresh(enemies[|old(enemies)|]) &&
        enemies[|old(enemies)|].CreatedAs(Width, Height, wave, typeRoll, viewRoll, xRoll) &&
        spawnTimer == 0.0 && spawnRate == DecayedRate(old(spawnRate))
      ensures old(spawnTimer) + dt <= old(spawnRate) as real ==>
        enemies == old(enemies) && spawnTimer == old(spawnTimer) + dt && spawnRate == old(spawnRate)
    {
      spawned := [];
      spawnTimer := spawnTimer + dt;
      if spawnTimer > spawnRate as real {
        var e := new Enemy(Width, Height, wave, typeRoll, viewRoll, xRoll);
        AddEnemy(e);
        spawned := [e];
        RestartTimer();
      }
    }

    /** After a spawn the timer restarts at 0 and the interval decays by one step. */
    method RestartTimer()
      requires Valid()
      modifies this`spawnTimer, this`spawnRate, this`spawns
      ensures Valid()
      ensures spawnTimer == 0.0 && spawnRate == DecayedRate(old(spawnRate)) && spawns == old(spawns) + 1
    {
      spawns := spawns + 1;
      spawnTimer := 0.0;
      if spawnRate > MinSpawnRate {
        spawnRate := spawnRate - 10;
      }
    }

    /** Appends a newly made enemy at the end of the list. */
    method AddEnemy(e: Enemy)
      requires Valid() && e !in enemies
      requires e.Valid() && 1 <= e.hp && 0.0 < e.distance
      modifies this`enemies
      ensures Valid()
      ensures enemies == old(enemies) + [e]
    {
      ghost var before := enemies;
      DistinctAppend(enemies, e);
      enemies := enemies + [e];
      forall x | x in enemies ensures x.Valid() && 1 <= x.hp && 0.0 < x.distance {
        if x != e {
          assert x in before;
        }
      }
    }

    /** Orders the enemies farthest first, so that the backward pass meets the nearest first. */
    method SortEnemies()
      requires Valid()
      modifies this`enemies
      ensures Valid()
      ensures multiset(enemies) == multiset(old(enemies))
      ensures ByDistanceDesc(enemies)
      ensures |enemies| == |old(enemies)|
      ensures forall e :: e in enemies <==> e in old(enemies)
    {
      var sorted := SortByDistance(enemies);
      DistinctPermutation(enemies, sorted);
      assert |sorted| == |enemies| by {
        assert |multiset(sorted)| == |multiset(enemies)|;
      }
      forall e | e in sorted ensures e in enemies {
        assert e in multiset(sorted);
      }
      forall e | e in enemies ensures e in sorted {
        assert e in multiset(enemies);
      }
      enemies := sorted;
    }

    /**
     * The enemy step of a frame: from the end of the list backwards, every enemy moves once;
     * one that reaches distance 0 or below is removed and costs the tower 10 hit points,
     * and the game is over once the tower is at 0 or below.
     */
    method AdvanceEnemies()
      requires Valid()
      modifies this`enemies, this`hp, this`gameOver, enemies
      ensures Valid()
      ensures forall e :: e in old(enemies) ==> e.distance == old(e.distance) - e.speed && e.hp == old(e.hp)
      ensures enemies == Survivors(old(enemies))
      ensures forall e :: e in old(enemies) ==> (e in enemies <==> e.distance > 0.0)
      ensures forall e :: e in enemies ==> e in old(enemies)
      ensures hp == old(hp) - 10 * (|old(enemies)| - |enemies|)
    {
      ghost var all := enemies;
      AdvanceBackwards(all);
      SurvivorsMembers(all);
      SurvivorsDistinct(all);
      forall e | e in enemies ensures e.Valid() && 1 <= e.hp && 0.0 < e.distance {
        assert e in all && old(e.Valid());
      }
    }

    /** The backward pass of the enemy step, stated index by index over the list it starts from. */
    method AdvanceBackwards(ghost all: seq<Enemy>)
      requires enemies == all && Distinct(all)
      requires forall k :: 0 <= k < |all| ==> all[k].Valid()
      requires gameOver <==> hp <= 0
      modifies this`enemies, this`hp, this`gameOver, all
      ensures enemies == Survivors(all)
      ensures forall k :: 0 <= k < |all| ==> all[k].distance == old(all[k].distance) - all[k].speed
      ensures forall k :: 0 <= k < |all| ==> all[k].hp == old(all[k].hp)
      ensures hp == old(hp) - 10 * (|all| - |enemies|)
      ensures gameOver <==> hp <= 0
    {
      var i := |enemies|;
      while i > 0
        invariant 0 <= i <= |all|
        invariant enemies == all[..i] + Survivors(all[i..])
        invariant forall k :: 0 <= k < i ==> all[k].distance == old(all[k].distance)
        invariant forall k :: i <= k < |all| ==> all[k].distance == old(all[k].distance) - all[k].speed
        invariant forall k :: 0 <= k < |all| ==> all[k].hp == old(all[k].hp)
        invariant hp == old(hp) - 10 * (|all| - |enemies|)
        invariant gameOver <==> hp <= 0
      {
        i := i - 1;
        SpliceAt(all, i, Survivors(all[i + 1..]));
        DistinctAt(all, i);
        assert old(all[i].Valid());
        AdvanceAt(i, enemies[i], all);
      }
      assert all[0..] == all;
    }

    /**
     * One step of the backward pass, at index i: the enemy there moves once and, if it
     * reached the tower, is spliced out and costs the tower 10 hit points.
     */
    method AdvanceAt(i: int, e: Enemy, ghost all: seq<Enemy>)
      requires 0 <= i < |all| && e == all[i] && Distinct(all) && e.Valid()
      requires enemies == all[..i + 1] + Survivors(all[i + 1..])
      requires gameOver <==> hp <= 0
      modifies this`enemies, this`hp, this`gameOver, e`distance
      ensures enemies == all[..i] + Survivors(all[i..])
      ensures e.distance == old(e.distance) - e.speed
      ensures hp == old(hp) - 10 * (|old(enemies)| - |enemies|)
      ensures gameOver <==> hp <= 0
    {
      ghost var rest := Survivors(all[i + 1..]);
      DistinctAt(all, i);
      e.Update();
      assert Survivors(all[i + 1..]) == rest;
      SurvivorsFrom(all, i);
      if e.distance <= 0.0 {
        RemoveAt(i, all, rest);
      } else {
        SpliceAt(all, i, rest);
      }
    }

    /** Splices out the enemy at index i, which reached the tower: the tower loses 10 hit points. */
    method RemoveAt(i: int, ghost all: seq<Enemy>, ghost rest: seq<Enemy>)
      requires 0 <= i < |all| && enemies == all[..i + 1] + rest
      requires gameOver <==> hp <= 0
      modifies this`enemies, this`hp, this`gameOver
      ensures enemies == all[..i] + rest && |enemies| == |old(enemies)| - 1
      ensures hp == old(hp) - 10
      ensures gameOver <==> hp <= 0
    {
      SpliceAt(all, i, rest);
      hp := hp - 10;
      enemies := enemies[..i] + enemies[i + 1..];
      if hp <= 0 {
        gameOver := true;
      }
    }

    /**
     * The enemy part of a frame: the list is sorted farthest first, then every enemy moves
     * once and those that reached the tower are removed, each costing it 10 hit points.
     */
    method MoveEnemies() returns (ghost sorted: seq<Enemy>)
      requires Valid()
      modifies this`enemies, this`hp, this`gameOver, enemies
      ensures Valid()
      ensures multiset(sorted) == multiset(old(enemies))
      ensures ByDistanceBeforeMoveDesc(sorted)
      ensures enemies == Survivors(sorted)
      ensures forall e :: e in old(enemies) ==>
        e.distance == old(e.distance) - e.speed && e.hp == old(e.hp) && (e in enemies <==> e.distance > 0.0)
      ensures forall e :: e in enemies ==> e in old(enemies)
      ensures |enemies| <= |old(enemies)|
      ensures hp == old(hp) - 10 * (|old(enemies)| - |enemies|)
    {
      ghost var pool := enemies;
      SortEnemies();
      sorted := enemies;
      assert forall k :: 0 <= k < |sorted| ==> sorted[k] in pool;
      label Sorted:
      AdvanceEnemies();
      MovedOrder@Sorted(sorted);
    }

    /**
     * The spawn and enemy steps of a frame that lasted `dt`: `spawned` is the enemy added,
     * if any, and `sorted` the list in the order the advance pass saw it.
     */
    method SpawnAndMove(dt: real, typeRoll: real, viewRoll: real, xRoll: real)
      returns (ghost spawned: seq<Enemy>, ghost sorted: seq<Enemy>)
      requires Valid()
      requires 0.0 <= typeRoll < 1.0 && 0.0 <= viewRoll < 1.0 && 0.0 <= xRoll < 1.0
      modifies this`enemies, this`hp, this`gameOver, this`spawnTimer, this`spawnRate, this`spawns, enemies
      ensures Valid()
      ensures var due := old(spawnTimer) + dt > old(spawnRate) as real;
        spawnRate == (if due then DecayedRate(old(spawnRate)) else old(spawnRate)) &&
        spawnTimer == (if due then 0.0 else old(spawnTimer) + dt) &&
        |spawned| == (if due then 1 else 0) && spawns == old(spawns) + |spawned|
      ensures hp == old(hp) - 10 * (|old(enemies)| + |spawned| - |enemies|)
      ensures forall e :: e in old(enemies) ==>
        e.distance == old(e.distance) - e.speed && e.hp == old(e.hp) && (e in enemies <==> e.distance > 0.0)
      ensures forall e :: e in spawned ==>
        fresh(e) && e.Rolled(Width, Height, wave, typeRoll, viewRoll, xRoll) &&
        e.hp == e.maxHp && e.distance == 100.0 - e.speed && (e in enemies <==> e.distance > 0.0)
      ensures forall e :: e in enemies ==> e in old(enemies) || e in spawned
      ensures multiset(sorted) == multiset(old(enemies)) + multiset(spawned)
      ensures enemies == Survivors(sorted) && ByDistanceBeforeMoveDesc(sorted)
    {
      spawned := Spawn(dt, typeRoll, viewRoll, xRoll);
      ghost var pool := enemies;
      assert forall k :: 0 <= k < |pool| ==> pool[k] in old(enemies) || fresh(pool[k]);
      sorted := MoveEnemies();
    }

    /**
     * One frame of the game loop at time `timestamp`: spawn, sort, advance and remove, then
     * the indicators. Once the game is over a frame changes nothing.
     */
    method Step(timestamp: real, typeRoll: real, viewRoll: real, xRoll: real)
      returns (dangerL: bool, dangerR: bool, dangerB: bool, ghost spawned: seq<Enemy>, ghost sorted: seq<Enemy>)
      requires Valid()
      requires 0.0 <= typeRoll < 1.0 && 0.0 <= viewRoll < 1.0 && 0.0 <= xRoll < 1.0
      modifies this, enemies
      ensures Valid()
      ensures old(gameOver) ==> unchanged(this) && !dangerL && !dangerR && !dangerB && spawned == []
      ensures old(gameOver) ==> forall e :: e in old(enemies) ==> unchanged(e)
      ensures !old(gameOver) ==>
        var due := old(spawnTimer) + (timestamp - old(lastTime)) > old(spawnRate) as real;
        lastTime == timestamp && score == old(score) && dirIndex == old(dirIndex) && wave == old(wave) &&
        spawnRate == (if due then DecayedRate(old(spawnRate)) else old(spawnRate)) &&
        spawnTimer == (if due then 0.0 else old(spawnTimer) + (timestamp - old(lastTime))) &&
        |spawned| == (if due then 1 else 0) && spawns == old(spawns) + |spawned| &&
        hp == old(hp) - 10 * (|old(enemies)| + |spawned| - |enemies|) &&
        (dangerL <==> ThreatAt(enemies, dirIndex, ToLeft)) &&
        (dangerR <==> ThreatAt(enemies, dirIndex, ToRight)) &&
        (dangerB <==> ThreatAt(enemies, dirIndex, Behind))
      ensures !old(gameOver) ==> forall e :: e in old(enemies) ==>
        e.distance == old(e.distance) - e.speed && e.hp == old(e.hp) && (e in enemies <==> e.distance > 0.0)
      ensures !old(gameOver) ==> forall e :: e in spawned ==>
        fresh(e) && e.Rolled(Width, Height, wave, typeRoll, viewRoll, xRoll) &&
        e.hp == e.maxHp && e.distance == 100.0 - e.speed && (e in enemies <==> e.distance > 0.0)
      ensures !old(gameOver) ==> forall e :: e in enemies ==> e in old(enemies) || e in spawned
      ensures !old(gameOver) ==>
        multiset(sorted) == multiset(old(enemies)) + multiset(spawned) &&
        enemies == Survivors(sorted) && ByDistanceBeforeMoveDesc(sorted)
    {
      spawned, sorted := [], enemies;
      if gameOver {
        return false, false, false, spawned, sorted;
      }
      var dt := timestamp - lastTime;
      lastTime := timestamp;
      spawned, sorted := SpawnAndMove(dt, typeRoll, viewRoll, xRoll);
      dangerL, dangerR, dangerB := CheckIndicators();
    }
  }
}
