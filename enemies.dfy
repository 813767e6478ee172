/**
 * The enemy model: the fixed table of enemy types, the wave gate that decides
 * which types may appear, the wave scaling of hit points and speed, and the
 * Enemy object that walks towards the tower one frame at a time.
 */
module Enemies {

  /** The four walls an enemy can approach from, in the game's order N, E, S, W. */
  datatype Dir = N | E | S | W

  const Directions: seq<Dir> := [N, E, S, W]

  /** Position of a wall in Directions (what `indexOf` on the directions list gives). */
  function IndexOf(d: Dir): (i: nat)
    ensures i < |Directions| && Directions[i] == d
    ensures forall j :: 0 <= j < |Directions| && Directions[j] == d ==> j == i
  {
    match d
    case N => 0
    case E => 1
    case S => 2
    case W => 3
  }

  /** One row of the enemy table. `symbol` is only drawn; `flyHeight` only shifts the drawing. */
  datatype EnemyType = EnemyType(
    id: string,
    symbol: string,
    hp: int,
    speed: real,
    size: real,
    flyHeight: int,
    minWave: int,
    xp: int)

  const Imp := EnemyType("imp", "👿", 1, 0.3, 0.8, 0, 1, 5)
  const Zombie := EnemyType("zombie", "🧟", 2, 0.15, 1.0, 0, 1, 10)
  const Ghost := EnemyType("ghost", "👻", 2, 0.2, 1.0, 40, 3, 15)
  const Ogre := EnemyType("ogre", "👹", 5, 0.1, 1.5, 0, 4, 25)
  const Golem := EnemyType("golem", "🗿", 10, 0.05, 1.8, 0, 6, 50)
  const Dragon := EnemyType("dragon", "🐉", 20, 0.08, 2.2, 80, 10, 200)

  const EnemyTypes: seq<EnemyType> := [Imp, Zombie, Ghost, Ogre, Golem, Dragon]

  /** The types of `ts` that a wave may produce, in table order (the `filter` of the constructor). */
  function Eligible(ts: seq<EnemyType>, wave: int): (r: seq<EnemyType>)
    ensures |r| <= |ts|
    ensures forall t :: t in r <==> t in ts && t.minWave <= wave
  {
    if ts == [] then []
    else (if ts[0].minWave <= wave then [ts[0]] else []) + Eligible(ts[1..], wave)
  }

  function Allowed(wave: int): seq<EnemyType>
  {
    Eligible(EnemyTypes, wave)
  }

  /** The table is ordered by the wave that unlocks each type. */
  ghost predicate UnlockOrdered(ts: seq<EnemyType>)
  {
    forall i, j :: 0 <= i < j < |ts| ==> ts[i].minWave <= ts[j].minWave
  }

  lemma UnlockOrderedTail(ts: seq<EnemyType>)
    requires UnlockOrdered(ts) && ts != []
    ensures UnlockOrdered(ts[1..])
  {
    forall i, j | 0 <= i < j < |ts[1..]| ensures ts[1..][i].minWave <= ts[1..][j].minWave {
      assert ts[1..][i] == ts[i + 1] && ts[1..][j] == ts[j + 1];
    }
  }

  /** On a table ordered by unlock wave, the eligible types form a prefix of the table. */
  lemma {:induction false} EligibleIsPrefix(ts: seq<EnemyType>, wave: int)
    requires UnlockOrdered(ts)
    ensures |Eligible(ts, wave)| <= |ts|
    ensures Eligible(ts, wave) == ts[..|Eligible(ts, wave)|]
  {
    if ts != [] {
      UnlockOrderedTail(ts);
      EligibleIsPrefix(ts[1..], wave);
      if ts[0].minWave <= wave {
        PrefixCons(ts, Eligible(ts[1..], wave));
      } else {
        TailNoneEligible(ts, wave);
      }
    }
  }

  lemma PrefixCons<T>(ts: seq<T>, rest: seq<T>)
    requires ts != [] && |rest| < |ts| && rest == ts[1..][..|rest|]
    ensures [ts[0]] + rest == ts[..|rest| + 1]
  {
  }

  /** When the first type of an ordered table is still locked, so is every later one. */
  lemma TailNoneEligible(ts: seq<EnemyType>, wave: int)
    requires UnlockOrdered(ts) && ts != [] && ts[0].minWave > wave
    ensures Eligible(ts[1..], wave) == []
  {
    forall t | t in ts[1..] ensures t.minWave > wave {
      var j :| 0 <= j < |ts[1..]| && ts[1..][j] == t;
      assert ts[j + 1] == t;
    }
    NoneEligible(ts[1..], wave);
  }

  /** A table whose every type unlocks after `wave` has nothing eligible for it. */
  lemma {:induction false} NoneEligible(ts: seq<EnemyType>, wave: int)
    requires forall t :: t in ts ==> t.minWave > wave
    ensures Eligible(ts, wave) == []
  {
    if ts != [] {
      assert ts[0] in ts;
      NoneEligible(ts[1..], wave);
    }
  }

  /** How many table rows a wave unlocks: imp and zombie at 1, ghost at 3, ogre at 4, golem at 6, dragon at 10. */
  function Unlocked(wave: int): nat
  {
    if wave < 1 then 0
    else if wave < 3 then 2
    else if wave < 4 then 3
    else if wave < 6 then 4
    else if wave < 10 then 5
    else 6
  }

  /** Row i of the table is unlocked by a wave exactly when i is below that wave's Unlocked count. */
  lemma RowUnlocked(wave: int, i: int)
    requires 0 <= i < |EnemyTypes|
    ensures EnemyTypes[i].minWave <= wave <==> i < Unlocked(wave)
  {
  }

  /** No row of the table appears earlier in the table: their experience values strictly grow. */
  lemma RowNotInPrefix(i: int, k: int)
    requires 0 <= k <= i < |EnemyTypes|
    ensures EnemyTypes[i] !in EnemyTypes[..k]
  {
    forall j | 0 <= j < k ensures EnemyTypes[j].xp < EnemyTypes[i].xp {
    }
  }

  /** The table is ordered by unlock wave and the types a wave may produce are a prefix of it. */
  lemma AllowedIsPrefix(wave: int)
    ensures |Allowed(wave)| <= |EnemyTypes|
    ensures Allowed(wave) == EnemyTypes[..|Allowed(wave)|]
  {
    assert UnlockOrdered(EnemyTypes);
    EligibleIsPrefix(EnemyTypes, wave);
  }

  /** Row Unlocked(wave) - 1 is unlocked, so the prefix is at least that long. */
  lemma AllowedNotShort(wave: int)
    ensures |Allowed(wave)| >= Unlocked(wave)
  {
    AllowedIsPrefix(wave);
    var r := Allowed(wave);
    var u := Unlocked(wave);
    if |r| < u {
      RowUnlocked(wave, u - 1);
      assert EnemyTypes[u - 1] in r;
      RowNotInPrefix(u - 1, |r|);
      assert false;
    }
  }

  /** Row Unlocked(wave) is locked, so the prefix is at most that long. */
  lemma AllowedNotLong(wave: int)
    ensures |Allowed(wave)| <= Unlocked(wave)
  {
    AllowedIsPrefix(wave);
    var r := Allowed(wave);
    var u := Unlocked(wave);
    if |r| > u {
      RowUnlocked(wave, u);
      assert false;
    }
  }

  /** The exact list of types a wave may produce. */
  lemma AllowedSchedule(wave: int)
    ensures Allowed(wave) == EnemyTypes[..Unlocked(wave)]
  {
    AllowedIsPrefix(wave);
    AllowedNotShort(wave);
    AllowedNotLong(wave);
  }

  /** Waves 1 and 2 produce only imps and zombies. */
  lemma EarlyWaves(wave: int)
    requires 1 <= wave <= 2
    ensures Allowed(wave) == [Imp, Zombie]
  {
    AllowedSchedule(wave);
  }

  /** From wave 1 on there is always a type to choose: imp and zombie are both unlocked at wave 1. */
  lemma AllowedNonEmpty(wave: int)
    requires wave >= 1
    ensures Imp in Allowed(wave) && Zombie in Allowed(wave) && |Allowed(wave)| >= 2
  {
    AllowedSchedule(wave);
  }

  /** The wave at which each of the later types first appears. */
  lemma UnlockWaves(wave: int)
    ensures Ghost in Allowed(wave) <==> wave >= 3
    ensures Ogre in Allowed(wave) <==> wave >= 4
    ensures Golem in Allowed(wave) <==> wave >= 6
    ensures Dragon in Allowed(wave) <==> wave >= 10
  {
  }

  /** `Math.floor(roll * n)` for a roll in [0, 1): always an index into a list of length n. */
  function RollIndex(roll: real, n: nat): (k: nat)
    requires 0.0 <= roll < 1.0 && n > 0
    ensures k < n
    ensures k as real <= roll * n as real < k as real + 1.0
  {
    assert roll * n as real < n as real by {
      assert (1.0 - roll) * n as real > 0.0;
    }
    (roll * n as real).Floor
  }

  /**
   * The type the constructor picks for a wave and a roll: row Floor(roll * n) of the
   * table, where n is the number of rows the wave has unlocked.
   */
  function ChooseType(wave: int, roll: real): (t: EnemyType)
    requires wave >= 1 && 0.0 <= roll < 1.0
    ensures t in EnemyTypes && t.minWave <= wave
  {
    var k := RollIndex(roll, Unlocked(wave));
    RowUnlocked(wave, k);
    EnemyTypes[k]
  }

  /** ChooseType is the constructor's pick: index the filtered table at Floor(roll * its length). */
  lemma ChooseTypeIsFilterPick(wave: int, roll: real)
    requires wave >= 1 && 0.0 <= roll < 1.0
    ensures |Allowed(wave)| > 0
    ensures ChooseType(wave, roll) == Allowed(wave)[RollIndex(roll, |Allowed(wave)|)]
  {
    AllowedSchedule(wave);
  }

  /** Hit points at creation: the table value plus one per five completed waves. */
  function MaxHpAt(t: EnemyType, wave: int): (hp: int)
    ensures wave >= 0 ==> hp >= t.hp
    ensures (hp - t.hp) * 5 <= wave < (hp - t.hp) * 5 + 5
  {
    t.hp + wave / 5
  }

  /** Speed at creation: the table value plus 0.02 per wave. */
  function SpeedAt(t: EnemyType, wave: int): (s: real)
    ensures wave >= 1 ==> s > t.speed
  {
    t.speed + wave as real * 0.02
  }

  /** Every type of the table is created with positive hit points and positive speed from wave 1 on. */
  lemma CreationBounds(t: EnemyType, wave: int)
    requires t in EnemyTypes && wave >= 1
    ensures MaxHpAt(t, wave) >= 1
    ensures SpeedAt(t, wave) > 0.0
  {
  }

  /** For a fixed type, a later wave gives a strictly faster enemy. */
  lemma SpeedIncreasing(t: EnemyType, w1: int, w2: int)
    requires w1 < w2
    ensures SpeedAt(t, w1) < SpeedAt(t, w2)
  {
  }

  /** Distance left after `n` frames of moving `speed` closer from `start`. */
  function Advanced(start: real, speed: real, n: nat): real
  {
    if n == 0 then start else Advanced(start, speed, n - 1) - speed
  }

  /** n subtractions of `speed` from `start` leave `start - n * speed`. */
  lemma {:induction false} AdvancedClosedForm(start: real, speed: real, n: nat)
    ensures Advanced(start, speed, n) == start - n as real * speed
  {
    if n > 0 {
      AdvancedClosedForm(start, speed, n - 1);
    }
  }

  /** With positive speed, every further update brings the enemy strictly closer. */
  lemma AdvancedDecreasing(start: real, speed: real, m: nat, n: nat)
    requires speed > 0.0 && m < n
    ensures Advanced(start, speed, n) < Advanced(start, speed, m)
  {
    AdvancedClosedForm(start, speed, m);
    AdvancedClosedForm(start, speed, n);
  }

  /** Below wave 4985 every type is slower than 100 a frame, so a new enemy outlives the frame it spawns in. */
  lemma FirstFrameSurvived(t: EnemyType, wave: int)
    requires t in EnemyTypes && 1 <= wave < 4985
    ensures 0.0 < SpeedAt(t, wave) < 100.0
    ensures Advanced(100.0, SpeedAt(t, wave), 1) > 0.0
  {
  }

  /** One enemy on the field. Only its hit points and its distance change after creation. */
  class Enemy {
    const symbol: string
    const maxHp: int
    var hp: int
    const baseSpeed: real
    const sizeMult: real
    const flyHeight: int
    const xpValue: int
    const viewIndex: int
    const view: Dir
    const x: real
    const y: real
    var distance: real
    const speed: real

    ghost predicate Valid()
      reads this
    {
      1 <= maxHp && hp <= maxHp && speed > 0.0 && distance <= 100.0
    }

    /**
     * The enemy holds the attributes the constructor gives for `wave` on a `width` by
     * `height` screen and three rolls: the type's stats scaled by the wave, the wall at
     * index Floor(4 * viewRoll), x = xRoll * width, y on the horizon and distance 100.
     */
    ghost predicate CreatedAs(width: real, height: real, wave: int, typeRoll: real, viewRoll: real, xRoll: real)
      reads this
      requires wave >= 1
      requires 0.0 <= typeRoll < 1.0 && 0.0 <= viewRoll < 1.0 && 0.0 <= xRoll < 1.0
    {
      Rolled(width, height, wave, typeRoll, viewRoll, xRoll) &&
      hp == maxHp && distance == 100.0
    }

    /** The attributes that never change after creation are those rolled for `wave` (see CreatedAs). */
    ghost predicate Rolled(width: real, height: real, wave: int, typeRoll: real, viewRoll: real, xRoll: real)
      reads this
      requires wave >= 1
      requires 0.0 <= typeRoll < 1.0 && 0.0 <= viewRoll < 1.0 && 0.0 <= xRoll < 1.0
    {
      var t := ChooseType(wave, typeRoll);
      symbol == t.symbol && maxHp == MaxHpAt(t, wave) &&
      baseSpeed == t.speed && sizeMult == t.size && flyHeight == t.flyHeight &&
      xpValue == t.xp && speed == SpeedAt(t, wave) &&
      viewIndex == RollIndex(viewRoll, |Directions|) && view == Directions[viewIndex] &&
      x == xRoll * width && y == height / 2.0
    }

    /** A new enemy for `wave` on a `width` by `height` screen; the three rolls stand for `Math.random()`. */
    constructor (width: real, height: real, wave: int, typeRoll: real, viewRoll: real, xRoll: real)
      requires wave >= 1
      requires 0.0 <= typeRoll < 1.0 && 0.0 <= viewRoll < 1.0 && 0.0 <= xRoll < 1.0
      ensures Valid() && CreatedAs(width, height, wave, typeRoll, viewRoll, xRoll)
      ensures 1 <= hp == maxHp && distance == 100.0
      ensures 0 <= viewIndex < |Directions| && view == Directions[viewIndex]
      ensures width > 0.0 ==> 0.0 <= x < width
    {
      var t := ChooseType(wave, typeRoll);
      CreationBounds(t, wave);
      symbol := t.symbol;
      maxHp := MaxHpAt(t, wave);
      hp := maxHp;
      baseSpeed := t.speed;
      sizeMult := t.size;
      flyHeight := t.flyHeight;
      xpValue := t.xp;
      var v := RollIndex(viewRoll, |Directions|);
      viewIndex := v;
      view := Directions[v];
      x := xRoll * width;
      y := height / 2.0;
      distance := 100.0;
      speed := SpeedAt(t, wave);
      new;
      assert width > 0.0 ==> xRoll * width < width by {
        assert width > 0.0 ==> (1.0 - xRoll) * width > 0.0;
      }
    }

    /** One frame of approach: the enemy moves `speed` closer and nothing else changes. */
    method Update()
      requires Valid()
      modifies this`distance
      ensures Valid()
      ensures distance == old(distance) - speed
      ensures distance < old(distance)
    {
      distance := distance - speed;
    }
  }
}
