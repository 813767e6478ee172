/**
 * The rules of the game loop that are plain computations: turning between the
 * four walls, the side a threat comes from, the hitbox of an enemy, which
 * enemy a shot hits, which enemies survive a frame, and the spawn-rate decay.
 */
module Rules {
  import opened Enemies

  /** The fixed canvas size of the game. */
  const Width: real := 375.0
  const Height: real := 667.0

  /** The first interval between spawns, and the floor the decay stops at, in milliseconds. */
  const InitialSpawnRate: int := 2000
  const MinSpawnRate: int := 600

  // ---------------------------------------------------------------- facing

  /** `turn(dir)`: add dir to the facing index, wrapping below 0 to 3 and above 3 to 0. */
  function Turned(dirIndex: int, dir: int): (r: int)
    ensures 0 <= r <= 3
    ensures 0 <= dirIndex + dir <= 3 ==> r == dirIndex + dir
  {
    var i := dirIndex + dir;
    if i < 0 then 3 else if i > 3 then 0 else i
  }

  /** For the two deltas the navigation buttons send, turning is addition modulo 4. */
  lemma TurnIsModular(dirIndex: int, dir: int)
    requires 0 <= dirIndex <= 3 && (dir == 1 || dir == -1)
    ensures Turned(dirIndex, dir) == (dirIndex + dir) % 4
  {
  }

  /** Turning right and then left (or left and then right) faces the original wall again. */
  lemma TurnRoundTrip(dirIndex: int)
    requires 0 <= dirIndex <= 3
    ensures Turned(Turned(dirIndex, 1), -1) == dirIndex
    ensures Turned(Turned(dirIndex, -1), 1) == dirIndex
  {
  }

  /** The facing index after n presses of the same button. */
  function TurnedTimes(dirIndex: int, dir: int, n: nat): int
  {
    if n == 0 then dirIndex else Turned(TurnedTimes(dirIndex, dir, n - 1), dir)
  }

  /** n presses of the right button advance the facing by n walls, modulo 4. */
  lemma {:induction false} TurnRightTimes(dirIndex: int, n: nat)
    requires 0 <= dirIndex <= 3
    ensures TurnedTimes(dirIndex, 1, n) == (dirIndex + n) % 4
  {
    if n > 0 {
      TurnRightTimes(dirIndex, n - 1);
      TurnIsModular(TurnedTimes(dirIndex, 1, n - 1), 1);
    }
  }

  /** Four presses of the right button face the starting wall again. */
  lemma FourTurnsRight(dirIndex: int)
    requires 0 <= dirIndex <= 3
    ensures TurnedTimes(dirIndex, 1, 4) == dirIndex
  {
    TurnRightTimes(dirIndex, 4);
  }

  // ---------------------------------------------------------------- threat indicators

  /** Where a wall lies relative to the facing: in view, to the right, to the left or behind. */
  datatype Side = Ahead | ToRight | ToLeft | Behind

  /**
   * The indicator arithmetic: the index difference, with -3 read as 1 and 3 read as -1;
   * 1 is right, -1 is left and a magnitude of 2 is behind.
   */
  function SideOf(enemyIndex: int, dirIndex: int): (s: Side)
    requires 0 <= enemyIndex <= 3 && 0 <= dirIndex <= 3
    ensures s == Ahead <==> enemyIndex == dirIndex
    ensures s == ToRight <==> enemyIndex == (dirIndex + 1) % 4
    ensures s == ToLeft <==> enemyIndex == (dirIndex + 3) % 4
    ensures s == Behind <==> enemyIndex == (dirIndex + 2) % 4
  {
    var raw := enemyIndex - dirIndex;
    var diff := if raw == -3 then 1 else if raw == 3 then -1 else raw;
    if diff == 1 then ToRight
    else if diff == -1 then ToLeft
    else if diff == 2 || diff == -2 then Behind
    else Ahead
  }

  /** Only enemies at distance 50 or closer light an indicator. */
  predicate Near(e: Enemy)
    reads e
  {
    e.distance <= 50.0
  }

  /** Some near enemy of `es` stands on the wall at side `s` of facing `dirIndex`. */
  ghost predicate ThreatAt(es: seq<Enemy>, dirIndex: int, s: Side)
    reads es
    requires 0 <= dirIndex <= 3
  {
    exists i :: 0 <= i < |es| && Near(es[i]) && SideOf(IndexOf(es[i].view), dirIndex) == s
  }

  /** Scanning one more enemy: a threat among the first i + 1 is one among the first i or that enemy. */
  lemma ThreatExtend(es: seq<Enemy>, i: int, dirIndex: int, s: Side)
    requires 0 <= i < |es| && 0 <= dirIndex <= 3
    ensures ThreatAt(es[..i + 1], dirIndex, s) <==>
      ThreatAt(es[..i], dirIndex, s) || (Near(es[i]) && SideOf(IndexOf(es[i].view), dirIndex) == s)
  {
    assert es[..i + 1][i] == es[i];
    if ThreatAt(es[..i + 1], dirIndex, s) && !(Near(es[i]) && SideOf(IndexOf(es[i].view), dirIndex) == s) {
      var j :| 0 <= j < i + 1 && Near(es[..i + 1][j]) && SideOf(IndexOf(es[..i + 1][j].view), dirIndex) == s;
      assert es[..i][j] == es[j];
    }
    if ThreatAt(es[..i], dirIndex, s) {
      var j :| 0 <= j < i && Near(es[..i][j]) && SideOf(IndexOf(es[..i][j].view), dirIndex) == s;
      assert es[..i + 1][j] == es[j];
    }
  }

  // ---------------------------------------------------------------- hit test

  /** How far an enemy has come, as a drawing scale: 0 at spawn, 10 at the tower. */
  function Scale(distance: real): real
  {
    (100.0 - distance) / 10.0
  }

  /** Radius of an enemy's circular hitbox; zero at spawn and growing as it approaches. */
  function HitSize(distance: real): (size: real)
    ensures size > 0.0 <==> distance < 100.0
    ensures distance == 100.0 ==> size == 0.0
  {
    25.0 * Scale(distance)
  }

  /** A nearer enemy has a strictly larger hitbox. */
  lemma HitSizeGrows(nearer: real, farther: real)
    requires nearer < farther
    ensures HitSize(nearer) > HitSize(farther)
  {
  }

  /** Screen height of the hitbox centre: it sinks below the horizon as the enemy approaches. */
  function DrawY(y: real, distance: real): real
  {
    y + (100.0 - distance) * (Height / 300.0)
  }

  /** The point (dx, dy) from the centre lies strictly inside a circle of radius `size`. */
  predicate InCircle(dx: real, dy: real, size: real)
  {
    size > 0.0 && dx * dx + dy * dy < size * size
  }

  /** `Math.hypot(dx, dy) < size`, for h the hypotenuse, is exactly InCircle. */
  lemma HypotTest(h: real, dx: real, dy: real, size: real)
    requires h >= 0.0 && h * h == dx * dx + dy * dy
    ensures h < size <==> InCircle(dx, dy, size)
  {
    if h < size {
      assert h * (size - h) >= 0.0;
      assert size * (size - h) > 0.0;
      assert h * h < size * size;
    }
  }

  /** The aim point lies inside the enemy's hitbox around its projected position. */
  predicate InHitbox(e: Enemy, aimX: real, aimY: real)
    reads e
  {
    InCircle(e.x - aimX, DrawY(e.y, e.distance) - aimY, HitSize(e.distance))
  }

  /** An enemy a shot at the aim point can hit: on the faced wall and inside its hitbox. */
  predicate Qualifies(e: Enemy, facing: Dir, aimX: real, aimY: real)
    reads e
  {
    e.view == facing && InHitbox(e, aimX, aimY)
  }

  /** An enemy that has not yet moved from its spawn point cannot be hit. */
  lemma NoHitAtSpawn(e: Enemy, facing: Dir, aimX: real, aimY: real)
    requires e.distance >= 100.0
    ensures !Qualifies(e, facing, aimX, aimY)
  {
    assert HitSize(e.distance) <= 0.0;
  }

  /**
   * The enemy a shot hits: the qualifying enemy with the highest index in the list,
   * or -1 when none qualifies.
   */
  ghost function LastQualifying(es: seq<Enemy>, facing: Dir, aimX: real, aimY: real): (r: int)
    reads es
    ensures -1 <= r < |es|
    ensures r >= 0 ==> Qualifies(es[r], facing, aimX, aimY)
    ensures forall j :: r < j < |es| ==> !Qualifies(es[j], facing, aimX, aimY)
  {
    if es == [] then -1
    else if Qualifies(es[|es| - 1], facing, aimX, aimY) then |es| - 1
    else LastQualifying(es[..|es| - 1], facing, aimX, aimY)
  }

  // ---------------------------------------------------------------- enemy list

  /** No object appears twice in the list. */
  ghost predicate Distinct<T>(s: seq<T>)
  {
    forall i, j :: 0 <= i < j < |s| ==> s[i] != s[j]
  }

  /** The enemies of `es` still in front of the tower, in list order. */
  ghost function Survivors(es: seq<Enemy>): (r: seq<Enemy>)
    reads es
    ensures |r| <= |es|
  {
    if es == [] then []
    else (if es[0].distance > 0.0 then [es[0]] else []) + Survivors(es[1..])
  }

  /** An enemy survives exactly when it is in the list and still in front of the tower. */
  lemma {:induction false} SurvivorsMembers(es: seq<Enemy>)
    ensures forall e :: e in Survivors(es) ==> e in es && e.distance > 0.0
    ensures forall e :: e in es && e.distance > 0.0 ==> e in Survivors(es)
  {
    if es != [] {
      SurvivorsMembers(es[1..]);
      assert es == [es[0]] + es[1..];
    }
  }

  /** Survivors of a suffix: the entry at its head, if still in front of the tower, then the rest. */
  lemma SurvivorsFrom(s: seq<Enemy>, i: int)
    requires 0 <= i < |s|
    ensures Survivors(s[i..]) == (if s[i].distance > 0.0 then [s[i]] else []) + Survivors(s[i + 1..])
  {
    assert s[i..][1..] == s[i + 1..];
  }

  /**
   * The list is ordered farthest first by where each enemy stood before its last move of
   * `speed`, that is by `distance + speed`: the order a sort before the move produced.
   */
  ghost predicate ByDistanceBeforeMoveDesc(es: seq<Enemy>)
    reads es
  {
    forall i, j :: 0 <= i < j < |es| ==> es[i].distance + es[i].speed >= es[j].distance + es[j].speed
  }

  /** A list sorted by distance, once each of its enemies has moved once, is sorted by where they stood. */
  twostate lemma MovedOrder(es: seq<Enemy>)
    requires old(ByDistanceDesc(es))
    requires forall k :: 0 <= k < |es| ==> es[k].distance == old(es[k].distance) - es[k].speed
    ensures ByDistanceBeforeMoveDesc(es)
  {
  }

  /** The list is ordered by non-increasing distance: farthest first, nearest last. */
  ghost predicate ByDistanceDesc(es: seq<Enemy>)
    reads es
  {
    forall i, j :: 0 <= i < j < |es| ==> es[i].distance >= es[j].distance
  }

  lemma {:induction false} DistinctCount<T>(s: seq<T>, x: T)
    requires Distinct(s)
    ensures multiset(s)[x] <= 1
  {
    if s != [] {
      assert s == [s[0]] + s[1..];
      assert Distinct(s[1..]) by {
        forall i, j | 0 <= i < j < |s[1..]| ensures s[1..][i] != s[1..][j] {
          assert s[1..][i] == s[i + 1] && s[1..][j] == s[j + 1];
        }
      }
      DistinctCount(s[1..], x);
      if s[0] == x {
        assert x !in s[1..];
      }
    }
  }

  lemma RepeatedCount<T>(s: seq<T>, i: int, j: int)
    requires 0 <= i < j < |s| && s[i] == s[j]
    ensures multiset(s)[s[i]] >= 2
  {
    assert s == s[..j] + s[j..];
    assert s[..j][i] == s[i];
    assert s[j..][0] == s[j];
  }

  /** Reordering a list without repeats leaves a list without repeats. */
  lemma DistinctPermutation<T>(a: seq<T>, b: seq<T>)
    requires multiset(a) == multiset(b) && Distinct(a)
    ensures Distinct(b)
  {
    forall i, j | 0 <= i < j < |b| ensures b[i] != b[j] {
      if b[i] == b[j] {
        RepeatedCount(b, i, j);
        DistinctCount(a, b[i]);
      }
    }
  }

  /** Dropping one entry of a list without repeats leaves a list without repeats. */
  lemma DistinctRemove<T>(s: seq<T>, k: int)
    requires Distinct(s) && 0 <= k < |s|
    ensures Distinct(s[..k] + s[k + 1..])
    ensures forall x :: x in s[..k] + s[k + 1..] <==> x in s && x != s[k]
  {
    var r := s[..k] + s[k + 1..];
    forall i | 0 <= i < |r| ensures r[i] == s[if i < k then i else i + 1] {
    }
    forall x | x in s && x != s[k] ensures x in r {
      var i :| 0 <= i < |s| && s[i] == x;
      assert r[if i < k then i else i - 1] == x;
    }
  }

  /** In a list without repeats, the entry at index i differs from every other entry. */
  lemma DistinctAt<T>(s: seq<T>, i: int)
    requires Distinct(s) && 0 <= i < |s|
    ensures forall k :: 0 <= k < |s| && k != i ==> s[k] != s[i]
    ensures s[i] !in s[i + 1..]
  {
    forall k | 0 <= k < |s| && k != i ensures s[k] != s[i] {
      if k < i {
        assert s[k] != s[i];
      } else {
        assert s[i] != s[k];
      }
    }
  }

  /** Splicing index i out of a list whose first i + 1 entries are those of `all`. */
  lemma SpliceAt<T>(all: seq<T>, i: int, rest: seq<T>)
    requires 0 <= i < |all|
    ensures (all[..i + 1] + rest)[i] == all[i]
    ensures (all[..i + 1] + rest)[..i] + (all[..i + 1] + rest)[i + 1..] == all[..i] + rest
    ensures all[..i + 1] + rest == all[..i] + ([all[i]] + rest)
  {
    assert all[..i + 1] == all[..i] + [all[i]];
  }

  /** Appending an object not yet in a list without repeats leaves a list without repeats. */
  lemma DistinctAppend<T>(s: seq<T>, x: T)
    requires Distinct(s) && x !in s
    ensures Distinct(s + [x])
  {
    var r := s + [x];
    forall i, j | 0 <= i < j < |r| ensures r[i] != r[j] {
      assert r[i] == s[i];
      if j == |s| {
        assert r[i] in s;
      } else {
        assert r[j] == s[j];
      }
    }
  }

  /** Filtering a list without repeats leaves a list without repeats. */
  lemma {:induction false} SurvivorsDistinct(s: seq<Enemy>)
    requires Distinct(s)
    ensures Distinct(Survivors(s))
  {
    if s != [] {
      assert Distinct(s[1..]) by {
        forall i, j | 0 <= i < j < |s[1..]| ensures s[1..][i] != s[1..][j] {
          assert s[1..][i] == s[i + 1] && s[1..][j] == s[j + 1];
        }
      }
      SurvivorsDistinct(s[1..]);
      SurvivorsMembers(s[1..]);
      var rest := Survivors(s[1..]);
      if s[0].distance > 0.0 {
        assert s[0] !in s[1..];
        assert s[0] !in rest;
        var r := [s[0]] + rest;
        forall i, j | 0 <= i < j < |r| ensures r[i] != r[j] {
          if i == 0 {
            assert r[j] == rest[j - 1];
          } else {
            assert r[i] == rest[i - 1] && r[j] == rest[j - 1];
          }
        }
      }
    }
  }

  // ---------------------------------------------------------------- spawning

  /** After each spawn the interval shrinks by 10 ms while it is above 600 ms. */
  function DecayedRate(rate: int): (r: int)
    ensures r <= rate
    ensures r == rate <==> rate <= MinSpawnRate
    ensures MinSpawnRate <= rate && rate % 10 == 0 ==> MinSpawnRate <= r && r % 10 == 0
  {
    if rate > MinSpawnRate then rate - 10 else rate
  }

  /** The spawn interval after n spawns. */
  function RateAfter(n: nat): int
  {
    if n == 0 then InitialSpawnRate else DecayedRate(RateAfter(n - 1))
  }

  /** After n spawns the interval is 2000 - 10 n ms, until it settles at 600 ms after 140 spawns. */
  lemma {:induction false} RateAfterClosedForm(n: nat)
    ensures RateAfter(n) == if n <= 140 then InitialSpawnRate - 10 * n else MinSpawnRate
  {
    if n > 0 {
      RateAfterClosedForm(n - 1);
    }
  }

  /** The spawn interval never grows and never falls below 600 ms. */
  lemma RateMonotone(m: nat, n: nat)
    requires m <= n
    ensures MinSpawnRate <= RateAfter(n) <= RateAfter(m) <= InitialSpawnRate
  {
    RateAfterClosedForm(m);
    RateAfterClosedForm(n);
  }
}
