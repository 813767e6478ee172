# towerhoard combat core in Dafny

towerhoard is a browser shooter. The player stands in a tower and faces one of
four walls (N, E, S, W). Enemies spawn at distance 100 on a random wall and
walk toward the tower. The player turns between walls and shoots at an aim
point. Any enemy that reaches the tower costs it 10 hit points. Indicators
warn of nearby enemies on the walls the player is not facing.

This project models the combat simulation of that game. It covers:

- the enemy type table;
- the `Enemy` constructor and its `update`;
- the game state record;
- turning, firing and the threat indicators;
- the spawn and enemy-advance parts of the frame loop.

It consists of three modules:

- `Enemies` (`enemies.dfy`) holds the type table, which types a wave may produce, the wave
  scaling of hit points and speed, and the class `Enemy`. Only its `hp` and `distance`
  change after construction, so every other attribute is a `const` field.
- `Rules` (`rules.dfy`) holds the computations the frame loop uses:
  - wrap-around turning;
  - the side a wall lies on;
  - the hitbox of an enemy and which enemy a shot hits;
  - which enemies survive a frame;
  - the decaying spawn interval.
- `Game` (`game.dfy`) holds the class `State`, the session state of the source's `state` record (`score`, `hp`, `wave`,
  `enemies`, `dirIndex`, `lastTime`, `spawnTimer`, `spawnRate`). Its methods update that
  state in place, as the source does:
  - `Turn`, `Shoot` and `CheckIndicators`;
  - `Spawn`, `SortEnemies` and `AdvanceEnemies`;
  - `Step`, which is one call of the frame loop.

`State.Valid` is the state invariant. Every method of `State` that changes the state requires
and keeps it, except the three helpers of the backward pass (`AdvanceBackwards`, `AdvanceAt`,
`RemoveAt`), which work on weaker facts; `AdvanceEnemies` restores it after them.
`CheckIndicators` only reads the state and needs only the facing index in range. The invariant says:

- the facing index is in 0..3 and the wave is at least 1;
- the spawn interval is `RateAfter(spawns)`, where the ghost field `spawns` counts the enemies
  spawned so far, so it is `2000 - 10 n` ms down to 600 ms (`RateAfterClosedForm`);
- the score is a non-negative multiple of 10;
- the tower has at most 100 hit points, and the game-over flag is set exactly when it is at 0 or below;
- no enemy is listed twice;
- every listed enemy has at least 1 hit point and a distance in (0, 100].

Conventions of the model:

- `Math.random()` becomes an explicit roll in [0, 1) (`typeRoll`, `viewRoll`, `xRoll`).
  An index is `Floor(roll * n)`, exactly as the source computes it (`RollIndex`).
- `Math.hypot(dx, dy) < size` is modelled as `size > 0 && dx² + dy² < size²` (`InCircle`).
  `HypotTest` proves that this is the same test for the true hypotenuse.
- The frame timestamp is a parameter of `Step`.
- The module-level `lastTime`, `spawnTimer` and `spawnRate` of the frame loop are fields of `State`.
- `Step` returns two ghost results that name what the frame did: `spawned`, the enemy it added
  (none or one), and `sorted`, the list in the order the advance pass saw it.
- The game-over alert and page reload become a flag, `gameOver`. Once it is set, `Step`
  changes nothing.

## Model

| member | source | states |
|---|---|---|
| Enemies.Eligible | src/enemies.js:49 | the filter keeps exactly the types of the table whose `minWave` is at most the wave, and never more types than the table has |
| Enemies.EligibleIsPrefix | src/enemies.js:2-45 | on a table ordered by `minWave` the eligible types are a prefix of the table |
| Enemies.AllowedSchedule | src/enemies.js:2-49 | the types a wave may produce are exactly the first `Unlocked(wave)` rows: none before wave 1, imp and zombie from wave 1, then ghost from 3, ogre from 4, golem from 6, dragon from 10 |
| Enemies.EarlyWaves | src/enemies.js:2-16 | waves 1 and 2 produce only imp and zombie |
| Enemies.AllowedNonEmpty | src/enemies.js:7 | from wave 1 on, imp and zombie are both eligible, so the type choice always has a candidate |
| Enemies.UnlockWaves | src/enemies.js:17-45 | ghost is eligible iff wave ≥ 3, ogre iff ≥ 4, golem iff ≥ 6, dragon iff ≥ 10 |
| Enemies.RollIndex | src/enemies.js:50 | `Floor(roll * n)` for a roll in [0, 1) is an index below n, and the one whose cell [k, k+1) holds `roll * n` |
| Enemies.ChooseType | src/enemies.js:49-50 | the chosen type is a row of the table whose `minWave` is at most the wave |
| Enemies.ChooseTypeIsFilterPick | src/enemies.js:49-50 | the chosen type is the element at `Floor(roll * length)` of the filtered list, and that list is non-empty |
| Enemies.MaxHpAt | src/enemies.js:53 | max hit points are the type's hp plus a bonus b with `5b ≤ wave < 5b + 5`, that is `floor(wave / 5)`, so never below the type's hp for wave ≥ 0 |
| Enemies.SpeedAt | src/enemies.js:67 | the speed exceeds the type's base speed for every wave ≥ 1 |
| Enemies.CreationBounds | src/enemies.js:53-67 | at wave ≥ 1 every type gets at least 1 max hit point and a strictly positive speed |
| Enemies.SpeedIncreasing | src/enemies.js:67 | for a fixed type the speed strictly increases with the wave |
| Enemies.AdvancedClosedForm | src/enemies.js:66-72 | after n updates from distance `start` the distance is `start - n * speed` |
| Enemies.AdvancedDecreasing | src/enemies.js:70-72 | with a positive speed, more updates always mean a strictly smaller distance |
| Enemies.FirstFrameSurvived | src/enemies.js:67-72 | below wave 4985 every type moves less than 100 per frame, so a new enemy is still in front of the tower after its first update |
| Enemies.Enemy.constructor | src/enemies.js:48-68 | the new enemy has the chosen type's attributes scaled by the wave: `hp = maxHp ≥ 1`, distance 100, `view = Directions[viewIndex]` with `viewIndex` in 0..3, `x = xRoll * width` in [0, width) and `y = height / 2` |
| Enemies.Enemy.Update | src/enemies.js:70-72 | `distance` drops by exactly `speed`, so it strictly decreases; nothing else changes |
| Rules.Turned | src/game.js:41-44 | the facing index after a turn is always in 0..3, and it is the plain sum whenever that sum is in range |
| Rules.TurnIsModular | src/game.js:37-44 | for the deltas the buttons send (±1), a turn is addition modulo 4: from 3 right is 0, from 0 left is 3 |
| Rules.TurnRoundTrip | src/game.js:41-44 | a right turn then a left turn restores the facing, and so does a left turn then a right turn |
| Rules.TurnRightTimes | src/game.js:41-44 | n right turns advance the facing by n modulo 4 |
| Rules.FourTurnsRight | src/game.js:41-44 | four right turns face the starting wall again |
| Rules.SideOf | src/game.js:95-103 | the index arithmetic gives: right iff the wall is (facing + 1) mod 4, left iff (facing + 3) mod 4, behind iff (facing + 2) mod 4, and nothing for the faced wall |
| Rules.ThreatExtend | src/game.js:91-104 | scanning one more enemy adds a threat on a side iff that enemy is near and on that side |
| Rules.HitSize | src/game.js:67-69 | the hitbox radius `25 * (100 - distance) / 10` is positive iff the enemy has moved from distance 100, and zero at distance 100 |
| Rules.HitSizeGrows | src/game.js:67-69 | a nearer enemy has a strictly larger hitbox |
| Rules.HypotTest | src/game.js:71-73 | `hypot(dx, dy) < size` holds iff `size > 0` and `dx² + dy² < size²` |
| Rules.NoHitAtSpawn | src/game.js:67-73 | an enemy still at distance 100 cannot be hit |
| Rules.LastQualifying | src/game.js:60-80 | the enemy a shot hits is the qualifying enemy (on the faced wall, aim point inside its hitbox) with the highest index, or -1 when none qualifies |
| Rules.SurvivorsMembers | src/game.js:142-148 | an enemy survives the frame iff it was listed and its distance after the update is above 0 |
| Rules.SurvivorsDistinct | src/game.js:148 | removing enemies from a list without repeats leaves a list without repeats |
| Rules.DecayedRate | src/game.js:136 | the interval never grows, stays unchanged exactly when it is at most 600, and remains a multiple of 10 no lower than 600 |
| Rules.RateAfterClosedForm | src/game.js:132-137 | after n spawns the interval is `2000 - 10 n` ms up to 140 spawns and 600 ms from then on |
| Rules.RateMonotone | src/game.js:132-137 | the interval after n spawns lies in [600, 2000] and is never larger than after fewer spawns |
| Game.InsertByDistance | src/game.js:140 | inserting one enemy into a list ordered farthest first gives that list plus the enemy, still ordered farthest first |
| Game.SortByDistance | src/game.js:140 | the result is a permutation of the list ordered by non-increasing distance |
| Game.State.constructor | src/game.js:15-23 | the session starts at score 0, tower hp 100, wave 1, no enemies, facing N, spawn interval 2000 ms after 0 spawns, and satisfies the invariant |
| Game.State.Turn | src/game.js:41-44 | `dirIndex` becomes `Turned(old dirIndex, dir)` and the invariant is kept |
| Game.State.FindTarget | src/game.js:60-73 | the backward loop with `break` returns `LastQualifying`: the index found qualifies and no later index does |
| Game.State.Shoot | src/game.js:60-80 | a miss changes nothing. On a hit only the target loses exactly 1 hp. If it drops to 0 or below it is spliced out and the score rises by 10, otherwise list and score are unchanged. No distance and no other enemy's hp changes, and the invariant is kept |
| Game.State.HitAt | src/game.js:74-79 | the hit enemy loses exactly 1 hp; at 0 or below it is spliced out of the list and the score rises by 10, otherwise list and score are unchanged |
| Game.State.CheckIndicators | src/game.js:86-104 | each flag is set iff some enemy at distance ≤ 50 stands on the wall to the left, right or behind |
| Game.State.Spawn | src/game.js:132-137 | when the grown timer exceeds the interval, exactly one new enemy made by the constructor is appended, the timer resets to 0, the interval decays and the spawn count grows by 1; otherwise only the timer grows |
| Game.State.AddEnemy | src/game.js:134 | the new enemy is appended at the end of the list and the invariant is kept |
| Game.State.RestartTimer | src/game.js:135-136 | the timer restarts at 0, the interval takes one decay step and the spawn count grows by 1, so the interval stays `RateAfter(spawns)` |
| Game.State.SortEnemies | src/game.js:140 | the list becomes a permutation of itself ordered by non-increasing distance, and the invariant is kept |
| Game.State.AdvanceEnemies | src/game.js:142-154 | every enemy moves exactly once and keeps its hp. The new list is exactly the survivors in order, those with distance above 0. The tower loses 10 hp per removed enemy and the invariant (game over iff hp ≤ 0) is kept |
| Game.State.AdvanceBackwards | src/game.js:142-154 | the backward loop, index by index: every listed enemy moves once and keeps its hp, the list becomes `Survivors` of the starting list, the tower loses 10 hp per removal and game over holds iff hp ≤ 0 |
| Game.State.AdvanceAt | src/game.js:143-154 | one iteration at index i: that enemy moves once, and the list from i on becomes its survivors, so it is spliced out iff its distance dropped to 0 or below |
| Game.State.RemoveAt | src/game.js:146-153 | the enemy at index i is spliced out, the tower loses exactly 10 hp and game over holds iff hp ≤ 0 |
| Game.State.MoveEnemies | src/game.js:140-154 | sort then advance: `sorted` is a permutation of the list ordered by the distances before the move, the new list is exactly `Survivors(sorted)`, each old enemy moved once and is kept iff its distance is above 0, and the tower loses 10 hp per removal |
| Game.State.SpawnAndMove | src/game.js:131-160 | the spawn step then the enemy step: at most one fresh enemy made by the constructor joins, the list processed is a permutation of the old list plus that enemy ordered farthest first, the new list is its survivors in that order, and nothing else is listed |
| Game.State.Step | src/game.js:116-162 | once the game is over a frame changes nothing. Otherwise: the clock advances and the spawn step runs. The spawned enemy, if any, has the rolled attributes, full hp and distance `100 - speed`. Every old enemy moves once. The new list is the survivors, in sorted order, of the old enemies and the spawned one, and holds nothing else. The tower loses 10 hp per removed enemy, and the flags report the threats of the final list |

## Left out

- Drawing is not modelled. This covers canvas clearing, horizon and scope overlay, `Enemy.draw`, the screen flashes and every `document.getElementById` write (hp, score, current wall, indicator opacity). None of them changes the simulation state.
- The gun data loaded by `fetch` into `state.guns` is not modelled; the hit logic never reads it. The `state.directions` array is the constant `Directions`, and the per-enemy `possibleViews` array is the same constant.
- `requestAnimationFrame` scheduling is not modelled; `Step` is one call of the frame function, with the timestamp as a parameter.
- `input.getAim()` is not modelled; the aim point is a parameter of `Shoot`.
- `alert("GAME OVER")` and `location.reload()` are not modelled as such. They are the `gameOver` flag: the rest of the frame still runs, as the asynchronous reload allows, and later frames do nothing. `Turn` and `Shoot` are not guarded by the flag, as in the source.
- Floating point is not modelled: distances, speeds, timers and hitboxes are exact reals. Rounding in `0.3 + wave * 0.02` and similar sums is not represented.
- Game.State.SortEnemies: states a permutation ordered by non-increasing distance, not which permutation. The insertion sort used is stable, like the engine's sort, but stability is not stated.
- Enemies.Enemy.constructor: requires wave ≥ 1. For a smaller wave the filtered list is empty, and reading `type.symbol` of the missing entry throws a TypeError; thrown inside the frame function, it stops the frame loop before the next frame is requested. The model leaves the case out because the state's wave is 1 and never changes.
- Enemies.ChooseType: is defined through the unlock count `Unlocked(wave)` rather than through the filtered list directly. `ChooseTypeIsFilterPick` proves the two equal for every wave ≥ 1.
- Wave advancement, upgrades, XP crediting and the files `src/renderer.js`, `src/input.js`, `src/audio.js` and `src/storage.js` are not part of this model.
- The modelled code has no wave quotas or wave advancement, no shop, no turrets, no weapon damage multipliers, no player hp pool separate from the tower's, and no spawn interval tied to the wave number, so the model has none either. The interval shrinks by 10 ms per spawn down to 600 ms, only the tower loses hp, and a shot removes exactly 1 hp.
- Game over shows an alert and reloads the page, which starts a new session. In the model, `gameOver` ends the current session: its later frames do nothing, and the session after the reload is a fresh `Game.State.constructor`.
- Enemies.Advanced: the closed form of n updates is proved about the function; no ghost frame counter on `Enemy` ties it to the number of `Update` calls. Each call's effect is stated by `Update`, and each frame's by `Step`.
