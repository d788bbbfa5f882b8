# River Raid simulation core in Dafny

A model of the simulation step of a terminal River Raid clone (`src/main.rs`).
The player flies through a tunnel that scrolls down the screen. The walls
drift toward randomly chosen target columns. Enemies spawn at the top and
move down. The player can fire one bullet at a time upward.

The model has seven parts:

- `Geometry` (`geometry.dfy`): the source's `u16` as a newtype. Every `+`
  and `-` on it is an overflow proof obligation, as a debug build panics
  there. It also holds `abs_diff`, `saturating_sub(1)` and `Location` with
  its exact-match `Hit`.
- `Worlds` (`worlds.dfy`): the world as a value (`WorldState`, one field
  per field of `World`), the invariant `Inv` that every reachable world
  keeps, `World::new` as `Initial`, and `Bullet::new` as `NewBullet`. The
  source's field `map` is `tunnel` here, because `map` is a reserved word in
  Dafny.
- `Simulation` (`simulation.dfy`): `physics` as the pure function `Tick`,
  built from seven phase functions in the source's order. The random
  numbers are an explicit `Draws` argument, one per `gen_range` call.
  `Admissible` says that none of the tick's `gen_range` calls or `u16`
  operations would panic. Lemmas about the phases and the whole tick follow.
- `Controls` (`controls.dfy`): key decoding (`Decode`), which buffered event
  a frame acts on (`FrameIntent`), and what an intent does (`ApplyIntent`).
- `Seqs` (`seqs.dfy`): one lemma on dropping or replacing an element of a
  sequence in place.
- `Game` (`game.dfy`): the class `World` with the source's fields. Its
  methods update them in place: the reverse loops with in-place `remove`,
  the bottom-up tunnel shift, and the pushes. Each method is proved to end
  in the state given by the pure function of the old state.
  `World.Physics` equals `Tick`, `World.HandleKey` equals `ApplyIntent`, and
  `World.Frame` is one pass of the main loop without its I/O.
- `Scenarios` (`scenarios.dfy`): short end-to-end runs: a quiet first tick,
  death on a wall, an enemy scrolling off, and firing twice.

Four behaviours of the code are easy to misread, and the model keeps them as
written:

- The main loop reads the FIRST buffered key event and drains the rest
  unread (`src/main.rs:218-222`). It does not keep the most recent one.
  `Controls.LaterEventsIgnored` states this.
- The width floor does not keep the targets 3 apart when the right target
  is left of the left one. `Scenarios.FloorCanLeaveNarrowTargets` gives the
  input (10, 9) → 12. The floor's exact effect is proved
  (`Simulation.WidthFloor`, `Simulation.TickTargets`), and a width of 3
  follows from it only when the right target is not left of the left one.
- An enemy spawned on row 0 of a 20-row screen is still in the list after
  20 enemy moves, on row 20, and is removed by the 21st
  (`Scenarios.EnemyLeaves`). With no bullet and no spawn, each tick is one
  such move (`Scenarios.UndisturbedEnemies`). An enemy on row `maxl - 1`
  moves to row `maxl` before it is removed.
- A spawned enemy's column is drawn from `map[0].0..map[1].1`. That range
  includes the left wall's column and spans two rows.

## Model

| member | source | states |
|---|---|---|
| `Geometry.AbsDiff` | src/main.rs:174 | the result is the distance between the two values |
| `Geometry.SaturatingDec` | src/main.rs:139 | one less than a positive value, and 0 for 0 (never wraps) |
| `Geometry.Location.Hit` | src/main.rs:33-35 | a hit holds exactly when both locations are equal |
| `Worlds.Initial` | src/main.rs:70-83 | player at `(maxl-1, maxc/2)`; all `maxl` rows `(maxc/2-5, maxc/2+5)`; targets `maxc/2-7` and `maxc/2+7`; Alive; no enemies or bullets; `Inv` holds; the player starts strictly inside its row; each row is 10 wide with targets 2 beyond its walls |
| `Worlds.NewBullet` | src/main.rs:47-53 | the bullet starts at the player's location with energy `maxl / 2`, rounded down |
| `Simulation.HitsWall` | src/main.rs:123-124 | the player is safe exactly when its column lies strictly between the two walls of its row |
| `Simulation.AfterWallCheck` | src/main.rs:122-127 | only the status can change; a player on or outside a wall is Dead, otherwise the world is unchanged |
| `Simulation.EnemyAtSome` | src/main.rs:130-135 | the player-collision test holds exactly when some enemy's location equals the player's |
| `Simulation.Above` | src/main.rs:138-141 | the cell above an enemy is in its column, one row up, and on row 0 for an enemy on row 0 |
| `Simulation.Struck` | src/main.rs:136-142 | a bullet strikes an enemy exactly when it is in the enemy's column, on the enemy's row or the row above |
| `Simulation.Survivors` | src/main.rs:130-146 | removing struck enemies never lengthens the list, and every kept enemy was in the list and is not struck |
| `Simulation.AfterCollisions` | src/main.rs:129-146 | only the status and the enemies change; the status can only become Dead, and does when an enemy is on the player; no kept enemy is struck |
| `Simulation.SurvivorsMembers` | src/main.rs:136-144 | an enemy is kept iff no bullet sits on it or on the cell above it (saturating at row 0) |
| `Simulation.SurvivorsAppend` | src/main.rs:130-146 | removal distributes over concatenation, so the other enemies keep their relative order |
| `Simulation.SurvivorsNoBullets` | src/main.rs:136-145 | with no bullet in flight no enemy is removed |
| `Simulation.Drift` | src/main.rs:153-164 | a wall moves at most one column, one column closer to its target, and not at all once there |
| `Simulation.Scrolled` | src/main.rs:148-164 | the tunnel keeps its length, row `l >= 1` takes old row `l-1`, and row 0 is the old row 0 drifted toward the targets |
| `Simulation.AfterScroll` | src/main.rs:148-164 | only the tunnel changes; it keeps its length and row `l >= 1` takes old row `l-1` |
| `Simulation.Retargeted` | src/main.rs:167-172 | a target changes only when the wall equals it and the roll is `>= 7`, and then becomes the drawn value |
| `Simulation.WidthFloor` | src/main.rs:174-176 | targets fewer than 3 apart get 3 added to the right one, a pair 3 or more apart is untouched, and a right target not left of the left one ends 3 or more right of it |
| `Simulation.AfterRetarget` | src/main.rs:166-176 | only the targets change; the left one only when its wall reached it on a roll `>= 7`, and then to a value in `[old-5, old+5)`; the right one only on its own roll or through the floor |
| `Simulation.Descended` | src/main.rs:180-181 | a moved enemy keeps its column, goes down exactly one row and ends on a row in `[1, maxl]` |
| `Simulation.Advance` | src/main.rs:179-185 | moving enemies never lengthens the list |
| `Simulation.AdvanceMembers` | src/main.rs:179-185 | the moved list holds exactly the enemies above row `maxl`, each one row lower |
| `Simulation.AdvanceRows` | src/main.rs:179-185 | after moving every enemy is on a row in `[1, maxl]` |
| `Simulation.AdvanceAppend` | src/main.rs:179-185 | movement distributes over concatenation, so survivors keep their order |
| `Simulation.AfterEnemyMove` | src/main.rs:178-185 | only the enemies change, and there are no more of them |
| `Simulation.AfterSpawn` | src/main.rs:187-192 | only the enemies change; on a roll `>= 9` exactly one enemy is appended, on row 0, in a column from `map[0].0` to before `map[1].1`; otherwise nothing changes |
| `Simulation.Flown` | src/main.rs:199-203 | a live bullet moves up exactly 2 rows in its column; its energy drops by exactly 1 while the new row is 2 or more, and is 0 once the row is below 2, so it strictly drops without underflow |
| `Simulation.Fly` | src/main.rs:195-205 | moving bullets never lengthens the list |
| `Simulation.FlyMembers` | src/main.rs:195-205 | the moved list holds exactly the flown versions of the bullets with energy and row `>= 3` |
| `Simulation.AfterBulletMove` | src/main.rs:194-205 | only the bullets change and there are no more of them; a single bullet is removed when expired (no energy or row below 3) and flown otherwise |
| `Simulation.Admissible` | src/main.rs:166-192 | a spawn roll needs a second row, and with no retarget or spawn rolled only the `next_right += 3` overflow can panic |
| `Simulation.Tick` | src/main.rs:119-206 | a tick keeps the world invariant (tunnel length, player row, at most one bullet) |
| `Simulation.TickStatus` | src/main.rs:122-135 | status becomes Dead on a wall or enemy collision and is otherwise kept, so a tick never sets Alive and Dead stays Dead |
| `Simulation.TickKeepsPlayer` | src/main.rs:119-206 | a tick changes neither the player's location, nor the screen size, nor the ship |
| `Simulation.TickTunnel` | src/main.rs:148-164 | length kept; row `l >= 1` becomes old row `l-1`; each top wall moves at most 1, one step closer to its target, and not when already there |
| `Simulation.TickTargets` | src/main.rs:166-176 | a target changes only when the new top row has reached it and the roll is `>= 7`, into `[old-5, old+5)`; then the floor adds 3 exactly when the targets are fewer than 3 apart, giving width `>= 3` when right was not left of left |
| `Simulation.TickEnemies` | src/main.rs:178-192 | the enemies are the unstruck ones moved down, then at most one new enemy; it appears only on a roll `>= 9`, in column `[map[0].0, old map[0].1)`, and it is the only enemy on row 0 |
| `Simulation.TickBullets` | src/main.rs:194-205 | the bullets are the moved and unexpired old ones, and their number never grows |
| `Controls.Decode` | src/main.rs:223-274 | which pressed keys mean each intent (`w`/Up, `s`/Down, `a`/Left, `d`/Right, space, `q`); released keys and other events do nothing |
| `Controls.FrameIntent` | src/main.rs:218-274 | a frame quits, fires or moves exactly when its first pending event is a press of the matching key; an empty buffer, or any other first event, does nothing |
| `Controls.LaterEventsIgnored` | src/main.rs:218-222 | events behind the first one in a frame never change what the frame does |
| `Controls.ApplyIntent` | src/main.rs:228-272 | only the player or bullets change; moves step by one along their axis, only within `[1, max-1]`, and are taken when the target is in range; an in-bounds player stays in bounds; fire adds a bullet at the player with energy `maxl/2` only when none exists, so at most one bullet |
| `Game.World.constructor` | src/main.rs:70-83 | the new object's fields are `Initial(maxc, maxl)` |
| `Game.World.Physics` | src/main.rs:119-206 | running the seven phases in place leaves the fields equal to `Tick` of the old fields |
| `Game.World.CheckWall` | src/main.rs:122-127 | the in-place wall check equals `AfterWallCheck` |
| `Game.World.ResolveCollisions` | src/main.rs:129-146 | the reverse loop with in-place removal equals `AfterCollisions` |
| `Game.World.ScrollTunnel` | src/main.rs:148-164 | the bottom-up shift and top-row drift equal `AfterScroll` |
| `Game.World.RetargetWalls` | src/main.rs:166-176 | the in-place retarget and floor equal `AfterRetarget` |
| `Game.World.MoveEnemies` | src/main.rs:178-185 | the reverse loop with in-place update and removal equals `AfterEnemyMove` |
| `Game.World.SpawnEnemy` | src/main.rs:187-192 | the push equals `AfterSpawn` |
| `Game.World.MoveBullets` | src/main.rs:194-205 | the reverse loop with in-place update and removal equals `AfterBulletMove` |
| `Game.World.HandleKey` | src/main.rs:226-274 | the in-place key handling equals `ApplyIntent`, and it reports quit exactly for `q` |
| `Game.World.Frame` | src/main.rs:217-281 | a quit frame changes nothing; any other frame applies the first event's intent, then one tick |
| `Scenarios.FirstTickIsQuiet` | src/main.rs:70-83 | on a 40 x 20 screen the first tick leaves the player alive and unmoved |
| `Scenarios.WallKills` | src/main.rs:122-127 | a player on its row's left wall is Dead after the tick |
| `Scenarios.UndisturbedEnemies` | src/main.rs:129-192 | with no bullet and no spawn a tick only moves the enemies down |
| `Scenarios.EnemyDescends` | src/main.rs:179-185 | an enemy spawned on row 0 is on row `k` after `k <= maxl` enemy moves; each move is one tick with no bullet and no spawn, by `UndisturbedEnemies` |
| `Scenarios.EnemyLeaves` | src/main.rs:179-185 | that enemy is removed by move `maxl + 1`; on 20 rows it is still listed after 20 moves |
| `Scenarios.FireTwice` | src/main.rs:268-272 | firing twice with no bullet in flight leaves exactly one bullet |
| `Scenarios.FloorCanLeaveNarrowTargets` | src/main.rs:174-176 | targets (10, 9) become (10, 12), only 2 apart |

## Left out

- `draw` (src/main.rs:86-117) is terminal output only and is not modelled.
- The main loop's terminal I/O is not modelled: raw mode, `size()`,
  `poll`/`read` with their timeouts, `thread::sleep` pacing, and the closing
  message. `World.Frame` models one pass of the loop, with the buffered
  events and the draws as arguments. The loop guard `status == Alive` is the
  caller's business.
- `thread_rng`/`gen_range` become the `Draws` argument, and their
  distribution is not modelled. Each tick is then a function of the world
  and the draws, so replaying the same draws gives the same worlds.
- Arithmetic and range panics become preconditions, not error results.
  `Admissible` and the phase preconditions list them: retargeting near 0 or
  65535, `next_right += 3` overflow, and spawning with one row or an empty
  column range. `Initial` requires `maxc >= 14` and `maxl >= 1`.
- `Simulation.Survivors`: removes each struck enemy once. In the source, once
  `remove(i)` has run, any later bullet of the inner loop is tested against
  the enemy that shifted into slot `i`, which may be removed too; if `i` was
  the last index, `world.enemy[i]` panics. One hit followed by any further
  bullet is enough. The model does not capture that, because `Inv` keeps at
  most one bullet.
- `Animation` and `Paused` are declared with no transitions. The `ship`
  string is carried but never used.
- A tunnel width of at least 3 on every row is not proved, because the code
  does not guarantee it (see `Scenarios.FloorCanLeaveNarrowTargets`).
