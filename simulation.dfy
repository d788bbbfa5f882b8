/** One physics tick as a function of the world and the random draws.

    The tick runs seven phases in a fixed order: wall collision, enemy
    collisions, tunnel scroll, target retargeting, enemy movement, enemy
    spawn and bullet movement. Each phase is a function from world to world,
    `Tick` is their composition, and the lemmas at the end state what a tick
    does as a whole. */
module Simulation {
  import opened Geometry
  import opened Worlds

  /** The values the tick takes from the random source, one per `gen_range`
      call of the source. A roll only matters through its comparison with 7
      (retargeting) or 9 (spawning); a value is only used when its roll lets
      the source draw it. */
  datatype Draws = Draws(
    leftRoll: int, leftValue: u16,
    rightRoll: int, rightValue: u16,
    spawnRoll: int, spawnColumn: u16)

  // ---------------------------------------------------------------------
  // Phase 1: wall collision

  /** The player's column is on or outside a wall of its own row. */
  predicate HitsWall(s: WorldState): (r: bool)
    requires s.player.l as int < |s.tunnel|
    // the player is safe exactly when strictly between the walls of its row
    ensures !r <==> s.tunnel[s.player.l].0 < s.player.c < s.tunnel[s.player.l].1
  {
    s.player.c <= s.tunnel[s.player.l].0 || s.player.c >= s.tunnel[s.player.l].1
  }

  /** Phase 1: a player on or outside a wall dies; nothing else changes. */
  function AfterWallCheck(s: WorldState): (r: WorldState)
    requires s.player.l as int < |s.tunnel|
    ensures r == s.(status := r.status)
    ensures HitsWall(s) ==> r.status == Dead
    ensures !HitsWall(s) ==> r == s
  {
    if HitsWall(s) then s.(status := Dead) else s
  }

  // ---------------------------------------------------------------------
  // Phase 2: player/enemy and bullet/enemy collisions

  /** Some enemy of the list stands exactly on `p` (see `EnemyAtSome`). */
  predicate EnemyAt(enemies: seq<Enemy>, p: Location) {
    enemies != [] && (enemies[0].location.Hit(p) || EnemyAt(enemies[1..], p))
  }

  lemma {:induction false} EnemyAtSome(enemies: seq<Enemy>, p: Location)
    ensures EnemyAt(enemies, p) <==> exists k :: 0 <= k < |enemies| && enemies[k].location == p
  {
    if enemies != [] {
      EnemyAtSome(enemies[1..], p);
      if EnemyAt(enemies[1..], p) {
        var k :| 0 <= k < |enemies[1..]| && enemies[1..][k].location == p;
        assert enemies[k + 1].location == p;
      }
      if exists k :: 0 <= k < |enemies| && enemies[k].location == p {
        var k :| 0 <= k < |enemies| && enemies[k].location == p;
        if k > 0 {
          assert enemies[1..][k - 1].location == p;
        }
      }
    }
  }

  /** The cell one row above `e`, saturating at row 0: the forgiving part of
      the hit box. */
  function Above(e: Enemy): (r: Location)
    ensures r.c == e.location.c
    ensures e.location.l == 0 ==> r.l == 0
    ensures e.location.l > 0 ==> r.l as int + 1 == e.location.l as int
  {
    Location(SaturatingDec(e.location.l), e.location.c)
  }

  /** A bullet sits on `e` or on the cell just above it. */
  predicate Struck(bullets: seq<Bullet>, e: Enemy): (r: bool)
    // the hit box: a bullet in the enemy's column, on its row or the row above
    ensures r <==> exists b :: (b in bullets && b.location.c == e.location.c &&
                                e.location.l as int - 1 <= b.location.l as int <= e.location.l as int)
  {
    exists b :: b in bullets && (b.location.Hit(e.location) || b.location.Hit(Above(e)))
  }

  /** The enemies that no bullet strikes, in their original order. */
  function Survivors(enemies: seq<Enemy>, bullets: seq<Bullet>): (r: seq<Enemy>)
    ensures |r| <= |enemies|
    ensures forall x :: x in r ==> x in enemies && !Struck(bullets, x)
  {
    if enemies == [] then []
    else (if Struck(bullets, enemies[0]) then [] else [enemies[0]]) + Survivors(enemies[1..], bullets)
  }

  /** Phase 2: the player dies on an enemy, and struck enemies are removed;
      nothing else changes. */
  function AfterCollisions(s: WorldState): (r: WorldState)
    ensures r == s.(status := r.status, enemy := r.enemy)
    ensures r.status != s.status ==> r.status == Dead
    ensures EnemyAt(s.enemy, s.player) ==> r.status == Dead
    ensures |r.enemy| <= |s.enemy|
    ensures forall x :: x in r.enemy ==> x in s.enemy && !Struck(s.bullet, x)
  {
    s.(status := if EnemyAt(s.enemy, s.player) then Dead else s.status,
       enemy := Survivors(s.enemy, s.bullet))
  }

  // ---------------------------------------------------------------------
  // Phase 3: tunnel scroll

  /** One unit from `v` toward `target`, or no move when already there. */
  function Drift(v: u16, target: u16): (r: u16)
    ensures AbsDiff(r, v) <= 1
    ensures v == target ==> r == v
    ensures v != target ==> AbsDiff(r, target) as int + 1 == AbsDiff(v, target) as int
  {
    if target > v then v + 1 else if target < v then v - 1 else v
  }

  /** The tunnel moved down one row, with a new top row that has drifted one
      step from the old top row toward the targets. */
  function Scrolled(tunnel: seq<(u16, u16)>, nextLeft: u16, nextRight: u16): (r: seq<(u16, u16)>)
    requires |tunnel| >= 1
    ensures |r| == |tunnel|
    ensures r[0] == (Drift(tunnel[0].0, nextLeft), Drift(tunnel[0].1, nextRight))
    ensures forall l :: 1 <= l < |r| ==> r[l] == tunnel[l - 1]
  {
    [(Drift(tunnel[0].0, nextLeft), Drift(tunnel[0].1, nextRight))] + tunnel[..|tunnel| - 1]
  }

  /** Phase 3: only the tunnel changes; it keeps its length. */
  function AfterScroll(s: WorldState): (r: WorldState)
    requires |s.tunnel| >= 1
    ensures r == s.(tunnel := r.tunnel)
    ensures |r.tunnel| == |s.tunnel|
    ensures forall l :: 1 <= l < |r.tunnel| ==> r.tunnel[l] == s.tunnel[l - 1]
  {
    s.(tunnel := Scrolled(s.tunnel, s.nextLeft, s.nextRight))
  }

  // ---------------------------------------------------------------------
  // Phase 4: retargeting and the width floor

  /** A target is replaced by the drawn value only once the wall has reached
      it and the roll is 7 or more. */
  function Retargeted(target: u16, wall: u16, roll: int, value: u16): (r: u16)
    ensures r != target ==> wall == target && roll >= 7
    ensures wall == target && roll >= 7 ==> r == value
  {
    if target == wall && roll >= 7 then value else target
  }

  /** `gen_range(target - 5..target + 5)` neither underflows nor overflows,
      and `value` is a value it can return. */
  predicate RetargetInRange(target: u16, value: u16) {
    5 <= target as int <= U16_MAX - 5 &&
    target as int - 5 <= value as int < target as int + 5
  }

  /** `next_right += 3` does not overflow when the floor applies. */
  predicate FloorFits(nextLeft: u16, nextRight: u16) {
    AbsDiff(nextRight, nextLeft) < 3 ==> nextRight as int + 3 <= U16_MAX
  }

  /** The width floor: targets fewer than 3 apart move the right one 3 further
      right. */
  function WidthFloor(nextLeft: u16, nextRight: u16): (r: u16)
    requires FloorFits(nextLeft, nextRight)
    ensures nextRight >= nextLeft ==> r as int >= nextLeft as int + 3
    ensures AbsDiff(nextRight, nextLeft) >= 3 ==> r == nextRight
    ensures AbsDiff(nextRight, nextLeft) < 3 ==> r as int == nextRight as int + 3
  {
    if AbsDiff(nextRight, nextLeft) < 3 then nextRight + 3 else nextRight
  }

  function NewLeft(s: WorldState, d: Draws): u16
    requires |s.tunnel| >= 1
  {
    Retargeted(s.nextLeft, s.tunnel[0].0, d.leftRoll, d.leftValue)
  }

  function NewRight(s: WorldState, d: Draws): u16
    requires |s.tunnel| >= 1
  {
    Retargeted(s.nextRight, s.tunnel[0].1, d.rightRoll, d.rightValue)
  }

  /** None of the retargeting phase's operations would panic. */
  predicate RetargetDefined(s: WorldState, d: Draws)
    requires |s.tunnel| >= 1
  {
    (s.nextLeft == s.tunnel[0].0 && d.leftRoll >= 7 ==> RetargetInRange(s.nextLeft, d.leftValue)) &&
    (s.nextRight == s.tunnel[0].1 && d.rightRoll >= 7 ==> RetargetInRange(s.nextRight, d.rightValue)) &&
    FloorFits(NewLeft(s, d), NewRight(s, d))
  }

  /** Phase 4: only the targets change. The left one changes only when
      reached on a roll of 7 or more, and then by less than five columns; the
      right one changes only then or through the floor. */
  function AfterRetarget(s: WorldState, d: Draws): (r: WorldState)
    requires |s.tunnel| >= 1 && RetargetDefined(s, d)
    ensures r == s.(nextLeft := r.nextLeft, nextRight := r.nextRight)
    ensures r.nextLeft != s.nextLeft ==>
      s.nextLeft == s.tunnel[0].0 && d.leftRoll >= 7 &&
      s.nextLeft as int - 5 <= r.nextLeft as int < s.nextLeft as int + 5
    ensures r.nextRight != s.nextRight ==>
      (s.nextRight == s.tunnel[0].1 && d.rightRoll >= 7) || AbsDiff(s.nextRight, r.nextLeft) < 3
  {
    s.(nextLeft := NewLeft(s, d), nextRight := WidthFloor(NewLeft(s, d), NewRight(s, d)))
  }

  // ---------------------------------------------------------------------
  // Phase 5: enemy movement and despawn

  /** An enemy above the bottom edge moves down one row. */
  function Descended(e: Enemy, maxl: u16): (r: Enemy)
    requires e.location.l < maxl
    ensures r.location.c == e.location.c
    ensures r.location.l as int == e.location.l as int + 1
    ensures 1 <= r.location.l <= maxl
  {
    Enemy(Location(e.location.l + 1, e.location.c))
  }

  /** Every enemy above row `maxl` moves down one row; the others are
      dropped; the order is kept. */
  function Advance(enemies: seq<Enemy>, maxl: u16): (r: seq<Enemy>)
    ensures |r| <= |enemies|
  {
    if enemies == [] then []
    else
      (if enemies[0].location.l < maxl then [Descended(enemies[0], maxl)] else []) +
      Advance(enemies[1..], maxl)
  }

  /** Phase 5: only the enemies change, and there are no more of them. */
  function AfterEnemyMove(s: WorldState): (r: WorldState)
    ensures r == s.(enemy := r.enemy)
    ensures |r.enemy| <= |s.enemy|
  {
    s.(enemy := Advance(s.enemy, s.maxl))
  }

  // ---------------------------------------------------------------------
  // Phase 6: enemy spawn

  /** When the spawn roll is 9 or more the source reads `map[1]` and draws a
      column from `map[0].0..map[1].1`: that row must exist, the range must
      not be empty, and the drawn column lies in it. */
  predicate SpawnDefined(s: WorldState, d: Draws) {
    d.spawnRoll >= 9 ==>
      |s.tunnel| >= 2 && s.tunnel[0].0 <= d.spawnColumn < s.tunnel[1].1
  }

  /** Phase 6: on a roll of 9 or more one enemy is appended on row 0, in a
      column from the left wall of row 0 to before the right wall of row 1;
      otherwise nothing changes. */
  function AfterSpawn(s: WorldState, d: Draws): (r: WorldState)
    requires SpawnDefined(s, d)
    ensures r == s.(enemy := r.enemy)
    ensures d.spawnRoll < 9 ==> r == s
    ensures d.spawnRoll >= 9 ==>
      |r.enemy| == |s.enemy| + 1 && r.enemy[..|s.enemy|] == s.enemy &&
      r.enemy[|s.enemy|].location.l == 0 &&
      s.tunnel[0].0 <= r.enemy[|s.enemy|].location.c < s.tunnel[1].1
  {
    if d.spawnRoll >= 9 then s.(enemy := s.enemy + [Enemy(Location(0, d.spawnColumn))]) else s
  }

  // ---------------------------------------------------------------------
  // Phase 7: bullet movement and expiry

  /** A bullet with no energy left, or too near the top, is removed. */
  predicate Expired(b: Bullet) {
    b.energy == 0 || b.location.l < 3
  }

  /** A live bullet moves up two rows and spends one unit of energy; near the
      top its energy is forced to 0 so that it is removed next tick. */
  function Flown(b: Bullet): (r: Bullet)
    requires !Expired(b)
    ensures r.location.c == b.location.c
    ensures r.location.l as int + 2 == b.location.l as int
    ensures r.energy < b.energy
    ensures r.location.l >= 2 ==> r.energy as int + 1 == b.energy as int
    ensures r.location.l < 2 ==> r.energy == 0
  {
    var l := b.location.l - 2;
    Bullet(Location(l, b.location.c), if l < 2 then 0 else b.energy - 1)
  }

  /** The bullets after one move, expired ones removed, order kept. */
  function Fly(bullets: seq<Bullet>): (r: seq<Bullet>)
    ensures |r| <= |bullets|
  {
    if bullets == [] then []
    else (if Expired(bullets[0]) then [] else [Flown(bullets[0])]) + Fly(bullets[1..])
  }

  /** Phase 7: only the bullets change. A single bullet is removed when
      expired and otherwise flown. */
  function AfterBulletMove(s: WorldState): (r: WorldState)
    ensures r == s.(bullet := r.bullet)
    ensures |r.bullet| <= |s.bullet|
    ensures |s.bullet| == 1 && Expired(s.bullet[0]) ==> r.bullet == []
    ensures |s.bullet| == 1 && !Expired(s.bullet[0]) ==> r.bullet == [Flown(s.bullet[0])]
  {
    s.(bullet := Fly(s.bullet))
  }

  // ---------------------------------------------------------------------
  // The whole tick

  /** The world just before retargeting. */
  function Scrolling(s: WorldState): (r: WorldState)
    requires Inv(s)
    ensures |r.tunnel| == |s.tunnel|
  {
    AfterScroll(AfterCollisions(AfterWallCheck(s)))
  }

  /** The state and the draws are such that no `gen_range` call and no `u16`
      operation of this tick panics. */
  predicate Admissible(s: WorldState, d: Draws): (r: bool)
    requires Inv(s)
    // spawning needs a second row
    ensures r && d.spawnRoll >= 9 ==> s.maxl >= 2
    // with no retarget and no spawn rolled, only the floor can panic
    ensures d.leftRoll < 7 && d.rightRoll < 7 && d.spawnRoll < 9 ==>
      (r <==> FloorFits(s.nextLeft, s.nextRight))
  {
    RetargetDefined(Scrolling(s), d) &&
    SpawnDefined(AfterEnemyMove(AfterRetarget(Scrolling(s), d)), d)
  }

  /** `physics`: one tick, phase after phase. */
  function Tick(s: WorldState, d: Draws): (r: WorldState)
    requires Inv(s) && Admissible(s, d)
    ensures Inv(r)
  {
    AfterBulletMove(AfterSpawn(AfterEnemyMove(AfterRetarget(Scrolling(s), d)), d))
  }

  // ---------------------------------------------------------------------
  // Lemmas about the phases

  lemma {:induction false} SurvivorsMembers(enemies: seq<Enemy>, bullets: seq<Bullet>, x: Enemy)
    ensures x in Survivors(enemies, bullets) <==> x in enemies && !Struck(bullets, x)
  {
    if enemies != [] {
      SurvivorsMembers(enemies[1..], bullets, x);
      assert enemies == [enemies[0]] + enemies[1..];
    }
  }

  /** Removal keeps the relative order of the other enemies. */
  lemma {:induction false} SurvivorsAppend(a: seq<Enemy>, b: seq<Enemy>, bullets: seq<Bullet>)
    ensures Survivors(a + b, bullets) == Survivors(a, bullets) + Survivors(b, bullets)
  {
    if a == [] {
      assert a + b == b;
    } else {
      assert (a + b)[1..] == a[1..] + b;
      SurvivorsAppend(a[1..], b, bullets);
    }
  }

  /** Without a bullet in flight no enemy is removed. */
  lemma {:induction false} SurvivorsNoBullets(enemies: seq<Enemy>)
    ensures Survivors(enemies, []) == enemies
  {
    if enemies != [] {
      SurvivorsNoBullets(enemies[1..]);
    }
  }

  lemma {:induction false} AdvanceMembers(enemies: seq<Enemy>, maxl: u16, x: Enemy)
    ensures x in Advance(enemies, maxl) <==>
      exists e :: e in enemies && e.location.l < maxl && x == Descended(e, maxl)
  {
    if enemies != [] {
      AdvanceMembers(enemies[1..], maxl, x);
      assert enemies == [enemies[0]] + enemies[1..];
      if x in Advance(enemies, maxl) && x !in Advance(enemies[1..], maxl) {
        assert x == Descended(enemies[0], maxl);
      }
    }
  }

  /** After moving, every enemy is between rows 1 and `maxl`. */
  lemma AdvanceRows(enemies: seq<Enemy>, maxl: u16)
    ensures forall x :: x in Advance(enemies, maxl) ==> 1 <= x.location.l <= maxl
  {
    forall x | x in Advance(enemies, maxl) ensures 1 <= x.location.l <= maxl {
      AdvanceMembers(enemies, maxl, x);
    }
  }

  /** Movement keeps the relative order of the surviving enemies. */
  lemma {:induction false} AdvanceAppend(a: seq<Enemy>, b: seq<Enemy>, maxl: u16)
    ensures Advance(a + b, maxl) == Advance(a, maxl) + Advance(b, maxl)
  {
    if a == [] {
      assert a + b == b;
    } else {
      assert (a + b)[1..] == a[1..] + b;
      AdvanceAppend(a[1..], b, maxl);
    }
  }

  lemma {:induction false} FlyMembers(bullets: seq<Bullet>, x: Bullet)
    ensures x in Fly(bullets) <==> exists b :: b in bullets && !Expired(b) && x == Flown(b)
  {
    if bullets != [] {
      FlyMembers(bullets[1..], x);
      assert bullets == [bullets[0]] + bullets[1..];
      if x in Fly(bullets) && x !in Fly(bullets[1..]) {
        assert x == Flown(bullets[0]);
      }
    }
  }

  // ---------------------------------------------------------------------
  // Lemmas about the whole tick

  /** The player dies on a wall or on an enemy; otherwise the status is kept.
      So a tick never makes a player `Alive`, and `Dead` stays `Dead`. */
  lemma TickStatus(s: WorldState, d: Draws)
    requires Inv(s) && Admissible(s, d)
    ensures Tick(s, d).status ==
      if HitsWall(s) || EnemyAt(s.enemy, s.player) then Dead else s.status
    ensures Tick(s, d).status == Alive ==> s.status == Alive
    ensures s.status == Dead ==> Tick(s, d).status == Dead
  {
  }

  /** The player, the screen size and the ship are never changed by a tick. */
  lemma TickKeepsPlayer(s: WorldState, d: Draws)
    requires Inv(s) && Admissible(s, d)
    ensures var r := Tick(s, d);
      r.player == s.player && r.maxc == s.maxc && r.maxl == s.maxl && r.ship == s.ship
  {
  }

  /** The tunnel keeps its length, every row but the top takes the old row
      above it, and the top row drifts by at most one column per wall toward
      its target, not at all when already there. */
  lemma TickTunnel(s: WorldState, d: Draws)
    requires Inv(s) && Admissible(s, d)
    ensures var r := Tick(s, d);
      |r.tunnel| == |s.tunnel| &&
      (forall l :: 1 <= l < |r.tunnel| ==> r.tunnel[l] == s.tunnel[l - 1]) &&
      AbsDiff(r.tunnel[0].0, s.tunnel[0].0) <= 1 &&
      AbsDiff(r.tunnel[0].1, s.tunnel[0].1) <= 1 &&
      (s.tunnel[0].0 == s.nextLeft ==> r.tunnel[0].0 == s.tunnel[0].0) &&
      (s.tunnel[0].1 == s.nextRight ==> r.tunnel[0].1 == s.tunnel[0].1) &&
      (s.tunnel[0].0 != s.nextLeft ==>
        AbsDiff(r.tunnel[0].0, s.nextLeft) as int + 1 == AbsDiff(s.tunnel[0].0, s.nextLeft) as int) &&
      (s.tunnel[0].1 != s.nextRight ==>
        AbsDiff(r.tunnel[0].1, s.nextRight) as int + 1 == AbsDiff(s.tunnel[0].1, s.nextRight) as int)
  {
  }

  /** The left target changes only once the new top row's left wall has
      reached it and the roll is 7 or more, and then to a value within five
      of the old one. The right target does the same before the width floor,
      which afterwards adds 3 to it when the two are fewer than 3 apart and
      otherwise leaves it alone, and a right target not left of the left one ends 3 or more
      to its right. */
  lemma TickTargets(s: WorldState, d: Draws)
    requires Inv(s) && Admissible(s, d)
    ensures var r := Tick(s, d);
      var right := NewRight(Scrolling(s), d);
      (r.nextLeft != s.nextLeft ==>
        s.nextLeft == r.tunnel[0].0 && d.leftRoll >= 7 &&
        s.nextLeft as int - 5 <= r.nextLeft as int < s.nextLeft as int + 5) &&
      (right != s.nextRight ==>
        s.nextRight == r.tunnel[0].1 && d.rightRoll >= 7 &&
        s.nextRight as int - 5 <= right as int < s.nextRight as int + 5) &&
      (AbsDiff(right, r.nextLeft) < 3 ==> r.nextRight as int == right as int + 3) &&
      (AbsDiff(right, r.nextLeft) >= 3 ==> r.nextRight == right) &&
      (right >= r.nextLeft ==> r.nextRight as int - r.nextLeft as int >= 3)
  {
  }

  /** The enemies after a tick: the ones no bullet struck, moved down one
      row unless past the bottom, followed by at most one new enemy. The new
      one is the only enemy on row 0; it is there only on a roll of 9 or more,
      and its column lies between the new top row's left wall and the old top
      row's right wall. */
  lemma TickEnemies(s: WorldState, d: Draws)
    requires Inv(s) && Admissible(s, d)
    ensures var r := Tick(s, d);
      var moved := Advance(Survivors(s.enemy, s.bullet), s.maxl);
      r.enemy[..|moved|] == moved &&
      |r.enemy| <= |s.enemy| + 1 &&
      (d.spawnRoll < 9 ==> r.enemy == moved) &&
      (d.spawnRoll >= 9 ==>
        r.enemy == moved + [Enemy(Location(0, d.spawnColumn))] &&
        r.tunnel[0].0 <= d.spawnColumn < s.tunnel[0].1) &&
      (forall k :: 0 <= k < |r.enemy| && r.enemy[k].location.l == 0 ==>
        d.spawnRoll >= 9 && k == |r.enemy| - 1)
  {
    var r := Tick(s, d);
    var moved := Advance(Survivors(s.enemy, s.bullet), s.maxl);
    AdvanceRows(Survivors(s.enemy, s.bullet), s.maxl);
    assert r.enemy == moved + (if d.spawnRoll >= 9 then [Enemy(Location(0, d.spawnColumn))] else []);
  }

  /** The bullets after a tick are the old ones moved, expired ones removed:
      their number never grows. */
  lemma TickBullets(s: WorldState, d: Draws)
    requires Inv(s) && Admissible(s, d)
    ensures Tick(s, d).bullet == Fly(s.bullet)
    ensures |Tick(s, d).bullet| <= |s.bullet|
  {
  }
}
