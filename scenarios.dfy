/** End-to-end facts about short runs of the game: a quiet first tick, death
    on a wall, an enemy scrolling off the screen, and repeated fire. */
module Scenarios {
  import opened Geometry
  import opened Worlds
  import opened Simulation
  import opened Controls

  /** Draws under which nothing is retargeted and nothing spawns. */
  const Quiet := Draws(0, 0, 0, 0, 0, 0)

  /** A 40 x 20 session admits the quiet draws, and its first tick leaves the
      player alive and where it was, whatever the draws. */
  lemma FirstTickIsQuiet(d: Draws)
    requires Admissible(Initial(40, 20), d)
    ensures Admissible(Initial(40, 20), Quiet)
    ensures Tick(Initial(40, 20), d).status == Alive
    ensures Tick(Initial(40, 20), d).player == Initial(40, 20).player
  {
    var s := Initial(40, 20);
    assert !EnemyAt(s.enemy, s.player);
    assert s.tunnel[19] == (15, 25);
  }

  /** A player standing on the left wall of its row dies in the next tick. */
  lemma WallKills(s: WorldState, d: Draws)
    requires Inv(s) && Admissible(s, d)
    requires s.player.c == s.tunnel[s.player.l].0
    ensures Tick(s, d).status == Dead
  {
    TickStatus(s, d);
  }

  /** With no bullet in flight and no spawn, the enemies only move down. */
  lemma {:induction false} UndisturbedEnemies(s: WorldState, d: Draws)
    requires Inv(s) && Admissible(s, d)
    requires s.bullet == [] && d.spawnRoll < 9
    ensures Tick(s, d).enemy == Advance(s.enemy, s.maxl)
  {
    SurvivorsNoBullets(s.enemy);
  }

  /** The enemies after `k` undisturbed ticks. */
  function AdvanceTimes(enemies: seq<Enemy>, maxl: u16, k: nat): seq<Enemy>
  {
    if k == 0 then enemies else Advance(AdvanceTimes(enemies, maxl, k - 1), maxl)
  }

  /** An enemy spawned on row 0 is on row `k` after `k` undisturbed ticks, up
      to and including row `maxl`, just below the screen. */
  lemma {:induction false} EnemyDescends(c: u16, maxl: u16, k: nat)
    requires k <= maxl as int
    ensures AdvanceTimes([Enemy(Location(0, c))], maxl, k) == [Enemy(Location(k as u16, c))]
  {
    if k > 0 {
      EnemyDescends(c, maxl, k - 1);
    }
  }

  /** It is removed in tick `maxl + 1`: on a 20-row screen it is still in
      the list, on row 20, after 20 ticks, and gone after 21. */
  lemma EnemyLeaves(c: u16, maxl: u16)
    ensures AdvanceTimes([Enemy(Location(0, c))], maxl, maxl as int) == [Enemy(Location(maxl, c))]
    ensures AdvanceTimes([Enemy(Location(0, c))], maxl, maxl as int + 1) == []
    ensures AdvanceTimes([Enemy(Location(0, c))], 20, 20) != []
  {
    EnemyDescends(c, maxl, maxl as int);
    EnemyDescends(c, 20, 20);
  }

  /** Firing twice leaves exactly one bullet, the first one. */
  lemma FireTwice(s: WorldState)
    requires Inv(s) && s.bullet == []
    ensures ApplyIntent(ApplyIntent(s, Fire), Fire).bullet == [NewBullet(s)]
  {
  }

  /** The width floor can leave the targets closer than 3 columns: with the
      right target one left of the left target it adds 3 and the right one
      ends only 2 to the right. */
  lemma FloorCanLeaveNarrowTargets()
    ensures WidthFloor(10, 9) == 12
  {
  }
}
