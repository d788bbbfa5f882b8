/** The world of one game session as a value: player, tunnel map, drift
    targets, enemies and bullets, and how a session starts. */
module Worlds {
  import opened Geometry

  /** Game status. Only `Alive` and `Dead` are ever entered; `Animation` and
      `Paused` are declared and have no transitions. */
  datatype PlayerStatus = Dead | Alive | Animation | Paused

  datatype Enemy = Enemy(location: Location)

  /** A projectile: its position and the number of moves it has left. */
  datatype Bullet = Bullet(location: Location, energy: u16)

  /** Every field of the world. `tunnel` is the source's `map`: `tunnel[l]`
      holds the columns of the left and the right wall on row `l`, and the
      opening lies strictly between them. */
  datatype WorldState = WorldState(
    player: Location,
    maxc: u16,
    maxl: u16,
    status: PlayerStatus,
    tunnel: seq<(u16, u16)>,
    nextRight: u16,
    nextLeft: u16,
    ship: string,
    enemy: seq<Enemy>,
    bullet: seq<Bullet>)

  /** What every world built by `Initial` and changed by key intents and
      ticks satisfies: one tunnel row per screen row, the player's row
      indexes the tunnel, and at most one bullet is in flight. */
  predicate Inv(s: WorldState) {
    1 <= s.maxl && 1 <= s.maxc &&
    |s.tunnel| == s.maxl as int &&
    s.player.l < s.maxl &&
    |s.bullet| <= 1
  }

  /** The world of a fresh session on a terminal of `maxc` columns and `maxl`
      rows. Smaller terminals make the source's `u16` subtractions underflow. */
  function Initial(maxc: u16, maxl: u16): (w: WorldState)
    requires 14 <= maxc && 1 <= maxl
    ensures Inv(w) && w.maxc == maxc && w.maxl == maxl
    ensures w.status == Alive && w.enemy == [] && w.bullet == []
    ensures w.player == Location(maxl - 1, maxc / 2)
    ensures forall l :: 0 <= l < |w.tunnel| ==> w.tunnel[l] == (maxc / 2 - 5, maxc / 2 + 5)
    ensures w.nextLeft == maxc / 2 - 7 && w.nextRight == maxc / 2 + 7
    // the player starts strictly inside the opening of its row
    ensures w.tunnel[w.player.l].0 < w.player.c < w.tunnel[w.player.l].1
    // every row is 10 columns wide and the targets lie 2 columns beyond both walls
    ensures forall l :: 0 <= l < |w.tunnel| ==>
      w.tunnel[l].1 as int - w.tunnel[l].0 as int == 10 &&
      w.tunnel[l].0 as int - w.nextLeft as int == 2 &&
      w.nextRight as int - w.tunnel[l].1 as int == 2
  {
    var row := (maxc / 2 - 5, maxc / 2 + 5);
    WorldState(Location(maxl - 1, maxc / 2), maxc, maxl, Alive,
               seq(maxl as int, _ => row), maxc / 2 + 7, maxc / 2 - 7, "P", [], [])
  }

  /** `Bullet::new`: a bullet at the player's location whose energy is half
      the screen height, rounded down. */
  function NewBullet(s: WorldState): (b: Bullet)
    ensures b.location == s.player
    ensures 2 * b.energy as int <= s.maxl as int < 2 * b.energy as int + 2
  {
    Bullet(s.player, s.maxl / 2)
  }
}
