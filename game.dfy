/** The world as the game holds it: one object whose fields the physics tick
    and the key handler update in place. Every method is proved against the
    value-level functions of `Worlds`, `Simulation` and `Controls`. */
module Game {
  import opened Geometry
  import opened Worlds
  import opened Simulation
  import opened Controls
  import opened Seqs

  class World {
    var playerLocation: Location
    var maxc: u16
    var maxl: u16
    var status: PlayerStatus
    var tunnel: seq<(u16, u16)>
    var nextRight: u16
    var nextLeft: u16
    var ship: string
    var enemy: seq<Enemy>
    var bullet: seq<Bullet>

    /** The fields as one value. */
    function View(): WorldState
      reads this
    {
      WorldState(playerLocation, maxc, maxl, status, tunnel, nextRight, nextLeft, ship, enemy, bullet)
    }

    predicate Valid()
      reads this
    {
      Inv(View())
    }

    /** `World::new`. */
    constructor (maxc: u16, maxl: u16)
      requires 14 <= maxc && 1 <= maxl
      ensures Valid() && View() == Initial(maxc, maxl)
    {
      playerLocation := Location(maxl - 1, maxc / 2);
      var row := (maxc / 2 - 5, maxc / 2 + 5);
      tunnel := seq(maxl as int, _ => row);
      this.maxc := maxc;
      this.maxl := maxl;
      status := Alive;
      nextLeft := maxc / 2 - 7;
      nextRight := maxc / 2 + 7;
      ship := "P";
      enemy := [];
      bullet := [];
    }

    /** `physics`: one tick of the simulation, with the random draws given. */
    method Physics(d: Draws)
      requires Valid() && Admissible(View(), d)
      modifies this
      ensures Valid() && View() == Tick(old(View()), d)
    {
      CheckWall();
      ResolveCollisions();
      ScrollTunnel();
      RetargetWalls(d);
      MoveEnemies();
      SpawnEnemy(d);
      MoveBullets();
    }

    /** Phase 1: the player dies on or beyond a wall of its row. */
    method CheckWall()
      requires playerLocation.l as int < |tunnel|
      modifies this`status
      ensures View() == AfterWallCheck(old(View()))
    {
      if playerLocation.c <= tunnel[playerLocation.l].0 || playerLocation.c >= tunnel[playerLocation.l].1 {
        status := Dead;
      }
    }

    /** Phase 2: over the enemies from last to first, an enemy on the player
        kills it, and an enemy a bullet strikes is removed in place. */
    method ResolveCollisions()
      modifies this`status, this`enemy
      ensures View() == AfterCollisions(old(View()))
    {
      ghost var e0 := enemy;
      ghost var st0 := status;
      var i := |enemy|;
      while i > 0
        invariant 0 <= i <= |e0|
        invariant enemy == e0[..i] + Survivors(e0[i..], bullet)
        invariant status == if EnemyAt(e0[i..], playerLocation) then Dead else st0
        modifies this`status, this`enemy
      {
        i := i - 1;
        CollisionStep(e0, i, bullet, playerLocation, enemy, status, st0);
        if enemy[i].location.c == playerLocation.c && enemy[i].location.l == playerLocation.l {
          status := Dead;
        }
        // the source's inner loop over the bullets; with at most one bullet
        // it removes the enemy exactly when `Struck` holds
        if Struck(bullet, enemy[i]) {
          enemy := enemy[..i] + enemy[i + 1..];
        }
      }
      assert e0[0..] == e0;
    }

    /** Phase 3: every row takes the row above it, from the bottom up; then
        the top row's walls move one column toward their targets. */
    method ScrollTunnel()
      requires |tunnel| >= 1
      modifies this`tunnel
      ensures View() == AfterScroll(old(View()))
    {
      ghost var t0 := tunnel;
      var l := |tunnel| - 1;
      while l > 0
        invariant 0 <= l < |t0| && |tunnel| == |t0|
        invariant forall k :: 0 <= k <= l ==> tunnel[k] == t0[k]
        invariant forall k :: l < k < |t0| ==> tunnel[k] == t0[k - 1]
        modifies this`tunnel
      {
        tunnel := tunnel[l := tunnel[l - 1]];
        l := l - 1;
      }
      var (left, right) := tunnel[0];
      if nextLeft > left {
        left := left + 1;
      } else if nextLeft < left {
        left := left - 1;
      }
      if nextRight > right {
        right := right + 1;
      } else if nextRight < right {
        right := right - 1;
      }
      tunnel := tunnel[0 := (left, right)];
      assert tunnel == Scrolled(t0, nextLeft, nextRight);
    }

    /** Phase 4: a target the top row has reached may be redrawn; then the
        width floor. */
    method RetargetWalls(d: Draws)
      requires |tunnel| >= 1 && RetargetDefined(View(), d)
      modifies this`nextLeft, this`nextRight
      ensures View() == AfterRetarget(old(View()), d)
    {
      if nextLeft == tunnel[0].0 && d.leftRoll >= 7 {
        nextLeft := d.leftValue;
      }
      if nextRight == tunnel[0].1 && d.rightRoll >= 7 {
        nextRight := d.rightValue;
      }
      if AbsDiff(nextRight, nextLeft) < 3 {
        nextRight := nextRight + 3;
      }
    }

    /** Phase 5: over the enemies from last to first, one above row `maxl`
        moves down one row in place, any other is removed. */
    method MoveEnemies()
      modifies this`enemy
      ensures View() == AfterEnemyMove(old(View()))
    {
      ghost var e0 := enemy;
      var i := |enemy|;
      while i > 0
        invariant 0 <= i <= |e0|
        invariant enemy == e0[..i] + Advance(e0[i..], maxl)
        modifies this`enemy
      {
        i := i - 1;
        MoveStep(e0, i, maxl, enemy);
        if enemy[i].location.l < maxl {
          enemy := enemy[i := Enemy(enemy[i].location.(l := enemy[i].location.l + 1))];
        } else {
          enemy := enemy[..i] + enemy[i + 1..];
        }
      }
      assert e0[0..] == e0;
    }

    /** Phase 6: on a roll of 9 or more a new enemy appears on row 0. */
    method SpawnEnemy(d: Draws)
      requires SpawnDefined(View(), d)
      modifies this`enemy
      ensures View() == AfterSpawn(old(View()), d)
    {
      if d.spawnRoll >= 9 {
        enemy := enemy + [Enemy(Location(0, d.spawnColumn))];
      }
    }

    /** Phase 7: over the bullets from last to first, an expired one is
        removed, any other moves up two rows and spends one unit of energy,
        all of it once it is above row 2. */
    method MoveBullets()
      modifies this`bullet
      ensures View() == AfterBulletMove(old(View()))
    {
      ghost var b0 := bullet;
      var i := |bullet|;
      while i > 0
        invariant 0 <= i <= |b0|
        invariant bullet == b0[..i] + Fly(b0[i..])
        modifies this`bullet
      {
        i := i - 1;
        FlyStep(b0, i, bullet);
        if bullet[i].energy == 0 || bullet[i].location.l < 3 {
          bullet := bullet[..i] + bullet[i + 1..];
        } else {
          var b := bullet[i];
          b := b.(location := b.location.(l := b.location.l - 2));
          b := b.(energy := b.energy - 1);
          if b.location.l < 2 {
            b := b.(energy := 0);
          }
          assert b == Flown(bullet[i]);
          bullet := bullet[i := b];
        }
      }
      assert b0[0..] == b0;
    }

    /** The `match event.code` block of the main loop, given the decoded
        intent: it moves the player, fires, or asks to quit. */
    method HandleKey(i: Intent) returns (quit: bool)
      requires Valid()
      modifies this`playerLocation, this`bullet
      ensures Valid() && View() == ApplyIntent(old(View()), i)
      ensures quit <==> i == Quit
    {
      quit := false;
      match i
      case Quit =>
        quit := true;
      case Up =>
        if playerLocation.l > 1 {
          playerLocation := playerLocation.(l := playerLocation.l - 1);
        }
      case Down =>
        if playerLocation.l < maxl - 1 {
          playerLocation := playerLocation.(l := playerLocation.l + 1);
        }
      case Right =>
        if playerLocation.c < maxc - 1 {
          playerLocation := playerLocation.(c := playerLocation.c + 1);
        }
      case Left =>
        if playerLocation.c > 1 {
          playerLocation := playerLocation.(c := playerLocation.c - 1);
        }
      case Fire =>
        if |bullet| == 0 {
          bullet := bullet + [NewBullet(View())];
        }
      case Other =>
    }

    /** One pass of the main loop without its terminal I/O: act on the first
        pending event, stop on quit, and otherwise run one tick. */
    method Frame(pending: seq<Event>, d: Draws) returns (quit: bool)
      requires Valid()
      requires FrameIntent(pending) != Quit ==> Admissible(ApplyIntent(View(), FrameIntent(pending)), d)
      modifies this
      ensures Valid()
      ensures quit <==> FrameIntent(pending) == Quit
      ensures quit ==> View() == old(View())
      ensures !quit ==> View() == Tick(ApplyIntent(old(View()), FrameIntent(pending)), d)
    {
      var i := FrameIntent(pending);
      quit := HandleKey(i);
      if !quit {
        Physics(d);
      }
    }
  }

  /** One step of the reverse collision loop. */
  lemma CollisionStep(e0: seq<Enemy>, i: int, bullets: seq<Bullet>, p: Location,
                      enemy: seq<Enemy>, status: PlayerStatus, st0: PlayerStatus)
    requires 0 <= i < |e0|
    requires enemy == e0[..i + 1] + Survivors(e0[i + 1..], bullets)
    requires status == if EnemyAt(e0[i + 1..], p) then Dead else st0
    ensures i < |enemy| && enemy[i] == e0[i]
    ensures (if enemy[i].location.c == p.c && enemy[i].location.l == p.l then Dead else status) ==
      if EnemyAt(e0[i..], p) then Dead else st0
    ensures (if Struck(bullets, enemy[i]) then enemy[..i] + enemy[i + 1..] else enemy) ==
      e0[..i] + Survivors(e0[i..], bullets)
  {
    Prefix(e0, i);
    SurvivorsStep(e0, i, bullets);
    EnemyAtStep(e0, i, p);
    SplitAt(enemy, e0[..i], e0[i], Survivors(e0[i + 1..], bullets), e0[i]);
  }

  lemma Prefix<T>(s: seq<T>, i: int)
    requires 0 <= i < |s|
    ensures s[..i + 1] == s[..i] + [s[i]]
  {
  }

  lemma SurvivorsStep(e0: seq<Enemy>, i: int, bullets: seq<Bullet>)
    requires 0 <= i < |e0|
    ensures Survivors(e0[i..], bullets) ==
      (if Struck(bullets, e0[i]) then [] else [e0[i]]) + Survivors(e0[i + 1..], bullets)
  {
    assert e0[i..][1..] == e0[i + 1..];
  }

  lemma EnemyAtStep(e0: seq<Enemy>, i: int, p: Location)
    requires 0 <= i < |e0|
    ensures EnemyAt(e0[i..], p) <==> e0[i].location.Hit(p) || EnemyAt(e0[i + 1..], p)
  {
    assert e0[i..][1..] == e0[i + 1..];
  }

  /** One step of the reverse movement loop. */
  lemma MoveStep(e0: seq<Enemy>, i: int, maxl: u16, enemy: seq<Enemy>)
    requires 0 <= i < |e0|
    requires enemy == e0[..i + 1] + Advance(e0[i + 1..], maxl)
    ensures i < |enemy| && enemy[i] == e0[i]
    ensures (if enemy[i].location.l < maxl
             then enemy[i := Descended(enemy[i], maxl)]
             else enemy[..i] + enemy[i + 1..]) == e0[..i] + Advance(e0[i..], maxl)
  {
    Prefix(e0, i);
    AdvanceStep(e0, i, maxl);
    SplitAt(enemy, e0[..i], e0[i], Advance(e0[i + 1..], maxl),
            if e0[i].location.l < maxl then Descended(e0[i], maxl) else e0[i]);
  }

  lemma AdvanceStep(e0: seq<Enemy>, i: int, maxl: u16)
    requires 0 <= i < |e0|
    ensures Advance(e0[i..], maxl) ==
      (if e0[i].location.l < maxl then [Descended(e0[i], maxl)] else []) + Advance(e0[i + 1..], maxl)
  {
    assert e0[i..][1..] == e0[i + 1..];
  }

  /** One step of the reverse bullet loop. */
  lemma FlyStep(b0: seq<Bullet>, i: int, bullet: seq<Bullet>)
    requires 0 <= i < |b0|
    requires bullet == b0[..i + 1] + Fly(b0[i + 1..])
    ensures i < |bullet| && bullet[i] == b0[i]
    ensures (if Expired(bullet[i])
             then bullet[..i] + bullet[i + 1..]
             else bullet[i := Flown(bullet[i])]) == b0[..i] + Fly(b0[i..])
  {
    Prefix(b0, i);
    FlyOnce(b0, i);
    SplitAt(bullet, b0[..i], b0[i], Fly(b0[i + 1..]),
            if Expired(b0[i]) then b0[i] else Flown(b0[i]));
  }

  lemma FlyOnce(b0: seq<Bullet>, i: int)
    requires 0 <= i < |b0|
    ensures Fly(b0[i..]) == (if Expired(b0[i]) then [] else [Flown(b0[i])]) + Fly(b0[i + 1..])
  {
    assert b0[i..][1..] == b0[i + 1..];
  }
}
