/** Key handling: which key event a frame acts on, which intent a key
    stands for, and what an intent does to the world. */
module Controls {
  import opened Geometry
  import opened Worlds

  /** A decoded player action for one frame. */
  datatype Intent = Up | Down | Left | Right | Fire | Quit | Other

  /** The key codes the game tells apart. */
  datatype KeyCode = Char(ch: char) | UpKey | DownKey | LeftKey | RightKey | OtherKey

  /** A terminal event: a key event (pressed, or released/repeated) or any
      other event (mouse, resize, ...). */
  datatype Event = Key(code: KeyCode, pressed: bool) | NonKey

  /** The intent of one event: `w`/`s`/`a`/`d` and the arrow keys move, space
      fires, `q` quits; only pressed keys count. */
  function Decode(e: Event): (i: Intent)
    ensures i == Quit <==> e == Key(Char('q'), true)
    ensures i == Fire <==> e == Key(Char(' '), true)
    ensures i == Up <==> e == Key(Char('w'), true) || e == Key(UpKey, true)
    ensures i == Down <==> e == Key(Char('s'), true) || e == Key(DownKey, true)
    ensures i == Left <==> e == Key(Char('a'), true) || e == Key(LeftKey, true)
    ensures i == Right <==> e == Key(Char('d'), true) || e == Key(RightKey, true)
    ensures !e.Key? || !e.pressed ==> i == Other
  {
    match e
    case NonKey => Other
    case Key(code, pressed) =>
      if !pressed then Other
      else match code
        case Char(ch) =>
          if ch == 'q' then Quit
          else if ch == 'w' then Up
          else if ch == 's' then Down
          else if ch == 'd' then Right
          else if ch == 'a' then Left
          else if ch == ' ' then Fire
          else Other
        case UpKey => Up
        case DownKey => Down
        case LeftKey => Left
        case RightKey => Right
        case OtherKey => Other
  }

  /** The first event waiting in the buffer is a press of `code`. */
  predicate FirstPress(pending: seq<Event>, code: KeyCode) {
    |pending| > 0 && pending[0] == Key(code, true)
  }

  /** The intent of one frame, given the events waiting in the input buffer:
      the first one is read and acted on, all later ones are drained unread.
      So a frame quits, fires or moves exactly when its first event is a press
      of the matching key, and does nothing on an empty buffer. */
  function FrameIntent(pending: seq<Event>): (i: Intent)
    ensures i == Quit <==> FirstPress(pending, Char('q'))
    ensures i == Fire <==> FirstPress(pending, Char(' '))
    ensures i == Up <==> FirstPress(pending, Char('w')) || FirstPress(pending, UpKey)
    ensures i == Down <==> FirstPress(pending, Char('s')) || FirstPress(pending, DownKey)
    ensures i == Left <==> FirstPress(pending, Char('a')) || FirstPress(pending, LeftKey)
    ensures i == Right <==> FirstPress(pending, Char('d')) || FirstPress(pending, RightKey)
  {
    if pending == [] then Other else Decode(pending[0])
  }

  /** Events that arrive behind the first one in the same frame never change
      what the frame does. */
  lemma LaterEventsIgnored(pending: seq<Event>, later: seq<Event>)
    requires pending != []
    ensures FrameIntent(pending + later) == FrameIntent(pending)
  {
    assert (pending + later)[0] == pending[0];
  }

  /** The player strictly inside the screen on both axes. */
  predicate InBounds(s: WorldState) {
    1 <= s.player.l as int <= s.maxl as int - 1 &&
    1 <= s.player.c as int <= s.maxc as int - 1
  }

  /** What an intent does to the world. A move changes one coordinate by one
      when the result stays within `[1, max - 1]` and is a no-op otherwise;
      fire adds a bullet at the player only when none is in flight. */
  function ApplyIntent(s: WorldState, i: Intent): (r: WorldState)
    requires 1 <= s.maxl && 1 <= s.maxc
    // only the player and the bullets can change
    ensures r == s.(player := r.player, bullet := r.bullet)
    // a player inside the screen stays inside, and the player's row keeps
    // indexing the tunnel
    ensures InBounds(s) ==> InBounds(r)
    ensures Inv(s) ==> Inv(r)
    // a move is one step, along the intent's axis and in its direction
    ensures AbsDiff(r.player.l, s.player.l) as int + AbsDiff(r.player.c, s.player.c) as int <= 1
    ensures i == Up ==> r.player.c == s.player.c && r.player.l <= s.player.l
    ensures i == Down ==> r.player.c == s.player.c && r.player.l >= s.player.l
    ensures i == Left ==> r.player.l == s.player.l && r.player.c <= s.player.c
    ensures i == Right ==> r.player.l == s.player.l && r.player.c >= s.player.c
    ensures !(i in {Up, Down, Left, Right}) ==> r.player == s.player
    // a move never takes a coordinate below 1 or above max - 1, and a move
    // whose target lies within [1, max - 1] is taken
    ensures r.player.l < s.player.l ==> 1 <= r.player.l
    ensures r.player.l > s.player.l ==> r.player.l as int <= s.maxl as int - 1
    ensures r.player.c < s.player.c ==> 1 <= r.player.c
    ensures r.player.c > s.player.c ==> r.player.c as int <= s.maxc as int - 1
    ensures i == Up && 2 <= s.player.l ==> r.player.l as int == s.player.l as int - 1
    ensures i == Down && s.player.l as int + 2 <= s.maxl as int ==> r.player.l as int == s.player.l as int + 1
    ensures i == Left && 2 <= s.player.c ==> r.player.c as int == s.player.c as int - 1
    ensures i == Right && s.player.c as int + 2 <= s.maxc as int ==> r.player.c as int == s.player.c as int + 1
    // fire: one new bullet at the player with half the screen height as energy,
    // only if none is in flight; no other intent touches the bullets
    ensures i == Fire && s.bullet == [] ==> r.bullet == [Bullet(s.player, s.maxl / 2)]
    ensures i != Fire || s.bullet != [] ==> r.bullet == s.bullet
    ensures |s.bullet| <= 1 ==> |r.bullet| <= 1
  {
    var p := s.player;
    match i
    case Up => if p.l > 1 then s.(player := p.(l := p.l - 1)) else s
    case Down => if p.l < s.maxl - 1 then s.(player := p.(l := p.l + 1)) else s
    case Right => if p.c < s.maxc - 1 then s.(player := p.(c := p.c + 1)) else s
    case Left => if p.c > 1 then s.(player := p.(c := p.c - 1)) else s
    case Fire => if |s.bullet| == 0 then s.(bullet := s.bullet + [NewBullet(s)]) else s
    case Quit => s
    case Other => s
  }
}
