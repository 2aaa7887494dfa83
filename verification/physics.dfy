/** One call of `movePlayer`: the per-frame movement of the player.

    The frame runs these phases in a fixed order: horizontal intent, the jump
    gate, position integration with the pre-gravity velocity, gravity, landing
    on platforms in list order, the horizontal clamp, and the fall-out test.
    Every constant is a multiple of 0.5, so `real` arithmetic is exact here.
 */
module Physics {
  import opened Input

  /** Added to the vertical velocity once per frame, after the position moves. */
  const Gravity: real := 0.5
  const PlayerWidth: real := 32.0
  const PlayerHeight: real := 48.0
  /** Horizontal speed while a move key is held. */
  const Speed: real := 5.0
  /** Upward impulse of a jump (screen y grows downwards). */
  const JumpForce: real := 12.0

  /** The mutable part of the player record; its size, speed, jump force
      and colour never change and are the constants above. */
  datatype Player = Player(x: real, y: real, velocityX: real, velocityY: real, isJumping: bool)

  /** A static rectangle the player can land on (its colour is left out). */
  datatype Platform = Platform(x: real, y: real, width: real, height: real)

  /** The arena size, read afresh every frame because a resize may change it. */
  datatype Canvas = Canvas(width: real, height: real)

  /** What `movePlayer` leaves behind: the player and the game-over flag. */
  datatype Moved = Moved(player: Player, gameOver: bool)

  function Dist(a: real, b: real): real
  {
    if a >= b then a - b else b - a
  }

  // ---------------------------------------------------------------------
  // Phase 1: horizontal intent

  /** The horizontal velocity chosen from the keys; left wins over right. */
  function HorizontalVelocity(keys: KeyState): (vx: real)
    ensures vx < 0.0 <==> keys.LeftHeld()
    ensures vx > 0.0 <==> !keys.LeftHeld() && keys.RightHeld()
    ensures vx == 0.0 || Dist(vx, 0.0) == Speed
  {
    if keys.LeftHeld() then -Speed
    else if keys.RightHeld() then Speed
    else 0.0
  }

  // ---------------------------------------------------------------------
  // Phase 2: the jump gate

  /** A jump fires when a jump key is held and the player is not already
      in the air. */
  predicate Launches(p: Player, keys: KeyState)
  {
    keys.JumpHeld() && !p.isJumping
  }

  function ApplyJump(p: Player, keys: KeyState): (q: Player)
    ensures q.x == p.x && q.y == p.y && q.velocityX == p.velocityX
    ensures Launches(p, keys) ==> q.velocityY == -JumpForce && q.isJumping
    ensures !Launches(p, keys) ==> q == p
    ensures q.isJumping <==> p.isJumping || keys.JumpHeld()
  {
    if Launches(p, keys) then p.(velocityY := -JumpForce, isJumping := true) else p
  }

  // ---------------------------------------------------------------------
  // Phases 1 to 4: the player in flight, before any platform is consulted

  /** The player after the input phases, integration and gravity. */
  function Fly(p: Player, keys: KeyState): (q: Player)
    ensures q.velocityX == HorizontalVelocity(keys)
    ensures q.x == p.x + q.velocityX
    ensures q.y == p.y + (q.velocityY - Gravity)
    ensures Launches(p, keys) ==> q.velocityY == Gravity - JumpForce && q.isJumping
    ensures !Launches(p, keys) ==> q.velocityY == p.velocityY + Gravity && q.isJumping == p.isJumping
  {
    var steered := p.(velocityX := HorizontalVelocity(keys));
    var launched := ApplyJump(steered, keys);
    var moved := launched.(x := launched.x + launched.velocityX, y := launched.y + launched.velocityY);
    moved.(velocityY := moved.velocityY + Gravity)
  }

  // ---------------------------------------------------------------------
  // Phase 5: landing on platforms

  /** Strict overlap of the player's box with the platform's box: boxes that
      only touch along an edge do not overlap. */
  predicate Overlaps(p: Player, pl: Platform)
  {
    && p.y + PlayerHeight > pl.y
    && p.y < pl.y + pl.height
    && p.x + PlayerWidth > pl.x
    && p.x < pl.x + pl.width
  }

  /** A platform catches the player when the boxes overlap and the player
      is moving down. */
  predicate Snaps(p: Player, pl: Platform)
  {
    Overlaps(p, pl) && p.velocityY > 0.0
  }

  /** The player standing on top of the platform, no longer falling. */
  function SnapOnto(p: Player, pl: Platform): Player
  {
    p.(y := pl.y - PlayerHeight, velocityY := 0.0, isJumping := false)
  }

  /** One iteration of the collision loop. */
  function LandOn(p: Player, pl: Platform): Player
  {
    if Snaps(p, pl) then SnapOnto(p, pl) else p
  }

  ghost predicate NoneSnap(p: Player, ps: seq<Platform>)
  {
    forall i :: 0 <= i < |ps| ==> !Snaps(p, ps[i])
  }

  /** Platform `i` catches the player and no earlier platform does. */
  ghost predicate IsFirstSnap(p: Player, ps: seq<Platform>, i: int)
  {
    && 0 <= i < |ps|
    && Snaps(p, ps[i])
    && forall j :: 0 <= j < i ==> !Snaps(p, ps[j])
  }

  /** The collision loop: every platform in list order, each one compared
      with the player as the earlier ones left it.  The loop either
      leaves the player alone or sets it down at rest; it never moves the
      player sideways.  `LandNoCatch` and `LandFirstCatch` say which. */
  function Land(p: Player, ps: seq<Platform>): (r: Player)
    ensures r.x == p.x && r.velocityX == p.velocityX
    ensures r == p || (r.velocityY == 0.0 && !r.isJumping)
    decreases |ps|
  {
    if |ps| == 0 then p else Land(LandOn(p, ps[0]), ps[1..])
  }

  /** When no platform catches the player, the loop leaves it unchanged. */
  lemma {:induction false} LandNoCatch(p: Player, ps: seq<Platform>)
    requires NoneSnap(p, ps)
    ensures Land(p, ps) == p
    decreases |ps|
  {
    if |ps| > 0 {
      assert !Snaps(p, ps[0]);
      assert NoneSnap(p, ps[1..]) by {
        forall k | 0 <= k < |ps| - 1
          ensures !Snaps(p, ps[1..][k])
        {
          assert ps[1..][k] == ps[k + 1];
        }
      }
      LandNoCatch(p, ps[1..]);
    }
  }

  /** Because a snap zeroes the vertical velocity, only the first platform
      in list order that catches the player takes effect. */
  lemma {:induction false} LandFirstCatch(p: Player, ps: seq<Platform>, i: int)
    requires IsFirstSnap(p, ps, i)
    ensures Land(p, ps) == SnapOnto(p, ps[i])
    decreases |ps|
  {
    if i == 0 {
      RisingNeverLands(SnapOnto(p, ps[0]), ps[1..]);
    } else {
      assert !Snaps(p, ps[0]);
      assert IsFirstSnap(p, ps[1..], i - 1) by {
        assert ps[1..][i - 1] == ps[i];
        forall j | 0 <= j < i - 1
          ensures !Snaps(p, ps[1..][j])
        {
          assert ps[1..][j] == ps[j + 1];
        }
      }
      LandFirstCatch(p, ps[1..], i - 1);
    }
  }

  /** Either no platform catches the player, or one is the first to. */
  lemma {:induction false} FirstSnapExists(p: Player, ps: seq<Platform>)
    requires !NoneSnap(p, ps)
    ensures exists i :: IsFirstSnap(p, ps, i)
    decreases |ps|
  {
    if Snaps(p, ps[0]) {
      assert IsFirstSnap(p, ps, 0);
    } else {
      assert !NoneSnap(p, ps[1..]) by {
        var k :| 0 <= k < |ps| && Snaps(p, ps[k]);
        assert k > 0;
        assert ps[1..][k - 1] == ps[k];
      }
      FirstSnapExists(p, ps[1..]);
      var i :| IsFirstSnap(p, ps[1..], i);
      assert ps[1..][i] == ps[i + 1];
      forall j | 0 <= j < i + 1
        ensures !Snaps(p, ps[j])
      {
        if j > 0 {
          assert ps[1..][j - 1] == ps[j];
        }
      }
      assert IsFirstSnap(p, ps, i + 1);
    }
  }

  /** How many platforms catch the player during one collision loop. */
  function SnapCount(p: Player, ps: seq<Platform>): nat
    decreases |ps|
  {
    if |ps| == 0 then 0
    else (if Snaps(p, ps[0]) then 1 else 0) + SnapCount(LandOn(p, ps[0]), ps[1..])
  }

  /** A player that is not moving down is never caught by any platform. */
  lemma {:induction false} RisingNeverLands(p: Player, ps: seq<Platform>)
    requires p.velocityY <= 0.0
    ensures SnapCount(p, ps) == 0
    ensures Land(p, ps) == p
    decreases |ps|
  {
    if |ps| > 0 {
      RisingNeverLands(p, ps[1..]);
    }
  }

  /** At most one platform catches the player in a frame. */
  lemma {:induction false} AtMostOneSnap(p: Player, ps: seq<Platform>)
    ensures SnapCount(p, ps) <= 1
    decreases |ps|
  {
    if |ps| > 0 {
      if Snaps(p, ps[0]) {
        RisingNeverLands(SnapOnto(p, ps[0]), ps[1..]);
      } else {
        AtMostOneSnap(p, ps[1..]);
      }
    }
  }

  /** When some platform catches the player, the loop does snap it. */
  lemma {:induction false} SnapCountPositive(p: Player, ps: seq<Platform>)
    requires !NoneSnap(p, ps)
    ensures SnapCount(p, ps) >= 1
    decreases |ps|
  {
    if !Snaps(p, ps[0]) {
      assert !NoneSnap(p, ps[1..]) by {
        var k :| 0 <= k < |ps| && Snaps(p, ps[k]);
        assert k > 0;
        assert ps[1..][k - 1] == ps[k];
      }
      SnapCountPositive(p, ps[1..]);
    }
  }

  // ---------------------------------------------------------------------
  // Phase 6: the horizontal clamp

  /** The boundary checks: the left edge first, then the right edge, so the
      right edge wins on an arena narrower than the player. */
  function ClampX(x: real, canvasWidth: real): (cx: real)
    ensures cx + PlayerWidth <= canvasWidth
    ensures PlayerWidth <= canvasWidth ==> 0.0 <= cx
    ensures canvasWidth < PlayerWidth ==> cx + PlayerWidth == canvasWidth
  {
    var x1 := if x < 0.0 then 0.0 else x;
    if x1 + PlayerWidth > canvasWidth then canvasWidth - PlayerWidth else x1
  }

  /** On an arena at least as wide as the player, the clamp moves the player
      to the nearest position inside the arena. */
  lemma ClampNearest(x: real, canvasWidth: real)
    requires PlayerWidth <= canvasWidth
    ensures forall y :: 0.0 <= y && y + PlayerWidth <= canvasWidth ==>
              Dist(ClampX(x, canvasWidth), x) <= Dist(y, x)
  {
  }

  /** A position already inside the arena is left where it is. */
  lemma ClampKeepsInside(x: real, canvasWidth: real)
    requires 0.0 <= x && x + PlayerWidth <= canvasWidth
    ensures ClampX(x, canvasWidth) == x
  {
  }

  /** Clamping twice is clamping once. */
  lemma ClampIdempotent(x: real, canvasWidth: real)
    ensures ClampX(ClampX(x, canvasWidth), canvasWidth) == ClampX(x, canvasWidth)
  {
  }

  // ---------------------------------------------------------------------
  // The whole frame

  /** `movePlayer`: collision works on the unclamped position, the clamp
      follows, and the fall-out test reads the final position.  The flag
      `gameOver` is only ever raised here. */
  function MovePlayer(p: Player, keys: KeyState, platforms: seq<Platform>, canvas: Canvas, gameOver: bool): (r: Moved)
    ensures r.player.velocityX == HorizontalVelocity(keys)
    ensures r.player.x == ClampX(p.x + HorizontalVelocity(keys), canvas.width)
    ensures r.player.x + PlayerWidth <= canvas.width
    ensures PlayerWidth <= canvas.width ==> 0.0 <= r.player.x
    ensures r.player == Fly(p, keys).(x := r.player.x) || (r.player.velocityY == 0.0 && !r.player.isJumping)
    ensures r.gameOver <==> gameOver || r.player.y > canvas.height
  {
    var flying := Fly(p, keys);
    var landed := Land(flying, platforms);
    var clamped := landed.(x := ClampX(landed.x, canvas.width));
    Moved(clamped, gameOver || clamped.y > canvas.height)
  }

  /** The platform landing happens exactly when some platform catches the
      player in flight. */
  ghost predicate Landed(p: Player, keys: KeyState, platforms: seq<Platform>)
  {
    !NoneSnap(Fly(p, keys), platforms)
  }

  /** A jump frame moves the player up by exactly the jump force and leaves
      the vertical velocity at the jump impulse plus one step of gravity;
      no platform can catch a jumping player on that frame. */
  lemma JumpFrame(p: Player, keys: KeyState, platforms: seq<Platform>, canvas: Canvas, gameOver: bool)
    requires Launches(p, keys)
    ensures !Landed(p, keys, platforms)
    ensures MovePlayer(p, keys, platforms, canvas, gameOver).player.y == p.y - JumpForce
    ensures MovePlayer(p, keys, platforms, canvas, gameOver).player.velocityY == Gravity - JumpForce
    ensures MovePlayer(p, keys, platforms, canvas, gameOver).player.isJumping
  {
    RisingNeverLands(Fly(p, keys), platforms);
  }

  /** A frame in which no platform catches the player leaves it where its
      flight took it, apart from the clamp. */
  lemma {:induction false} MoveWithoutLanding(p: Player, keys: KeyState, platforms: seq<Platform>, canvas: Canvas, gameOver: bool)
    requires !Landed(p, keys, platforms)
    ensures var q := MovePlayer(p, keys, platforms, canvas, gameOver).player;
            q == Fly(p, keys).(x := ClampX(Fly(p, keys).x, canvas.width))
  {
    LandNoCatch(Fly(p, keys), platforms);
  }

  /** The frame lands the player on the first platform in list order that
      catches it, and exactly one snap happens. */
  lemma {:induction false} LandsOnFirstCatcher(p: Player, keys: KeyState, platforms: seq<Platform>, canvas: Canvas, gameOver: bool)
    requires Landed(p, keys, platforms)
    ensures exists i :: IsFirstSnap(Fly(p, keys), platforms, i) &&
              MovePlayer(p, keys, platforms, canvas, gameOver).player ==
                SnapOnto(Fly(p, keys), platforms[i]).(x := ClampX(Fly(p, keys).x, canvas.width))
    ensures SnapCount(Fly(p, keys), platforms) == 1
  {
    FirstSnapExists(Fly(p, keys), platforms);
    var i :| IsFirstSnap(Fly(p, keys), platforms, i);
    LandFirstCatch(Fly(p, keys), platforms, i);
    AtMostOneSnap(Fly(p, keys), platforms);
    SnapCountPositive(Fly(p, keys), platforms);
  }

  /** Gravity between landings: without a jump, a frame either adds exactly
      one step of gravity to the vertical velocity and moves the player by
      the old velocity, or it lands the player on top of a platform. */
  lemma {:induction false} FreeFallOrLand(p: Player, keys: KeyState, platforms: seq<Platform>, canvas: Canvas, gameOver: bool)
    requires !Launches(p, keys)
    ensures var q := MovePlayer(p, keys, platforms, canvas, gameOver).player;
            !Landed(p, keys, platforms) ==>
              q.velocityY == p.velocityY + Gravity && q.y == p.y + p.velocityY && q.isJumping == p.isJumping
    ensures var q := MovePlayer(p, keys, platforms, canvas, gameOver).player;
            Landed(p, keys, platforms) ==>
              && p.velocityY + Gravity > 0.0
              && q.velocityY == 0.0
              && !q.isJumping
              && exists i :: 0 <= i < |platforms| && q.y + PlayerHeight == platforms[i].y
  {
    if Landed(p, keys, platforms) {
      LandsOnFirstCatcher(p, keys, platforms, canvas, gameOver);
    } else {
      MoveWithoutLanding(p, keys, platforms, canvas, gameOver);
    }
  }

  /** The game-over flag is raised exactly when the final position is below
      the bottom of the arena, and never lowered. */
  lemma FallOut(p: Player, keys: KeyState, platforms: seq<Platform>, canvas: Canvas)
    ensures MovePlayer(p, keys, platforms, canvas, true).gameOver
    ensures MovePlayer(p, keys, platforms, canvas, false).gameOver <==>
              MovePlayer(p, keys, platforms, canvas, false).player.y > canvas.height
  {
  }

  /** Landing is decided before the clamp: a player pushed past the right
      edge lands on a platform that its clamped box only touches. */
  lemma CollisionBeforeClamp()
    ensures var p := Player(70.0, 102.0, 0.0, 1.0, true);
            var keys := NoKeys.(arrowRight := true);
            var pl := Platform(100.0, 150.0, 100.0, 20.0);
            var q := MovePlayer(p, keys, [pl], Canvas(100.0, 400.0), false).player;
            && q.y == 102.0 && q.velocityY == 0.0 && !q.isJumping
            && q.x == 68.0 && !Overlaps(q, pl)
  {
    var p := Player(70.0, 102.0, 0.0, 1.0, true);
    var keys := NoKeys.(arrowRight := true);
    var pl := Platform(100.0, 150.0, 100.0, 20.0);
    LandFirstCatch(Fly(p, keys), [pl], 0);
  }
}
