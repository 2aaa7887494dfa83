# tim-game platformer core, modelled in Dafny

`game.js` is a single-player canvas platformer. The player runs left and right
over four static platforms, jumps, and falls under constant gravity. The score
goes up by one every tenth frame. The game ends when the player falls off the
bottom of the canvas, and Space restarts it.

This project models the part of the game that is simulation, not drawing:

- `Input` holds the key map, as the seven key codes the game reads.
- `Physics` holds `movePlayer`. Its phases are horizontal intent, the jump gate,
  integration, gravity, landing on platforms in list order, the horizontal clamp
  and the fall-out test.
- `Frame` holds the game state and the two-state frame controller, playing or
  over. This is the non-drawing part of `gameLoop`. It also holds
  `restartGame`, `generatePlatforms` and runs of several frames.

Every constant and starting value is a multiple of 0.5, so positions and
velocities are Dafny `real`s and the arithmetic is exact. The key state and
the canvas size are explicit inputs of every frame. A resize may change the
canvas between frames.

Two behaviours of the code are worth stating plainly:

- Landing: when several platforms catch the player in one frame, the first one
  in list order wins. A snap sets `velocityY` to 0, so every later platform
  fails the `velocityY > 0` test and at most one snap happens per frame
  (game.js:88-90; `Physics.LandFirstCatch`, `Physics.AtMostOneSnap`).
- Clamp: the left edge is checked first and the right edge second, so on a
  canvas narrower than the player `x` ends up negative (game.js:96-101;
  `Physics.ClampX`).

## Model

| member | source | states |
|---|---|---|
| `Physics.HorizontalVelocity` | game.js:60-67 | The velocity is negative exactly when a left key is held. It is positive exactly when a right key is held and no left key is. Its size is 0 or `speed`, so left wins when both are held. |
| `Physics.ApplyJump` | game.js:69-73 | A jump fires only when a jump key is held and `isJumping` is false. It sets `velocityY` to `-jumpForce` and `isJumping` to true. Otherwise the player is unchanged. Position and horizontal velocity never change in this phase. |
| `Physics.Fly` | game.js:59-80 | Before any platform is consulted, the player moves by the pre-gravity velocity. Only then does `velocityY` gain one step of gravity: `-jumpForce + gravity` on a jump frame, otherwise the old `velocityY + gravity`. |
| `Physics.Land` | game.js:82-93 | The collision loop never moves the player sideways or changes `velocityX`. It either leaves the player as it was or sets it down with `velocityY = 0` and `isJumping` false. |
| `Physics.LandNoCatch` | game.js:83-93 | When no platform both overlaps the player and sees it moving down, the loop leaves the player unchanged. |
| `Physics.LandFirstCatch` | game.js:83-93 | When platform `i` is the first in list order to catch the player, the loop leaves the player exactly on top of platform `i`. Its `y` is `platform.y - height`, with zero vertical velocity and not jumping. Later overlapping platforms have no effect. |
| `Physics.FirstSnapExists` | game.js:83-93 | If some platform catches the player, one of them is the first in list order. Together with `LandNoCatch` and `LandFirstCatch`, this describes every possible outcome of the loop. |
| `Physics.RisingNeverLands` | game.js:84-88 | A player whose `velocityY` is not positive is never snapped by any platform, and the loop leaves it unchanged. |
| `Physics.AtMostOneSnap` | game.js:83-93 | At most one platform snaps the player in a frame. |
| `Physics.SnapCountPositive` | game.js:83-93 | When some platform catches the player, the loop does snap at least once. |
| `Physics.ClampX` | game.js:95-101 | After the boundary checks, `x + width <= canvas.width` always holds. `x >= 0` holds whenever the canvas is at least as wide as the player. On a narrower canvas, the right edge wins. |
| `Physics.ClampNearest` | game.js:95-101 | On a canvas at least as wide as the player, the clamped `x` is the in-bounds position nearest to the unclamped one. |
| `Physics.ClampKeepsInside` | game.js:95-101 | A position already inside the canvas is not moved. |
| `Physics.ClampIdempotent` | game.js:95-101 | Clamping twice gives the same result as clamping once. |
| `Physics.MovePlayer` | game.js:59-107 | The final `velocityX` is the key-chosen one. The final `x` is the clamp of the old `x` plus that velocity, so its right edge is inside the canvas, and `x >= 0` whenever the canvas is at least as wide as the player. The player is either where its flight took it (apart from the clamp) or at rest (`velocityY = 0`, not jumping); `LandsOnFirstCatcher` says on which platform. `gameOver` comes out true exactly when it was already true or the final `y > canvas.height`. |
| `Physics.MoveWithoutLanding` | game.js:75-101 | When no platform catches the player in flight, the frame's result is the flight position and velocities, with only `x` clamped. |
| `Physics.JumpFrame` | game.js:69-80 | On a jump frame, no platform can catch the player. `y` drops by exactly `jumpForce`, `velocityY` ends at `gravity - jumpForce`, and the player is jumping. |
| `Physics.FreeFallOrLand` | game.js:75-93 | Without a jump, a frame either adds exactly `gravity` to `velocityY` and moves `y` by the old velocity, or lands the player. A landing needs a falling player, and it leaves `velocityY = 0`, `isJumping` false and the player's bottom on some platform's top. |
| `Physics.LandsOnFirstCatcher` | game.js:83-101 | When the player in flight is caught, the frame's result is the player snapped onto the first catching platform in list order, then clamped. Exactly one snap happens. Collision therefore uses the unclamped `x`. |
| `Physics.FallOut` | game.js:103-106 | `movePlayer` never lowers `gameOver`. Starting from false, it raises it exactly when the final `y > canvas.height`. |
| `Physics.CollisionBeforeClamp` | game.js:82-101 | Example: a player pushed past the right edge still lands on a platform, because the overlap uses its unclamped position. Its clamped box then only touches that platform. |
| `Frame.GeneratePlatforms` | game.js:137-144 | The regenerated layout equals the start-up layout of game.js:29-34. It has four platforms, each 20 high with positive width. |
| `Frame.Restart` | game.js:127-135 | Restart returns the start-up state of game.js:10-34: `x = 100`, `y = 200`, both velocities 0, score 0, not over, the start-up platforms. It keeps the player's `isJumping` and the frame counter. |
| `Frame.Step` | game.js:147-174 | While playing, a frame moves the player as `movePlayer` does, changes nothing but the player, score, flag and counter, and sets `gameOver` exactly when the player fell out. It adds one point when `frameCount % 10 == 0`, even on the frame that ends the game. While over, Space restarts and anything else leaves the state unchanged. `frameCount` advances in both states. |
| `Frame.RunCountsFrames` | game.js:171-172 | After n frames, `frameCount` has grown by exactly n, whatever happened. |
| `Frame.ScoreWhilePlaying` | game.js:151-163 | Over frames that all start in play, the score grows by the number of frame numbers divisible by 10. The last of those frames may be the one on which the player falls out. |
| `Frame.PlatformsFixedWhilePlaying` | game.js:151-163 | Over frames that all start in play, the platform list stays exactly as it was. |
| `Frame.TenthFramesCount` | game.js:160-163 | Closed form: the number of scoring frames among n frames from `lo` is `(lo+n+9)/10 - (lo+9)/10`. |
| `Frame.ScoreFromStart` | game.js:160-163 | From the start-up state (`frameCount = 0`), n frames of play give a score of `(n+9)/10`. |
| `Frame.OverIsFrozen` | game.js:164-169 | A finished game stays exactly as it is, apart from `frameCount`, until Space is held. |
| `Frame.RestartFrame` | game.js:164-168 | Space on the game-over screen gives back the start-up platforms, score 0, not over, and a player at (100, 200) at rest. The player keeps its `isJumping`. |

## Left out

- Drawing: the canvas set-up and every draw call (`drawPlayer`, `drawPlatforms`, `drawScore`, `drawGameOver`, `clearRect`). These are rendering side effects with no influence on the state.
- Key listeners: the keydown and keyup handlers. The key map is a plain record, `Input.KeyState`, given to each frame. A code that was never pressed reads as not held.
- The `requestAnimationFrame` driver: one call of the loop body is one `Frame.Step`, and `Frame.Run` chains several.
- The resize listener: the canvas size is a parameter of every frame (`Physics.Canvas`) and may differ between frames. The start-up size of 800 by 400 is not fixed by the model.
- Colours of the player and the platforms: cosmetic only.
- Number precision: `score` and `frameCount` are unbounded naturals. A JavaScript number stops counting exactly past 2^53 frames, which is out of reach of a real session.
- Real-number fidelity: positions are exact reals. JavaScript doubles represent every value reachable from the start-up state exactly, as long as magnitudes stay far below 2^52.
