/** Keyboard state as the game reads it once per frame.

    The browser key map is a record of `e.code` strings to booleans that is
    written by key listeners; a code that was never pressed reads as
    `undefined`, which the game treats as "not held". Here the map is the
    plain record of the seven codes the game looks at.
 */
module Input {

  datatype KeyState = KeyState(
    arrowLeft: bool,
    keyA: bool,
    arrowRight: bool,
    keyD: bool,
    arrowUp: bool,
    keyW: bool,
    space: bool)
  {
    /** Either left key: ArrowLeft or KeyA. */
    predicate LeftHeld() {
      arrowLeft || keyA
    }

    /** Either right key: ArrowRight or KeyD. */
    predicate RightHeld() {
      arrowRight || keyD
    }

    /** Any jump key: ArrowUp, KeyW or Space. */
    predicate JumpHeld() {
      arrowUp || keyW || space
    }

    /** The restart key on the game-over screen: Space only. */
    predicate RestartHeld() {
      space
    }
  }

  /** No key held at all. */
  const NoKeys: KeyState := KeyState(false, false, false, false, false, false, false)
}
