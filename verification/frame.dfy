/** The game state and the non-drawing part of one `gameLoop` call.

    The game is a two-state machine.  While playing, a frame moves the player
    and adds a point on every tenth frame.  While over, a frame waits for
    Space, which restarts the game.  The frame counter advances in both
    states.
 */
module Frame {
  import opened Input
  import opened Physics

  /** Everything a frame reads or writes besides the keys and the canvas. */
  datatype Game = Game(player: Player, platforms: seq<Platform>, score: nat, gameOver: bool, frameCount: nat)

  /** What one frame reads from outside: the key map and the canvas size. */
  datatype FrameInput = FrameInput(keys: KeyState, canvas: Canvas)

  /** The fixed four-platform layout. */
  const InitialPlatforms: seq<Platform> := [
    Platform(0.0, 350.0, 200.0, 20.0),
    Platform(250.0, 320.0, 150.0, 20.0),
    Platform(450.0, 280.0, 150.0, 20.0),
    Platform(650.0, 350.0, 200.0, 20.0)
  ]

  const InitialPlayer: Player := Player(100.0, 200.0, 0.0, 0.0, false)

  /** The state before the first frame. */
  const InitialGame: Game := Game(InitialPlayer, InitialPlatforms, 0, false, 0)

  /** `generatePlatforms`: a fresh copy of the start-up layout. */
  function GeneratePlatforms(): (r: seq<Platform>)
    ensures r == InitialGame.platforms
    ensures |r| == 4
    ensures forall i :: 0 <= i < |r| ==> r[i].width > 0.0 && r[i].height == 20.0
  {
    [
      Platform(0.0, 350.0, 200.0, 20.0),
      Platform(250.0, 320.0, 150.0, 20.0),
      Platform(450.0, 280.0, 150.0, 20.0),
      Platform(650.0, 350.0, 200.0, 20.0)
    ]
  }

  /** `restartGame`: back to the start-up state, except that the player's
      `isJumping` flag and the frame counter are kept. */
  function Restart(g: Game): (r: Game)
    ensures r == InitialGame.(player := InitialPlayer.(isJumping := g.player.isJumping),
                              frameCount := g.frameCount)
    ensures !g.player.isJumping ==> r == InitialGame.(frameCount := g.frameCount)
  {
    var p := g.player.(x := 100.0, y := 200.0, velocityX := 0.0, velocityY := 0.0);
    g.(player := p, score := 0, gameOver := false, platforms := GeneratePlatforms())
  }

  /** One point is scored on every frame whose number is a multiple of ten. */
  predicate ScoringFrame(frameCount: nat)
  {
    frameCount % 10 == 0
  }

  /** One call of `gameLoop`, without the drawing. */
  function Step(g: Game, input: FrameInput): (r: Game)
    ensures r.frameCount == g.frameCount + 1
    ensures !g.gameOver ==>
              && r.player == MovePlayer(g.player, input.keys, g.platforms, input.canvas, false).player
              && (r.gameOver <==> r.player.y > input.canvas.height)
              && r.score == g.score + (if ScoringFrame(g.frameCount) then 1 else 0)
              && r == g.(player := r.player, gameOver := r.gameOver, score := r.score, frameCount := r.frameCount)
    ensures g.gameOver && input.keys.RestartHeld() ==> r == Restart(g).(frameCount := g.frameCount + 1)
    ensures g.gameOver && !input.keys.RestartHeld() ==> r == g.(frameCount := g.frameCount + 1)
    ensures g.gameOver ==> (r.gameOver <==> !input.keys.RestartHeld())
  {
    var updated :=
      if !g.gameOver then
        var m := MovePlayer(g.player, input.keys, g.platforms, input.canvas, g.gameOver);
        var score := if g.frameCount % 10 == 0 then g.score + 1 else g.score;
        g.(player := m.player, gameOver := m.gameOver, score := score)
      else if input.keys.RestartHeld() then
        Restart(g)
      else
        g;
    updated.(frameCount := g.frameCount + 1)
  }

  /** Successive frames, one per input. */
  function Run(g: Game, inputs: seq<FrameInput>): Game
    decreases |inputs|
  {
    if |inputs| == 0 then g else Run(Step(g, inputs[0]), inputs[1..])
  }

  /** Every frame of the run starts in the playing state (the last one may
      end the game). */
  predicate PlaysThrough(g: Game, inputs: seq<FrameInput>)
    decreases |inputs|
  {
    |inputs| == 0 || (!g.gameOver && PlaysThrough(Step(g, inputs[0]), inputs[1..]))
  }

  /** The number of scoring frames among the `n` frames numbered from `lo`. */
  function TenthFrames(lo: nat, n: nat): nat
    decreases n
  {
    if n == 0 then 0 else (if ScoringFrame(lo) then 1 else 0) + TenthFrames(lo + 1, n - 1)
  }

  /** Closed form: the multiples of ten in the half-open range [lo, lo + n). */
  lemma {:induction false} TenthFramesCount(lo: nat, n: nat)
    ensures TenthFrames(lo, n) == (lo + n + 9) / 10 - (lo + 9) / 10
    decreases n
  {
    if n > 0 {
      TenthFramesCount(lo + 1, n - 1);
      assert (lo + 10) / 10 - (lo + 9) / 10 == (if lo % 10 == 0 then 1 else 0);
    }
  }

  /** The frame counter advances once per frame, whatever the state. */
  lemma {:induction false} RunCountsFrames(g: Game, inputs: seq<FrameInput>)
    ensures Run(g, inputs).frameCount == g.frameCount + |inputs|
    decreases |inputs|
  {
    if |inputs| > 0 {
      RunCountsFrames(Step(g, inputs[0]), inputs[1..]);
    }
  }

  /** While the game is played, the score grows by the number of scoring
      frames, including the frame on which the player falls out. */
  lemma {:induction false} ScoreWhilePlaying(g: Game, inputs: seq<FrameInput>)
    requires PlaysThrough(g, inputs)
    ensures Run(g, inputs).score == g.score + TenthFrames(g.frameCount, |inputs|)
    decreases |inputs|
  {
    if |inputs| > 0 {
      var next := Step(g, inputs[0]);
      ScoreWhilePlaying(next, inputs[1..]);
    }
  }

  /** The platform layout never changes while the game is played. */
  lemma {:induction false} PlatformsFixedWhilePlaying(g: Game, inputs: seq<FrameInput>)
    requires PlaysThrough(g, inputs)
    ensures Run(g, inputs).platforms == g.platforms
    decreases |inputs|
  {
    if |inputs| > 0 {
      var next := Step(g, inputs[0]);
      PlatformsFixedWhilePlaying(next, inputs[1..]);
    }
  }

  /** From the start-up state, n frames of play score one point per started
      ten frames. */
  lemma ScoreFromStart(inputs: seq<FrameInput>)
    requires PlaysThrough(InitialGame, inputs)
    ensures Run(InitialGame, inputs).score == (|inputs| + 9) / 10
  {
    ScoreWhilePlaying(InitialGame, inputs);
    TenthFramesCount(InitialGame.frameCount, |inputs|);
  }

  /** No key of the run is Space. */
  predicate NoRestart(inputs: seq<FrameInput>)
  {
    forall i :: 0 <= i < |inputs| ==> !inputs[i].keys.RestartHeld()
  }

  /** A finished game stays exactly as it is, apart from the frame counter,
      until Space is held. */
  lemma {:induction false} OverIsFrozen(g: Game, inputs: seq<FrameInput>)
    requires g.gameOver
    requires NoRestart(inputs)
    ensures Run(g, inputs) == g.(frameCount := g.frameCount + |inputs|)
    decreases |inputs|
  {
    if |inputs| > 0 {
      assert NoRestart(inputs[1..]) by {
        forall i | 0 <= i < |inputs| - 1
          ensures !inputs[1..][i].keys.RestartHeld()
        {
          assert inputs[1..][i] == inputs[i + 1];
        }
      }
      OverIsFrozen(Step(g, inputs[0]), inputs[1..]);
    }
  }

  /** Space on the game-over screen gives back the start-up platforms, a
      zero score and a player at the start position at rest. */
  lemma RestartFrame(g: Game, input: FrameInput)
    requires g.gameOver && input.keys.RestartHeld()
    ensures var r := Step(g, input);
            && !r.gameOver
            && r.score == 0
            && r.platforms == InitialPlatforms
            && r.player.x == 100.0 && r.player.y == 200.0
            && r.player.velocityX == 0.0 && r.player.velocityY == 0.0
            && r.player.isJumping == g.player.isJumping
  {
  }
}
