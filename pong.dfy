/**
 * The Pong physics tick: two paddles on a 600 x 400 field, a ball moving
 * by (vx, vy) each frame, reflection at the top and bottom walls and at
 * the paddles, and a point for the opponent when the ball leaves the
 * field on one side.
 *
 * Positions are exact reals. Math.random becomes caller-supplied numbers
 * in [0, 1); a held key set and touch points are explicit inputs.
 */
module Pong {

  /** The two players, named after their side of the field. */
  datatype Side = LeftSide | RightSide

  /** The ball record: position and velocity. */
  datatype Ball = Ball(x: real, y: real, vx: real, vy: real)

  /** A touch point in window coordinates. */
  datatype TouchPoint = TouchPoint(clientX: real, clientY: real)

  /** Everything a tick reads and writes. */
  datatype Frame = Frame(ball: Ball, left: real, right: real, started: bool, scoreLeft: nat, scoreRight: nat)

  const FieldWidth: real := 600.0
  const PaddleTop: real := 300.0
  const PaddleHeight: real := 100.0
  const PaddleStep: real := 6.0
  const Speed: real := 4.0
  const BottomWall: real := 388.0
  const LeftPaddleX: real := 20.0
  const RightPaddleX: real := 568.0
  const TouchOffset: real := 50.0

  /** The ball in the middle of the field, as it is first served. */
  const Kickoff: Ball := Ball(294.0, 194.0, 4.0, 4.0)

  /** The keys that move a human paddle and so start the rally. */
  const StartKeys: set<string> := {"w", "s", "ArrowUp", "ArrowDown"}

  /** clamp: the nearest point of [0, 300]. */
  function Clamp(y: real): (r: real)
    ensures 0.0 <= r <= PaddleTop
    ensures 0.0 <= y <= PaddleTop ==> r == y
    ensures y < 0.0 ==> r == 0.0
    ensures y > PaddleTop ==> r == PaddleTop
  {
    if y < 0.0 then 0.0 else if y > PaddleTop then PaddleTop else y
  }

  /** Clamping twice is clamping once. */
  lemma ClampIdempotent(y: real)
    ensures Clamp(Clamp(y)) == Clamp(y)
  {
  }

  /** Clamping keeps order. */
  lemma ClampMonotone(a: real, b: real)
    requires a <= b
    ensures Clamp(a) <= Clamp(b)
  {
  }

  /** A velocity component the game uses: 4 or -4. */
  predicate IsSpeed(v: real)
  {
    v == Speed || v == -Speed
  }

  /** One component of a serve: 4 when the random number exceeds 0.5, -4 otherwise. */
  function ServeSign(u: real): (v: real)
    ensures IsSpeed(v)
    ensures v == Speed <==> u > 0.5
  {
    if u > 0.5 then Speed else -Speed
  }

  /** resetBall: the ball at (294, 194) with a random sign on each velocity component. */
  function Served(uX: real, uY: real): (b: Ball)
    ensures b.x == 294.0 && b.y == 194.0
    ensures b.vx == ServeSign(uX) && b.vy == ServeSign(uY)
  {
    Ball(294.0, 194.0, ServeSign(uX), ServeSign(uY))
  }

  /** A human paddle before clamping: up by 6 if `up` is held, then down by 6 if `down` is held. */
  function HumanStep(p: real, up: bool, down: bool): (r: real)
    ensures r == p - PaddleStep || r == p || r == p + PaddleStep
  {
    var raised := if up then p - PaddleStep else p;
    if down then raised + PaddleStep else raised
  }

  /** A held key moves the paddle by exactly 6; both keys together cancel out. */
  lemma HumanStepMoves(p: real, up: bool, down: bool)
    ensures up && !down ==> HumanStep(p, up, down) == p - 6.0
    ensures down && !up ==> HumanStep(p, up, down) == p + 6.0
    ensures up == down ==> HumanStep(p, up, down) == p
  {
  }

  /**
   * The computer paddle before clamping: it heads for the ball's height less
   * 40 and never overshoots it; it stays put only when already there.
   */
  function AiStep(right: real, ballY: real): (r: real)
    ensures var t := ballY - 40.0; (right <= t ==> right <= r <= t) && (t <= right ==> t <= r <= right)
    ensures (r == right) <==> (right == ballY - 40.0)
  {
    right + (ballY - right - 40.0) * 0.05
  }

  /** The ball touches the paddle whose top is at `top` at the ball's height `y`, bounds included. */
  predicate Covers(top: real, y: real)
  {
    top <= y <= top + PaddleHeight
  }

  /** The paddle half of update: both paddles step and are clamped; the ball and the scores wait. */
  function MovePaddles(f: Frame, held: set<string>, ai: bool): (r: Frame)
    ensures 0.0 <= r.left <= PaddleTop && 0.0 <= r.right <= PaddleTop
    ensures r.ball == f.ball && r.started == f.started
    ensures r.scoreLeft == f.scoreLeft && r.scoreRight == f.scoreRight
  {
    var left := Clamp(HumanStep(f.left, "w" in held, "s" in held));
    var right := Clamp(if ai then AiStep(f.right, f.ball.y)
                       else HumanStep(f.right, "ArrowUp" in held, "ArrowDown" in held));
    f.(left := left, right := right)
  }

  /**
   * The ball half of update, once the rally has started: the ball advances,
   * reflects off a wall or a paddle, and a ball past a goal line scores.
   */
  function MoveBall(f: Frame, uX: real, uY: real): (r: Frame)
    ensures r.left == f.left && r.right == f.right
    ensures r.scoreLeft >= f.scoreLeft && r.scoreRight >= f.scoreRight
    ensures r.scoreLeft + r.scoreRight == f.scoreLeft + f.scoreRight + (if r.started then 0 else 1)
    ensures !r.started ==> r.ball == Served(uX, uY)
  {
    var x := f.ball.x + f.ball.vx;
    var y := f.ball.y + f.ball.vy;
    var vy := if y <= 0.0 || y >= BottomWall then -f.ball.vy else f.ball.vy;
    var vx1 := if x <= LeftPaddleX && Covers(f.left, y) then -f.ball.vx else f.ball.vx;
    var vx := if x >= RightPaddleX && Covers(f.right, y) then -vx1 else vx1;
    if x < 0.0 then Frame(Served(uX, uY), f.left, f.right, false, f.scoreLeft, f.scoreRight + 1)
    else if x > FieldWidth then Frame(Served(uX, uY), f.left, f.right, false, f.scoreLeft + 1, f.scoreRight)
    else Frame(Ball(x, y, vx, vy), f.left, f.right, true, f.scoreLeft, f.scoreRight)
  }

  /** update, for one animation frame: the ball moves only once the rally has started. */
  function Tick(f: Frame, held: set<string>, ai: bool, uX: real, uY: real): (r: Frame)
    ensures 0.0 <= r.left <= PaddleTop && 0.0 <= r.right <= PaddleTop
    ensures r.scoreLeft >= f.scoreLeft && r.scoreRight >= f.scoreRight
  {
    var g := MovePaddles(f, held, ai);
    if !g.started then g else MoveBall(g, uX, uY)
  }

  /**
   * The state every tick keeps: paddles on the field, speed 4 on each
   * axis, the ball between the goal lines, and a ball at or beyond a wall
   * already heading back.
   */
  predicate InPlay(f: Frame)
  {
    && 0.0 <= f.left <= PaddleTop && 0.0 <= f.right <= PaddleTop
    && IsSpeed(f.ball.vx) && IsSpeed(f.ball.vy)
    && 0.0 <= f.ball.x <= FieldWidth
    && -Speed < f.ball.y < BottomWall + Speed
    && (f.ball.y <= 0.0 ==> f.ball.vy == Speed)
    && (f.ball.y >= BottomWall ==> f.ball.vy == -Speed)
  }

  /** The initial state is in play. */
  lemma KickoffInPlay()
    ensures InPlay(Frame(Kickoff, 150.0, 150.0, false, 0, 0))
  {
  }

  /** A serve is in play whatever the paddles. */
  lemma ServedInPlay(uX: real, uY: real, left: real, right: real, started: bool, sl: nat, sr: nat)
    requires 0.0 <= left <= PaddleTop && 0.0 <= right <= PaddleTop
    ensures InPlay(Frame(Served(uX, uY), left, right, started, sl, sr))
  {
  }

  /** After any tick both paddles are on the field, whatever keys are held. */
  lemma TickPaddlesInRange(f: Frame, held: set<string>, ai: bool, uX: real, uY: real)
    ensures var g := Tick(f, held, ai, uX, uY); 0.0 <= g.left <= PaddleTop && 0.0 <= g.right <= PaddleTop
  {
  }

  /** The human paddles follow their keys: a step of 6, then the clamp. */
  lemma TickHumanPaddles(f: Frame, held: set<string>, ai: bool, uX: real, uY: real)
    ensures var g := Tick(f, held, ai, uX, uY);
      && g.left == Clamp(HumanStep(f.left, "w" in held, "s" in held))
      && (!ai ==> g.right == Clamp(HumanStep(f.right, "ArrowUp" in held, "ArrowDown" in held)))
      && (ai ==> g.right == Clamp(AiStep(f.right, f.ball.y)))
  {
  }

  /** Before the rally starts a tick moves only the paddles. */
  lemma TickIdle(f: Frame, held: set<string>, ai: bool, uX: real, uY: real)
    requires !f.started
    ensures var g := Tick(f, held, ai, uX, uY);
      g.ball == f.ball && !g.started && g.scoreLeft == f.scoreLeft && g.scoreRight == f.scoreRight
  {
  }

  /**
   * A started ball that stays between the goal lines has moved by its
   * velocity; vy is negated exactly at a wall and vx exactly at a paddle.
   */
  lemma TickBounce(f: Frame, held: set<string>, ai: bool, uX: real, uY: real)
    requires f.started && IsSpeed(f.ball.vx) && IsSpeed(f.ball.vy)
    requires 0.0 <= f.ball.x + f.ball.vx <= FieldWidth
    ensures var g := Tick(f, held, ai, uX, uY);
      var x := f.ball.x + f.ball.vx;
      var y := f.ball.y + f.ball.vy;
      && g.ball.x == x && g.ball.y == y && g.started
      && (g.ball.vy == -f.ball.vy <==> y <= 0.0 || y >= BottomWall)
      && (g.ball.vy == f.ball.vy <==> 0.0 < y < BottomWall)
      && (g.ball.vx == -f.ball.vx <==>
            (x <= LeftPaddleX && Covers(g.left, y)) || (x >= RightPaddleX && Covers(g.right, y)))
      && g.scoreLeft == f.scoreLeft && g.scoreRight == f.scoreRight
  {
  }

  /**
   * A ball past a goal line gives the opponent exactly one point, is served
   * again from the middle and stops the rally.
   */
  lemma TickGoal(f: Frame, held: set<string>, ai: bool, uX: real, uY: real)
    requires f.started
    ensures var g := Tick(f, held, ai, uX, uY);
      var x := f.ball.x + f.ball.vx;
      && (x < 0.0 ==> g.scoreRight == f.scoreRight + 1 && g.scoreLeft == f.scoreLeft)
      && (x > FieldWidth ==> g.scoreLeft == f.scoreLeft + 1 && g.scoreRight == f.scoreRight)
      && (x < 0.0 || x > FieldWidth ==> g.ball == Served(uX, uY) && !g.started)
  {
  }

  /** No tick scores more than one point, and none takes a point away. */
  lemma TickScoresAtMostOne(f: Frame, held: set<string>, ai: bool, uX: real, uY: real)
    ensures var g := Tick(f, held, ai, uX, uY);
      && g.scoreLeft >= f.scoreLeft && g.scoreRight >= f.scoreRight
      && g.scoreLeft + g.scoreRight <= f.scoreLeft + f.scoreRight + 1
      && (g.scoreLeft + g.scoreRight == f.scoreLeft + f.scoreRight + 1 <==> f.started && !g.started)
  {
  }

  /** Every tick keeps the game in play; in particular |vx| = |vy| = 4 forever. */
  lemma TickKeepsInPlay(f: Frame, held: set<string>, ai: bool, uX: real, uY: real)
    requires InPlay(f)
    ensures InPlay(Tick(f, held, ai, uX, uY))
  {
    var g := Tick(f, held, ai, uX, uY);
    if f.started {
      var y := f.ball.y + f.ball.vy;
      if f.ball.vy == Speed {
        assert 0.0 < y < BottomWall + Speed;
      } else {
        assert -Speed < y < BottomWall;
      }
    }
  }

  /**
   * Where the paddle on one half ends after a touch event: the clamped
   * height of the last touch on that half, or `p` if there is none.
   */
  function TouchedPaddle(p: real, touches: seq<TouchPoint>, width: real, onLeft: bool): (r: real)
    ensures r == p || exists k :: 0 <= k < |touches| && OnHalf(touches[k], width, onLeft) && r == Clamp(touches[k].clientY - TouchOffset)
  {
    if touches == [] then p
    else
      var t := touches[|touches| - 1];
      if (t.clientX < width / 2.0) == onLeft then Clamp(t.clientY - TouchOffset)
      else
        var init := touches[..|touches| - 1];
        assert forall k :: 0 <= k < |init| ==> init[k] == touches[k];
        TouchedPaddle(p, init, width, onLeft)
  }

  /** A touch on the given half. */
  predicate OnHalf(t: TouchPoint, width: real, onLeft: bool)
  {
    (t.clientX < width / 2.0) == onLeft
  }

  /** With no touch on its half a paddle stays where it is. */
  lemma {:induction false} TouchedPaddleUntouched(p: real, touches: seq<TouchPoint>, width: real, onLeft: bool)
    requires forall i :: 0 <= i < |touches| ==> !OnHalf(touches[i], width, onLeft)
    ensures TouchedPaddle(p, touches, width, onLeft) == p
    decreases |touches|
  {
    if touches != [] {
      var init := touches[..|touches| - 1];
      assert forall i :: 0 <= i < |init| ==> init[i] == touches[i];
      TouchedPaddleUntouched(p, init, width, onLeft);
    }
  }

  /** A paddle ends at the clamped height of the last touch on its half; later touches elsewhere do not matter. */
  lemma {:induction false} TouchedPaddleFollowsLast(p: real, touches: seq<TouchPoint>, width: real, onLeft: bool, k: int)
    requires 0 <= k < |touches| && OnHalf(touches[k], width, onLeft)
    requires forall i :: k < i < |touches| ==> !OnHalf(touches[i], width, onLeft)
    ensures TouchedPaddle(p, touches, width, onLeft) == Clamp(touches[k].clientY - TouchOffset)
    decreases |touches|
  {
    if k < |touches| - 1 {
      var init := touches[..|touches| - 1];
      assert forall i :: 0 <= i < |init| ==> init[i] == touches[i];
      assert !OnHalf(touches[|touches| - 1], width, onLeft);
      TouchedPaddleFollowsLast(p, init, width, onLeft, k);
    }
  }

  /** A paddle on the field stays on the field through any touch event. */
  lemma {:induction false} TouchedPaddleInRange(p: real, touches: seq<TouchPoint>, width: real, onLeft: bool)
    requires 0.0 <= p <= PaddleTop
    ensures 0.0 <= TouchedPaddle(p, touches, width, onLeft) <= PaddleTop
    decreases |touches|
  {
    if touches != [] {
      TouchedPaddleInRange(p, touches[..|touches| - 1], width, onLeft);
    }
  }

  /** The Pong component's state: the ball and paddle refs, the started flag, the held keys and the score. */
  class Game {
    const landscape: bool
    var ball: Ball
    var left: real
    var right: real
    var started: bool
    var scoreLeft: nat
    var scoreRight: nat
    var aiEnabled: bool
    var held: set<string>

    /** The part of the state a tick reads and writes. */
    function Snapshot(): Frame
      reads this
    {
      Frame(ball, left, right, started, scoreLeft, scoreRight)
    }

    ghost predicate Valid()
      reads this
    {
      InPlay(Snapshot())
    }

    /** The initial state: ball at kickoff, both paddles at 150, no score, computer off. */
    constructor (landscape: bool)
      ensures Valid()
      ensures this.landscape == landscape
      ensures ball == Kickoff && left == 150.0 && right == 150.0
      ensures !started && scoreLeft == 0 && scoreRight == 0 && !aiEnabled && held == {}
    {
      this.landscape := landscape;
      ball := Kickoff;
      left := 150.0;
      right := 150.0;
      started := false;
      scoreLeft := 0;
      scoreRight := 0;
      aiEnabled := false;
      held := {};
    }

    /** keydown: the key is held; a paddle key starts the rally. */
    method KeyDown(key: string)
      requires Valid()
      modifies this
      ensures Valid()
      ensures held == old(held) + {key}
      ensures started == (old(started) || key in StartKeys)
      ensures ball == old(ball) && left == old(left) && right == old(right)
      ensures scoreLeft == old(scoreLeft) && scoreRight == old(scoreRight) && aiEnabled == old(aiEnabled)
    {
      held := held + {key};
      if key in StartKeys {
        started := true;
      }
    }

    /** keyup: the key is released. */
    method KeyUp(key: string)
      requires Valid()
      modifies this
      ensures Valid()
      ensures held == old(held) - {key}
      ensures Snapshot() == old(Snapshot()) && aiEnabled == old(aiEnabled)
    {
      held := held - {key};
    }

    /** The button that switches the computer player on or off. */
    method ToggleAi()
      requires Valid()
      modifies this
      ensures Valid()
      ensures aiEnabled == !old(aiEnabled)
      ensures Snapshot() == old(Snapshot()) && held == old(held)
    {
      aiEnabled := !aiEnabled;
    }

    /**
     * handleTouch: in landscape a touch starts the rally and each touch, in
     * order, sets the paddle on its half of the window to its clamped height.
     */
    method Touch(touches: seq<TouchPoint>, width: real)
      requires Valid()
      modifies this
      ensures Valid()
      ensures !landscape ==> Snapshot() == old(Snapshot())
      ensures landscape ==>
        && started
        && left == TouchedPaddle(old(left), touches, width, true)
        && right == TouchedPaddle(old(right), touches, width, false)
      ensures ball == old(ball) && scoreLeft == old(scoreLeft) && scoreRight == old(scoreRight)
      ensures aiEnabled == old(aiEnabled) && held == old(held)
    {
      if !landscape {
        return;
      }
      started := true;
      for i := 0 to |touches|
        invariant left == TouchedPaddle(old(left), touches[..i], width, true)
        invariant right == TouchedPaddle(old(right), touches[..i], width, false)
        invariant ball == old(ball) && scoreLeft == old(scoreLeft) && scoreRight == old(scoreRight)
        invariant started && aiEnabled == old(aiEnabled) && held == old(held)
      {
        assert touches[..i + 1][..i] == touches[..i];
        var t := touches[i];
        var y := t.clientY - TouchOffset;
        if t.clientX < width / 2.0 {
          left := Clamp(y);
        } else {
          right := Clamp(y);
        }
      }
      assert touches[..|touches|] == touches;
      TouchedPaddleInRange(old(left), touches, width, true);
      TouchedPaddleInRange(old(right), touches, width, false);
    }

    /** resetBall: a new serve from the middle. */
    method ResetBall(uX: real, uY: real)
      requires 0.0 <= left <= PaddleTop && 0.0 <= right <= PaddleTop
      modifies this
      ensures Valid()
      ensures ball == Served(uX, uY)
      ensures left == old(left) && right == old(right) && started == old(started)
      ensures scoreLeft == old(scoreLeft) && scoreRight == old(scoreRight)
      ensures aiEnabled == old(aiEnabled) && held == old(held)
    {
      ball := Served(uX, uY);
      ServedInPlay(uX, uY, left, right, started, scoreLeft, scoreRight);
    }

    /** scorePoint: one point for `player`, a new serve, and the rally stops. */
    method ScorePoint(player: Side, uX: real, uY: real)
      requires 0.0 <= left <= PaddleTop && 0.0 <= right <= PaddleTop
      modifies this
      ensures Valid()
      ensures scoreLeft == old(scoreLeft) + (if player == LeftSide then 1 else 0)
      ensures scoreRight == old(scoreRight) + (if player == RightSide then 1 else 0)
      ensures ball == Served(uX, uY) && !started
      ensures left == old(left) && right == old(right)
      ensures aiEnabled == old(aiEnabled) && held == old(held)
    {
      if player == LeftSide {
        scoreLeft := scoreLeft + 1;
      } else {
        scoreRight := scoreRight + 1;
      }
      ResetBall(uX, uY);
      started := false;
    }

    /** The paddle half of update. */
    method StepPaddles()
      modifies this
      ensures Snapshot() == MovePaddles(old(Snapshot()), held, aiEnabled)
      ensures aiEnabled == old(aiEnabled) && held == old(held)
    {
      if "w" in held {
        left := left - PaddleStep;
      }
      if "s" in held {
        left := left + PaddleStep;
      }
      if !aiEnabled {
        if "ArrowUp" in held {
          right := right - PaddleStep;
        }
        if "ArrowDown" in held {
          right := right + PaddleStep;
        }
      } else {
        right := right + (ball.y - right - 40.0) * 0.05;
      }
      left := Clamp(left);
      right := Clamp(right);
    }

    /** The ball half of update, for a started rally. */
    method StepBall(uX: real, uY: real)
      requires started && 0.0 <= left <= PaddleTop && 0.0 <= right <= PaddleTop
      modifies this
      ensures Snapshot() == MoveBall(old(Snapshot()), uX, uY)
      ensures aiEnabled == old(aiEnabled) && held == old(held)
    {
      ball := ball.(x := ball.x + ball.vx);
      ball := ball.(y := ball.y + ball.vy);
      if ball.y <= 0.0 || ball.y >= BottomWall {
        ball := ball.(vy := -ball.vy);
      }
      if ball.x <= LeftPaddleX && ball.y >= left && ball.y <= left + PaddleHeight {
        ball := ball.(vx := -ball.vx);
      }
      if ball.x >= RightPaddleX && ball.y >= right && ball.y <= right + PaddleHeight {
        ball := ball.(vx := -ball.vx);
      }
      if ball.x < 0.0 {
        ScorePoint(RightSide, uX, uY);
      }
      if ball.x > FieldWidth {
        ScorePoint(LeftSide, uX, uY);
      }
    }

    /** update: one animation frame, only in landscape. */
    method Update(uX: real, uY: real)
      requires Valid()
      modifies this
      ensures Valid()
      ensures !landscape ==> Snapshot() == old(Snapshot())
      ensures landscape ==> Snapshot() == Tick(old(Snapshot()), held, aiEnabled, uX, uY)
      ensures aiEnabled == old(aiEnabled) && held == old(held)
    {
      if !landscape {
        return;
      }
      ghost var before := Snapshot();
      TickKeepsInPlay(before, held, aiEnabled, uX, uY);

      StepPaddles();
      if !started {
        return;
      }
      StepBall(uX, uY);
    }
  }
}
