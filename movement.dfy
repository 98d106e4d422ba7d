/** The plane's per-tick horizontal movement (the move loop). */
module Movement {
  import opened Entities

  /** The plane's x after one move tick: left is applied first and clamped at 0,
      then right, clamped at gameWidth - width. */
  function MovedX(x: real, width: real, gameWidth: real, keys: Keys): (nx: real)
    requires 0.0 <= x <= gameWidth - width
    ensures 0.0 <= nx <= gameWidth - width
    ensures !keys.left && !keys.right ==> nx == x
    ensures keys.left && !keys.right && StepSize <= x ==> nx == x - StepSize
    ensures keys.left && !keys.right && x < StepSize ==> nx == 0.0
    ensures keys.right && !keys.left && x + StepSize <= gameWidth - width ==> nx == x + StepSize
    ensures keys.right && !keys.left && gameWidth - width < x + StepSize ==> nx == gameWidth - width
    ensures keys.left && keys.right && StepSize <= x ==> nx == x
  {
    var afterLeft := if keys.left then Max(0.0, x - StepSize) else x;
    if keys.right then Min(gameWidth - width, afterLeft + StepSize) else afterLeft
  }

  /** The plane's x after one move tick per element of `ticks`; stays on the
      playfield whatever keys are held. */
  function Steer(x: real, width: real, gameWidth: real, ticks: seq<Keys>): (nx: real)
    requires 0.0 <= x <= gameWidth - width
    ensures 0.0 <= nx <= gameWidth - width
    ensures (forall k :: k in ticks ==> !k.left && !k.right) ==> nx == x
    decreases |ticks|
  {
    if ticks == [] then x
    else Steer(MovedX(x, width, gameWidth, ticks[0]), width, gameWidth, ticks[1..])
  }

  /** `n` ticks with only the right key held. */
  function HoldRight(n: nat): (ticks: seq<Keys>)
    ensures |ticks| == n && forall k :: k in ticks ==> k == Keys(false, true)
  {
    seq(n, _ => Keys(false, true))
  }

  /** Holding right for n ticks moves the plane by 5 per tick until it reaches
      the right edge of the playfield. */
  lemma {:induction false} HoldRightReachesEdge(x: real, width: real, gameWidth: real, n: nat)
    requires 0.0 <= x <= gameWidth - width
    ensures Steer(x, width, gameWidth, HoldRight(n)) == Min(gameWidth - width, x + StepSize * n as real)
    decreases n
  {
    if n > 0 {
      var ticks := HoldRight(n);
      assert ticks[0] == Keys(false, true);
      assert ticks[1..] == HoldRight(n - 1);
      var x1 := MovedX(x, width, gameWidth, ticks[0]);
      HoldRightReachesEdge(x1, width, gameWidth, n - 1);
    }
  }

  /** Plane at x = 120, width 80, playfield 360: twenty ticks of right give x = 220. */
  lemma RightForTwentyTicks()
    ensures Steer(120.0, 80.0, MobileWidth, HoldRight(20)) == 220.0
  {
    HoldRightReachesEdge(120.0, 80.0, MobileWidth, 20);
  }
}
