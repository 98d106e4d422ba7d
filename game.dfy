/** The game component's state and its per-tick updates, lifted out of React
    into one object. The two timers and the effect become three methods
    that a whole tick runs in order: move, scroll, evaluate. */
module PlaneGame {
  import opened Entities
  import opened BuildingPairs
  import opened Movement
  import opened Scroll
  import opened Scoring

  /** The three pairs resetGame places above the playfield, from three draws of Math.random(). */
  function InitialBuildings(gameWidth: real, r1: real, r2: real, r3: real): (bs: seq<Building>)
    requires 0.0 <= r1 < 1.0 && 0.0 <= r2 < 1.0 && 0.0 <= r3 < 1.0
    ensures |bs| == MinBuildings && PairedUp(bs)
    ensures forall b :: b in bs ==> !b.passed && b.y < 0.0
    ensures PairId(bs[0].id) == 1 && PairId(bs[2].id) == 2 && PairId(bs[4].id) == 3
    ensures bs[0].y == FirstSpawnY && bs[2].y == bs[0].y - 200.0 && bs[4].y == bs[2].y - 200.0
  {
    var p1 := CreateBuildingPair(1, -150.0, gameWidth, r1);
    var p2 := CreateBuildingPair(2, -350.0, gameWidth, r2);
    var p3 := CreateBuildingPair(3, -550.0, gameWidth, r3);
    PairedUpAppend(p2, p3);
    PairedUpAppend(p1, p2 + p3);
    assert p1 + p2 + p3 == p1 + (p2 + p3);
    p1 + p2 + p3
  }

  /** The `forEach` of the collision and scoring effect over a snapshot of
      the buildings: a hit sets `collision` and skips the building; otherwise an
      unpassed building far enough below the plane adds a point if its id is
      even and queues the marking of its whole pair as passed. */
  method CollisionPass(plane: Plane, snapshot: seq<Building>, score: nat)
    returns (newScore: nat, collision: bool, marked: seq<Building>)
    ensures newScore == score + Gain(plane, snapshot)
    ensures collision == AnyHit(plane, snapshot)
    ensures marked == MarkPairs(snapshot, ClearedPairIds(plane, snapshot))
  {
    newScore := score;
    collision := false;
    marked := snapshot;
    ghost var visited: seq<Building> := [];
    assert MarkPairs(snapshot, {}) == snapshot;
    var i := 0;
    while i < |snapshot|
      invariant 0 <= i <= |snapshot| && visited == snapshot[..i]
      invariant newScore == score + Gain(plane, visited)
      invariant collision == AnyHit(plane, visited)
      invariant marked == MarkPairs(snapshot, ClearedPairIds(plane, visited))
    {
      var building := snapshot[i];
      PassStep(plane, snapshot, visited, building);
      if Hits(plane, building) {
        collision := true;
      } else if Clears(plane, building) {
        if IsEven(building.id) {
          newScore := newScore + 1;
        }
        marked := MarkPairs(marked, {PairId(building.id)});
      }
      visited := visited + [building];
      i := i + 1;
    }
    assert visited == snapshot;
  }

  class Game {
    /** The playfield width: 360 on a narrow screen, 800 otherwise. */
    const gameWidth: real
    var gameStarted: bool
    var gameOver: bool
    var score: nat
    var plane: Plane
    var buildings: seq<Building>
    var gameSpeed: real

    /** The plane keeps its height and y and stays on the playfield; the speed
        stays between its start and its cap; the buildings come in whole pairs. */
    ghost predicate Valid()
      reads this
    {
      && (gameWidth == MobileWidth || gameWidth == DesktopWidth)
      && plane.y == InitialPlane.y && plane.width == InitialPlane.width && plane.height == InitialPlane.height
      && 0.0 <= plane.x <= gameWidth - plane.width
      && InitialSpeed <= gameSpeed <= MaxSpeed
      && PairedUp(buildings)
    }

    /** The timers and the effect only act while a started game is not over. */
    predicate Running()
      reads this
    {
      gameStarted && !gameOver
    }

    /** The component's initial state, before Start Game is pressed. */
    constructor (gameWidth: real)
      requires gameWidth == MobileWidth || gameWidth == DesktopWidth
      ensures Valid() && this.gameWidth == gameWidth
      ensures !gameStarted && !gameOver && score == 0
      ensures plane == InitialPlane && buildings == [] && gameSpeed == InitialSpeed
    {
      this.gameWidth := gameWidth;
      gameStarted := false;
      gameOver := false;
      score := 0;
      plane := InitialPlane;
      buildings := [];
      gameSpeed := InitialSpeed;
    }

    /** resetGame: the only operation that clears gameOver or lowers score or speed. */
    method ResetGame(r1: real, r2: real, r3: real)
      requires Valid()
      requires 0.0 <= r1 < 1.0 && 0.0 <= r2 < 1.0 && 0.0 <= r3 < 1.0
      modifies this
      ensures Valid() && gameStarted == old(gameStarted)
      ensures plane == InitialPlane && buildings == InitialBuildings(gameWidth, r1, r2, r3)
      ensures score == 0 && gameSpeed == InitialSpeed && !gameOver
    {
      plane := InitialPlane;
      buildings := InitialBuildings(gameWidth, r1, r2, r3);
      score := 0;
      gameSpeed := InitialSpeed;
      gameOver := false;
    }

    /** startGame */
    method StartGame(r1: real, r2: real, r3: real)
      requires Valid()
      requires 0.0 <= r1 < 1.0 && 0.0 <= r2 < 1.0 && 0.0 <= r3 < 1.0
      modifies this
      ensures Valid() && Running()
      ensures plane == InitialPlane && buildings == InitialBuildings(gameWidth, r1, r2, r3)
      ensures score == 0 && gameSpeed == InitialSpeed
    {
      gameStarted := true;
      ResetGame(r1, r2, r3);
    }

    /** One tick of the move loop, with the arrow keys held at that moment. */
    method MoveTick(keys: Keys)
      requires Valid()
      modifies this`plane
      ensures Valid()
      ensures old(Running()) ==> plane == old(plane).(x := MovedX(old(plane.x), plane.width, gameWidth, keys))
      ensures !old(Running()) ==> plane == old(plane)
    {
      if !gameStarted || gameOver {
        return;
      }
      var newX := plane.x;
      if keys.left {
        newX := Max(0.0, newX - StepSize);
      }
      if keys.right {
        newX := Min(gameWidth - plane.width, newX + StepSize);
      }
      plane := plane.(x := newX);
    }

    /** One tick of the game loop: scroll, drop and recycle the buildings, then
        ramp the speed. `now` stands for Date.now(), `r` for Math.random(). */
    method ScrollTick(now: int, r: real)
      requires Valid()
      requires 0.0 <= r < 1.0
      modifies this`buildings, this`gameSpeed
      ensures Valid() && old(gameSpeed) <= gameSpeed
      ensures old(Running()) ==>
        && buildings == ScrollBuildings(old(buildings), old(gameSpeed), now, gameWidth, r)
        && gameSpeed == RampSpeed(old(gameSpeed))
      ensures !old(Running()) ==> buildings == old(buildings) && gameSpeed == old(gameSpeed)
    {
      if !gameStarted || gameOver {
        return;
      }
      var newBuildings := Advance(buildings, gameSpeed);
      var filtered := KeepOnScreen(newBuildings);
      if |filtered| < MinBuildings {
        filtered := filtered + CreateBuildingPair(now, SpawnY(filtered), gameWidth, r);
      }
      ScrollKeepsPairs(buildings, gameSpeed, now, gameWidth, r);
      buildings := filtered;
      gameSpeed := RampSpeed(gameSpeed);
    }

    /** The collision and scoring effect. It only acts on a running game; the
        pass-marking updates it queues are applied once the pass is over, as
        React applies queued state updates. */
    method Evaluate()
      requires Valid()
      modifies this`buildings, this`score, this`gameOver
      ensures Valid() && old(score) <= score && (old(gameOver) ==> gameOver)
      ensures old(Running()) ==>
        && score == old(score) + Gain(plane, old(buildings))
        && gameOver == AnyHit(plane, old(buildings))
        && buildings == MarkPairs(old(buildings), ClearedPairIds(plane, old(buildings)))
      ensures !old(Running()) ==>
        score == old(score) && gameOver == old(gameOver) && buildings == old(buildings)
    {
      if !gameStarted || gameOver {
        return;
      }
      var newScore, collision, marked := CollisionPass(plane, buildings, score);
      MarkPairsKeepsPairs(buildings, ClearedPairIds(plane, buildings));
      buildings := marked;
      if collision {
        gameOver := true;
      }
      if newScore != score {
        score := newScore;
      }
    }

    /** One whole tick: move the plane, scroll the buildings, then evaluate.
        Score and speed never drop and a finished game stays finished. */
    method Tick(keys: Keys, now: int, r: real)
      requires Valid()
      requires 0.0 <= r < 1.0
      modifies this`plane, this`buildings, this`gameSpeed, this`score, this`gameOver
      ensures Valid()
      ensures old(score) <= score && old(gameSpeed) <= gameSpeed
      ensures old(gameOver) ==> gameOver
      ensures old(Running()) ==>
        var moved := old(plane).(x := MovedX(old(plane.x), old(plane.width), gameWidth, keys));
        var scrolled := ScrollBuildings(old(buildings), old(gameSpeed), now, gameWidth, r);
        && plane == moved
        && gameSpeed == RampSpeed(old(gameSpeed))
        && score == old(score) + Gain(moved, scrolled)
        && gameOver == AnyHit(moved, scrolled)
        && buildings == MarkPairs(scrolled, ClearedPairIds(moved, scrolled))
      ensures !old(Running()) ==>
        && plane == old(plane) && buildings == old(buildings)
        && score == old(score) && gameSpeed == old(gameSpeed) && gameOver == old(gameOver)
    {
      if !Running() {
        // Neither timer nor the effect acts on a game that is not running.
        return;
      }
      MoveTick(keys);
      ScrollTick(now, r);
      Evaluate();
    }
  }
}
