/** The game loop's scroll tick: move every building down by the current speed,
    drop those far below the playfield, append a fresh pair when fewer than six
    remain, and ramp the speed up. */
module Scroll {
  import opened Entities
  import opened BuildingPairs

  /** `buildings.map(b => ({...b, y: b.y + speed}))` */
  function Advance(bs: seq<Building>, speed: real): (moved: seq<Building>)
    ensures |moved| == |bs|
  {
    seq(|bs|, i requires 0 <= i < |bs| => bs[i].(y := bs[i].y + speed))
  }

  /** Every building moves down by exactly `speed` and nothing else about it changes. */
  lemma AdvanceAt(bs: seq<Building>, speed: real, i: nat)
    requires i < |bs|
    ensures var moved := Advance(bs, speed);
      moved[i].y - bs[i].y == speed && moved[i].(y := bs[i].y) == bs[i]
  {}

  /** Whether a building is still kept: its y is below GameHeight + RemovalMargin (700). */
  predicate OnScreen(b: Building)
  {
    b.y < GameHeight + RemovalMargin
  }

  /** `filter(b => b.y < gameHeight + 100)` */
  function KeepOnScreen(bs: seq<Building>): (kept: seq<Building>)
    ensures |kept| <= |bs|
    decreases |bs|
  {
    if bs == [] then []
    else (if OnScreen(bs[0]) then [bs[0]] else []) + KeepOnScreen(bs[1..])
  }

  /** The filter keeps exactly the buildings still on screen. */
  lemma {:induction false} KeepOnScreenKeeps(bs: seq<Building>)
    ensures forall b :: b in KeepOnScreen(bs) <==> b in bs && OnScreen(b)
    decreases |bs|
  {
    if bs != [] {
      KeepOnScreenKeeps(bs[1..]);
      assert bs == [bs[0]] + bs[1..];
    }
  }

  /** The filter keeps the survivors in their order: filtering a concatenation
      is concatenating the filtered parts. */
  lemma {:induction false} KeepOnScreenAppend(a: seq<Building>, b: seq<Building>)
    ensures KeepOnScreen(a + b) == KeepOnScreen(a) + KeepOnScreen(b)
    decreases |a|
  {
    if a != [] {
      assert (a + b)[0] == a[0];
      assert (a + b)[1..] == a[1..] + b;
      KeepOnScreenAppend(a[1..], b);
    } else {
      assert a + b == b;
    }
  }

  /** The reduce `(acc, b) => (b.y < acc.y ? b : acc)` folded over `rest` from `acc`:
      the first building of least y. */
  function TopmostFrom(acc: Building, rest: seq<Building>): (top: Building)
    ensures top == acc || top in rest
    ensures top.y <= acc.y && forall b :: b in rest ==> top.y <= b.y
    decreases |rest|
  {
    if rest == [] then acc
    else TopmostFrom(if rest[0].y < acc.y then rest[0] else acc, rest[1..])
  }

  /** `filtered.reduce(..., filtered[0])` on a non-empty list. */
  function Topmost(bs: seq<Building>): (top: Building)
    requires bs != []
    ensures top in bs && forall b :: b in bs ==> top.y <= b.y
  {
    TopmostFrom(bs[0], bs)
  }

  /** Where a recycled pair is placed: 250 above the topmost survivor, or at
      -150 when nothing survives. */
  function SpawnY(survivors: seq<Building>): (y: real)
    ensures survivors == [] ==> y == FirstSpawnY
    ensures forall b :: b in survivors ==> y <= b.y - SpawnSpacing
    ensures survivors != [] ==> exists b :: b in survivors && y == b.y - SpawnSpacing
  {
    if survivors == [] then FirstSpawnY else Topmost(survivors).y - SpawnSpacing
  }

  /** The `if (filtered.length < 6) filtered.push(...createBuildingPair(Date.now(), newY))`
      step, with `now` the value of Date.now() and `r` that of Math.random(). */
  function Recycle(survivors: seq<Building>, now: int, gameWidth: real, r: real): (next: seq<Building>)
    requires 0.0 <= r < 1.0
    ensures |survivors| <= |next| && next[..|survivors|] == survivors
    ensures |survivors| >= MinBuildings ==> next == survivors
    ensures |survivors| < MinBuildings ==> |next| == |survivors| + 2
    ensures forall b :: b in next[|survivors|..] ==>
      !b.passed && PairId(b.id) == now && forall s :: s in survivors ==> b.y <= s.y - SpawnSpacing
    ensures forall b :: b in next[|survivors|..] ==> b.y == SpawnY(survivors)
  {
    if |survivors| < MinBuildings then
      survivors + CreateBuildingPair(now, SpawnY(survivors), gameWidth, r)
    else
      survivors
  }

  /** One scroll tick's new building list: at most one pair more than before,
      and nothing in it lies past the removal line. */
  function ScrollBuildings(bs: seq<Building>, speed: real, now: int, gameWidth: real, r: real): (next: seq<Building>)
    requires 0.0 <= r < 1.0
    ensures |next| <= |bs| + 2
    ensures forall b :: b in next ==> OnScreen(b)
  {
    var survivors := KeepOnScreen(Advance(bs, speed));
    KeepOnScreenKeeps(Advance(bs, speed));
    var next := Recycle(survivors, now, gameWidth, r);
    assert forall b :: b in next ==> b in survivors || b in next[|survivors|..] by {
      assert next == next[..|survivors|] + next[|survivors|..];
    }
    next
  }

  /** The live set is not topped up to six in one tick: two survivors give four. */
  lemma RecycleMayStayBelowMinimum(now: int, gameWidth: real, r: real)
    requires 0.0 <= r < 1.0
    ensures var survivors := CreateBuildingPair(7, 300.0, gameWidth, r);
      |Recycle(survivors, now, gameWidth, r)| == 4 < MinBuildings
  {}

  lemma {:induction false} AdvanceKeepsPairs(bs: seq<Building>, speed: real)
    requires PairedUp(bs)
    ensures PairedUp(Advance(bs, speed))
    decreases |bs|
  {
    if bs != [] {
      assert Advance(bs, speed)[2..] == Advance(bs[2..], speed);
      AdvanceKeepsPairs(bs[2..], speed);
    }
  }

  /** The two members of a pair share their y, so the filter drops both or neither. */
  lemma KeepOnScreenPair(left: Building, right: Building, rest: seq<Building>)
    requires left.y == right.y
    ensures KeepOnScreen([left, right] + rest) ==
      (if OnScreen(left) then [left, right] else []) + KeepOnScreen(rest)
  {
    var bs := [left, right] + rest;
    assert bs[1..] == [right] + rest;
    assert bs[1..][1..] == rest;
  }

  lemma {:induction false} KeepOnScreenKeepsPairs(bs: seq<Building>)
    requires PairedUp(bs)
    ensures PairedUp(KeepOnScreen(bs))
    decreases |bs|
  {
    if bs != [] {
      var rest := bs[2..];
      assert bs == [bs[0], bs[1]] + rest;
      KeepOnScreenPair(bs[0], bs[1], rest);
      KeepOnScreenKeepsPairs(rest);
      if OnScreen(bs[0]) {
        var kept := [bs[0], bs[1]] + KeepOnScreen(rest);
        assert kept[2..] == KeepOnScreen(rest);
      } else {
        assert [] + KeepOnScreen(rest) == KeepOnScreen(rest);
      }
    }
  }

  /** A scroll tick keeps the live list a run of whole pairs. */
  lemma ScrollKeepsPairs(bs: seq<Building>, speed: real, now: int, gameWidth: real, r: real)
    requires 0.0 <= r < 1.0 && PairedUp(bs)
    ensures PairedUp(ScrollBuildings(bs, speed, now, gameWidth, r))
  {
    AdvanceKeepsPairs(bs, speed);
    var survivors := KeepOnScreen(Advance(bs, speed));
    KeepOnScreenKeepsPairs(Advance(bs, speed));
    if |survivors| < MinBuildings {
      PairedUpAppend(survivors, CreateBuildingPair(now, SpawnY(survivors), gameWidth, r));
    }
  }

  /** `Math.min(prev + 0.005, 4)` */
  function RampSpeed(speed: real): (next: real)
    ensures next <= MaxSpeed
    ensures next == speed + SpeedStep || next == MaxSpeed
    ensures speed <= MaxSpeed ==> speed <= next
    ensures speed == MaxSpeed ==> next == MaxSpeed
  {
    Min(speed + SpeedStep, MaxSpeed)
  }

  /** The speed after `n` scroll ticks from `speed`. */
  function RampedFrom(speed: real, n: nat): real
  {
    if n == 0 then speed else RampSpeed(RampedFrom(speed, n - 1))
  }

  /** From a reset, the speed after n ticks is min(2 + 0.005 n, 4). */
  lemma {:induction false} RampSchedule(n: nat)
    ensures RampedFrom(InitialSpeed, n) == Min(InitialSpeed + SpeedStep * n as real, MaxSpeed)
  {
    if n > 0 {
      RampSchedule(n - 1);
    }
  }

  /** The cap is reached after 400 scroll ticks and kept from then on. */
  lemma SpeedCappedAfter400(n: nat)
    requires n >= 400
    ensures RampedFrom(InitialSpeed, n) == MaxSpeed
    ensures RampedFrom(InitialSpeed, 399) < MaxSpeed
  {
    RampSchedule(n);
    RampSchedule(399);
  }
}
