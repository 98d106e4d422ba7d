/** Generation of a building pair, and the invariant that the live building
    list is made of whole pairs. */
module BuildingPairs {
  import opened Entities

  /** Left edge of the gap for a random draw `r` in [0, 1). Between 60 and
      gameWidth - 300 when the playfield is wider than 360; exactly 60 at 360. */
  function GapPosition(gameWidth: real, r: real): (g: real)
    requires 0.0 <= r < 1.0
    ensures gameWidth >= GapWidth + GapSlack ==> GapMargin <= g
    ensures gameWidth > GapWidth + GapSlack ==> g < gameWidth - 300.0
    ensures gameWidth == MobileWidth ==> g == GapMargin
  {
    var span := gameWidth - GapWidth - GapSlack;
    assert span >= 0.0 ==> 0.0 <= r * span by {
      if span >= 0.0 { NonNegativeProduct(r, span); }
    }
    assert span > 0.0 ==> r * span + GapMargin < gameWidth - 300.0 by {
      if span > 0.0 { ProductBelow(r, span); }
    }
    r * span + GapMargin
  }

  lemma NonNegativeProduct(a: real, b: real)
    requires 0.0 <= a && 0.0 <= b
    ensures 0.0 <= a * b
  {}

  lemma ProductBelow(r: real, b: real)
    requires 0.0 <= r < 1.0 && 0.0 < b
    ensures r * b < b
  {}

  /** Two members of one pair, left then right: consecutive ids starting at an
      even one, level with each other, passed together, GapWidth apart. */
  predicate IsPair(left: Building, right: Building)
  {
    && IsEven(left.id)
    && right.id == left.id + 1
    && left.y == right.y
    && left.passed == right.passed
    && right.x - (left.x + left.width) == GapWidth
  }

  /** The list is a run of whole pairs, each left member directly before its right member. */
  predicate PairedUp(bs: seq<Building>)
    decreases |bs|
  {
    if |bs| == 0 then true
    else |bs| >= 2 && IsPair(bs[0], bs[1]) && PairedUp(bs[2..])
  }

  /** createBuildingPair(n, yPos), with `r` the value of Math.random(). */
  function CreateBuildingPair(n: int, yPos: real, gameWidth: real, r: real): (pair: seq<Building>)
    requires 0.0 <= r < 1.0
    ensures |pair| == 2 && IsPair(pair[0], pair[1]) && PairedUp(pair)
    ensures PairId(pair[0].id) == n && PairId(pair[1].id) == n
    ensures forall b :: b in pair ==>
      b.y == yPos && b.width == BuildingWidth && b.height == BuildingHeight && !b.passed
    ensures pair[0].x + pair[0].width == GapPosition(gameWidth, r)
    ensures pair[0].x + pair[0].width < pair[1].x
  {
    var gap := GapPosition(gameWidth, r);
    [ Building(n * 2, gap - BuildingWidth, yPos, BuildingWidth, BuildingHeight, false),
      Building(n * 2 + 1, gap + GapWidth, yPos, BuildingWidth, BuildingHeight, false) ]
  }

  /** On the mobile playfield the gap is always at 60, so the left building
      starts at x = -90, outside the playfield. */
  lemma NarrowLeftBuildingOffField(n: int, yPos: real, r: real)
    requires 0.0 <= r < 1.0
    ensures CreateBuildingPair(n, yPos, MobileWidth, r)[0].x == -90.0
  {}

  /** On a playfield wider than 360 the pair spans [-90, gameWidth + 10), and
      the buildings are not kept inside [0, gameWidth]: a draw of 0 puts the
      left building past the left edge, and on the 800 playfield a draw of 0.99
      puts the right building past the right edge. */
  lemma PairExtent(n: int, yPos: real, gameWidth: real, r: real)
    requires 0.0 <= r < 1.0 && gameWidth > MobileWidth
    ensures var pair := CreateBuildingPair(n, yPos, gameWidth, r);
      -90.0 <= pair[0].x && pair[1].x + pair[1].width < gameWidth + 10.0
    ensures CreateBuildingPair(n, yPos, gameWidth, 0.0)[0].x < 0.0
    ensures var wide := CreateBuildingPair(n, yPos, DesktopWidth, 0.99);
      wide[1].x + wide[1].width > DesktopWidth
  {}

  /** Joining two runs of whole pairs gives a run of whole pairs. */
  lemma {:induction false} PairedUpAppend(a: seq<Building>, b: seq<Building>)
    requires PairedUp(a) && PairedUp(b)
    ensures PairedUp(a + b)
    decreases |a|
  {
    if |a| == 0 {
      assert a + b == b;
    } else {
      assert (a + b)[2..] == a[2..] + b;
      PairedUpAppend(a[2..], b);
    }
  }
}
