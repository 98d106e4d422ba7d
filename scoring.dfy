/** The collision and scoring pass run after every state change: a building
    that overlaps the plane ends the run; an unpassed building far enough
    below the plane marks its whole pair passed and, if it is the even
    (left) member, scores one point. */
module Scoring {
  import opened Entities
  import opened BuildingPairs

  /** The four-sided overlap test, with only the plane's box pulled in by
      HitInset on every side; the building's box is used as it is. */
  predicate Hits(p: Plane, b: Building): (hit: bool)
    ensures hit <==> Overlap(Inset(PlaneBox(p), HitInset), BuildingBox(b))
  {
    && p.x + HitInset < b.x + b.width
    && p.x + p.width - HitInset > b.x
    && p.y + HitInset < b.y + b.height
    && p.y + p.height - HitInset > b.y
  }

  /** An unpassed building whose top is more than PassMargin below the plane. */
  predicate Clears(p: Plane, b: Building): (cleared: bool)
    ensures cleared ==> !Hits(p, b) && !b.passed
  {
    !b.passed && b.y > p.y + p.height + PassMargin
  }

  /** The point a single building earns in the pass. */
  function Scores(p: Plane, b: Building): nat
  {
    if !Hits(p, b) && Clears(p, b) && IsEven(b.id) then 1 else 0
  }

  /** Points the pass earns over `bs`, visited in order. */
  function Gain(p: Plane, bs: seq<Building>): (g: nat)
    ensures g <= |bs|
    decreases |bs|
  {
    if bs == [] then 0
    else Gain(p, bs[..|bs| - 1]) + Scores(p, bs[|bs| - 1])
  }

  /** A pass over buildings none of which scores earns nothing. */
  lemma {:induction false} GainZero(p: Plane, bs: seq<Building>)
    requires forall i :: 0 <= i < |bs| ==> Scores(p, bs[i]) == 0
    ensures Gain(p, bs) == 0
    decreases |bs|
  {
    if bs != [] {
      GainZero(p, bs[..|bs| - 1]);
    }
  }

  /** Whether any building is hit. */
  predicate AnyHit(p: Plane, bs: seq<Building>)
  {
    exists b :: b in bs && Hits(p, b)
  }

  /** Whether the pass marks the pair of this building passed. */
  predicate MarksPair(p: Plane, b: Building)
  {
    !Hits(p, b) && Clears(p, b)
  }

  /** Pair ids of the buildings the pass marks passed, visited in order. */
  function ClearedPairIds(p: Plane, bs: seq<Building>): (ids: set<int>)
    ensures |ids| <= |bs|
    decreases |bs|
  {
    if bs == [] then {}
    else
      var last := bs[|bs| - 1];
      ClearedPairIds(p, bs[..|bs| - 1]) + if MarksPair(p, last) then {PairId(last.id)} else {}
  }

  /** The pair ids the pass marks are exactly those of the buildings it clears without a hit. */
  lemma {:induction false} ClearedPairIdsExactly(p: Plane, bs: seq<Building>, pairId: int)
    ensures pairId in ClearedPairIds(p, bs) <==>
      exists i :: 0 <= i < |bs| && MarksPair(p, bs[i]) && PairId(bs[i].id) == pairId
    decreases |bs|
  {
    if bs != [] {
      var prefix := bs[..|bs| - 1];
      ClearedPairIdsExactly(p, prefix, pairId);
      if exists i :: 0 <= i < |prefix| && MarksPair(p, prefix[i]) && PairId(prefix[i].id) == pairId {
        var i :| 0 <= i < |prefix| && MarksPair(p, prefix[i]) && PairId(prefix[i].id) == pairId;
        assert bs[i] == prefix[i];
      }
      if exists i :: 0 <= i < |bs| && MarksPair(p, bs[i]) && PairId(bs[i].id) == pairId {
        var i :| 0 <= i < |bs| && MarksPair(p, bs[i]) && PairId(bs[i].id) == pairId;
        if i < |prefix| {
          assert prefix[i] == bs[i];
        }
      }
    }
  }

  function MarkPassed(b: Building, pairIds: set<int>): Building
  {
    if PairId(b.id) in pairIds then b.(passed := true) else b
  }

  /** `prev.map(b => pairId === currentPairId ? {...b, passed: true} : b)`, for a
      set of pair ids at once. */
  function MarkPairs(bs: seq<Building>, pairIds: set<int>): (marked: seq<Building>)
    ensures |marked| == |bs|
  {
    seq(|bs|, i requires 0 <= i < |bs| => MarkPassed(bs[i], pairIds))
  }

  /** Marking changes only the passed flag, and sets it exactly on the
      buildings whose pair id is marked. */
  lemma MarkPairsAt(bs: seq<Building>, pairIds: set<int>, i: nat)
    requires i < |bs|
    ensures var marked := MarkPairs(bs, pairIds);
      && marked[i].(passed := bs[i].passed) == bs[i]
      && (marked[i].passed <==> bs[i].passed || PairId(bs[i].id) in pairIds)
  {}

  /** The axis-aligned box of the design, edges left < right and top < bottom. */
  datatype Box = Box(left: real, top: real, right: real, bottom: real)

  predicate Overlap(a: Box, b: Box)
  {
    a.left < b.right && a.right > b.left && a.top < b.bottom && a.bottom > b.top
  }

  function Inset(a: Box, m: real): Box
  {
    Box(a.left + m, a.top + m, a.right - m, a.bottom - m)
  }

  function PlaneBox(p: Plane): Box { Box(p.x, p.y, p.x + p.width, p.y + p.height) }

  function BuildingBox(b: Building): Box { Box(b.x, b.y, b.x + b.width, b.y + b.height) }

  /** The hit test is box overlap of the plane's box shrunk by 5 with the
      building's unshrunk box, and not the overlap of both shrunk boxes: the
      plane's shrunk right edge at 195 hits a building starting at 192 whose
      shrunk box starts at 197. */
  lemma HitsIsShrunkPlaneOverlap(p: Plane, b: Building)
    ensures Hits(p, b) <==> Overlap(Inset(PlaneBox(p), HitInset), BuildingBox(b))
    ensures Overlap(Inset(PlaneBox(p), HitInset), Inset(BuildingBox(b), HitInset)) ==> Hits(p, b)
    ensures var edge := Building(0, 192.0, 490.0, BuildingWidth, BuildingHeight, false);
      Hits(InitialPlane, edge)
      && !Overlap(Inset(PlaneBox(InitialPlane), HitInset), Inset(BuildingBox(edge), HitInset))
  {}

  /** A plane whose box overlaps a building's box by no more than the inset on
      some side is not hit. */
  lemma InsetForgivesGrazing(p: Plane, b: Building)
    requires Overlap(PlaneBox(p), BuildingBox(b))
    requires || p.x + p.width - b.x <= HitInset
             || b.x + b.width - p.x <= HitInset
             || p.y + p.height - b.y <= HitInset
             || b.y + b.height - p.y <= HitInset
    ensures !Hits(p, b)
  {}

  /** A plane whose shrunk box lies inside a building's box is hit. */
  lemma InsidePlaneHits(p: Plane, b: Building)
    requires p.width > 2.0 * HitInset && p.height > 2.0 * HitInset
    requires b.x <= p.x && p.x + p.width <= b.x + b.width
    requires b.y <= p.y && p.y + p.height <= b.y + b.height
    ensures Hits(p, b)
  {}

  /** A plane whose box overlaps no building's box ends nothing. */
  lemma ClearOfAllBoxesNoHit(p: Plane, bs: seq<Building>)
    requires forall i :: 0 <= i < |bs| ==> !Overlap(PlaneBox(p), BuildingBox(bs[i]))
    ensures !AnyHit(p, bs)
  {
    forall b | b in bs
      ensures !Hits(p, b)
    {
      var i :| 0 <= i < |bs| && bs[i] == b;
    }
  }

  /** A building that is far enough below the plane to be passed never hits it. */
  lemma ClearedNeverHits(p: Plane, b: Building)
    requires b.y > p.y + p.height + PassMargin
    ensures !Hits(p, b)
  {}

  /** Marking the pairs a pass has cleared leaves nothing to score a second time. */
  lemma NoDoubleCount(p: Plane, bs: seq<Building>)
    ensures Gain(p, MarkPairs(bs, ClearedPairIds(p, bs))) == 0
  {
    var pairIds := ClearedPairIds(p, bs);
    var marked := MarkPairs(bs, pairIds);
    forall i | 0 <= i < |marked|
      ensures Scores(p, marked[i]) == 0
    {
      var b := bs[i];
      if MarksPair(p, b) {
        ClearedPairIdsExactly(p, bs, PairId(b.id));
      }
    }
    GainZero(p, marked);
  }

  /** Points are additive over a split of the list. */
  lemma {:induction false} GainAppend(p: Plane, a: seq<Building>, b: seq<Building>)
    ensures Gain(p, a + b) == Gain(p, a) + Gain(p, b)
    decreases |b|
  {
    if b == [] {
      assert a + b == a;
    } else {
      var last := |b| - 1;
      assert (a + b)[..|a + b| - 1] == a + b[..last];
      GainAppend(p, a, b[..last]);
    }
  }

  /** Pairs whose left member has been cleared by the plane. */
  function PairsCleared(p: Plane, bs: seq<Building>): nat
    decreases |bs|
  {
    if |bs| < 2 then 0
    else (if Clears(p, bs[0]) then 1 else 0) + PairsCleared(p, bs[2..])
  }

  /** On a run of whole pairs, a pass scores exactly one point per cleared pair. */
  lemma {:induction false} GainPerPair(p: Plane, bs: seq<Building>)
    requires PairedUp(bs)
    ensures Gain(p, bs) == PairsCleared(p, bs)
    decreases |bs|
  {
    if bs != [] {
      GainPerPair(p, bs[2..]);
      assert bs == bs[..2] + bs[2..];
      GainAppend(p, bs[..2], bs[2..]);
      assert bs[..2][..1] == [bs[0]];
      assert [bs[0]][..0] == [];
      assert Gain(p, bs[..2]) == Scores(p, bs[0]) + Scores(p, bs[1]);
      if Clears(p, bs[0]) {
        ClearedNeverHits(p, bs[0]);
      }
    }
  }

  lemma {:induction false} MarkPairsKeepsPairs(bs: seq<Building>, pairIds: set<int>)
    requires PairedUp(bs)
    ensures PairedUp(MarkPairs(bs, pairIds))
    decreases |bs|
  {
    if bs != [] {
      assert MarkPairs(bs, pairIds)[2..] == MarkPairs(bs[2..], pairIds);
      MarkPairsKeepsPairs(bs[2..], pairIds);
      assert PairId(bs[1].id) == PairId(bs[0].id);
    }
  }

  /** One step of the pass, as the loop takes it: after `visited`, building
      `b` scores, hits, or has its pair marked passed. */
  lemma PassStep(p: Plane, s: seq<Building>, visited: seq<Building>, b: Building)
    ensures Gain(p, visited + [b]) == Gain(p, visited) + Scores(p, b)
    ensures AnyHit(p, visited + [b]) <==> AnyHit(p, visited) || Hits(p, b)
    ensures MarkPairs(s, ClearedPairIds(p, visited + [b])) ==
      if MarksPair(p, b)
      then MarkPairs(MarkPairs(s, ClearedPairIds(p, visited)), {PairId(b.id)})
      else MarkPairs(s, ClearedPairIds(p, visited))
  {
    var after := visited + [b];
    assert after[..|after| - 1] == visited;
    var before := ClearedPairIds(p, visited);
    if MarksPair(p, b) {
      MarkPairsUnion(s, before, {PairId(b.id)});
    } else {
      assert before + {} == before;
    }
  }

  /** Marking pair by pair is marking the union at once. */
  lemma MarkPairsUnion(bs: seq<Building>, pairIds: set<int>, more: set<int>)
    ensures MarkPairs(MarkPairs(bs, pairIds), more) == MarkPairs(bs, pairIds + more)
  {}
}
