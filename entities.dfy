/** Records and tuning constants of the plane game (app/_components/game.tsx).
    Positions and speed are exact reals; the playfield's y axis grows downward,
    so buildings scroll toward the plane by increasing y. */
module Entities {

  /** A building. Its `id` encodes the pair it belongs to: the pair id is
      `id / 2`, the left member has the even id and the right member the odd one. */
  datatype Building = Building(id: int, x: real, y: real, width: real, height: real, passed: bool)

  /** The plane: only `x` is ever changed, by the arrow keys. */
  datatype Plane = Plane(x: real, y: real, width: real, height: real)

  /** The arrow keys held down during one tick. */
  datatype Keys = Keys(left: bool, right: bool)

  const MobileWidth: real := 360.0
  const DesktopWidth: real := 800.0
  const GameHeight: real := 600.0

  const BuildingWidth: real := 150.0
  const BuildingHeight: real := 80.0
  const GapWidth: real := 160.0
  /** Room left for the two buildings when the gap position is drawn. */
  const GapSlack: real := 200.0
  /** Smallest left edge of the gap. */
  const GapMargin: real := 60.0

  const StepSize: real := 5.0
  /** How far each side of the plane's box is pulled in before the hit test. */
  const HitInset: real := 5.0
  /** How far below the plane a building must be to count as passed. */
  const PassMargin: real := 20.0
  /** A building is dropped once its y reaches GameHeight + RemovalMargin. */
  const RemovalMargin: real := 100.0

  const MinBuildings: nat := 6
  const SpawnSpacing: real := 250.0
  const FirstSpawnY: real := -150.0

  const InitialSpeed: real := 2.0
  const SpeedStep: real := 0.005
  const MaxSpeed: real := 4.0

  const InitialPlane: Plane := Plane(120.0, 500.0, 80.0, 60.0)

  /** Math.min */
  function Min(a: real, b: real): real { if a < b then a else b }

  /** Math.max */
  function Max(a: real, b: real): real { if a > b then a else b }

  /** Math.floor(id / 2): Dafny's `/` on int rounds toward minus infinity
      when the divisor is positive, so it agrees with the floor for every id. */
  function PairId(id: int): int { id / 2 }

  /** `id % 2 === 0` */
  predicate IsEven(id: int) { id % 2 == 0 }
}
