/** The target selector: packs the modality flags into a 3-bit id and dispatches on it
    to one of eight target strategies. Only two strategies compute anything: a bounded
    pseudo-random dummy target (id 0) and the heading projection (id 1). */
module TargetSelector {
  import opened OccupancyGrid

  /** A modality flag as the 0/1 integer the source packs. */
  function Bit(b: bool): (n: int)
    ensures n == 0 || n == 1
    ensures n == 1 <==> b
  {
    if b then 1 else 0
  }

  /** The selector id, 4 gps + 2 lane + imu (the source writes the weights as 1 << 2 and 1 << 1). */
  function TargetId(gps: bool, lane: bool, imu: bool): (id: int)
    ensures 0 <= id < 8
    ensures id / 4 == Bit(gps) && id / 2 % 2 == Bit(lane) && id % 2 == Bit(imu)
  {
    Bit(gps) * 4 + Bit(lane) * 2 + Bit(imu)
  }

  /** Distinct flag triples give distinct ids. */
  lemma TargetIdInjective(gps: bool, lane: bool, imu: bool, gps': bool, lane': bool, imu': bool)
    requires TargetId(gps, lane, imu) == TargetId(gps', lane', imu')
    ensures gps == gps' && lane == lane' && imu == imu'
  {
  }

  /** Every id 0..7 is the packing of some flag triple, so all eight cases can be reached. */
  lemma TargetIdOnto(id: int)
    requires 0 <= id < 8
    ensures TargetId(id / 4 == 1, id / 2 % 2 == 1, id % 2 == 1) == id
  {
  }

  /** Case 0: the dummy target from two rand() draws (each non-negative). */
  function DummyTarget(draw1: nat, draw2: nat): (p: Point)
    ensures 100 <= p.x <= 799 && 200 <= p.y <= 899
    ensures InGrid(p)
  {
    Point(100 + draw1 % 700, 200 + draw2 % 700)
  }

  /** Every point of the box [100, 799] x [200, 899] is a possible dummy target. */
  lemma DummyTargetCoversBox(p: Point)
    requires 100 <= p.x <= 799 && 200 <= p.y <= 899
    ensures DummyTarget(p.x - 100, p.y - 200) == p
  {
  }

  /** Case 1, first step: the deviation of the heading from the reference heading, in degrees,
      corrected by 360 when the two have different signs and differ by more than 180. */
  function Alpha(heading: real, reference: real): (alpha: real)
    ensures alpha == reference - heading || alpha == reference - heading + 360.0 ||
            alpha == reference - heading - 360.0
  {
    if heading * reference > 0.0 then reference - heading
    else if heading - reference > 180.0 then 360.0 + reference - heading
    else if reference - heading > 180.0 then reference - heading - 360.0
    else reference - heading
  }

  /** The product test holds exactly when the two headings are non-zero with the same sign,
      and two such headings are never corrected. (Headings of opposite sign less than a
      half turn apart are not corrected either.) */
  lemma AlphaSameSign(heading: real, reference: real)
    ensures heading * reference > 0.0 ==> Alpha(heading, reference) == reference - heading
    ensures heading * reference > 0.0 <==> (heading > 0.0 && reference > 0.0) || (heading < 0.0 && reference < 0.0)
  {
  }

  /** For headings in [-180, 180] the deviation is a half turn at most. */
  lemma AlphaWithinHalfTurn(heading: real, reference: real)
    requires -180.0 <= heading <= 180.0 && -180.0 <= reference <= 180.0
    ensures -180.0 <= Alpha(heading, reference) <= 180.0
  {
  }

  /** For headings in [-180, 180] the deviation is the shortest way round: no other angle
      congruent to reference - heading modulo 360 is smaller in magnitude. */
  lemma AlphaShortest(heading: real, reference: real, turns: int)
    requires -180.0 <= heading <= 180.0 && -180.0 <= reference <= 180.0
    ensures var alpha := Alpha(heading, reference);
      var other := reference - heading + 360.0 * turns as real;
      (if alpha < 0.0 then -alpha else alpha) <= (if other < 0.0 then -other else other)
  {
  }

  /** Two headings with the same sign are never corrected, so outside [-180, 180] alpha
      need not be the shortest difference: heading 350 against reference 10 gives -340,
      where heading -10 against reference 10 gives 20. Headings of opposite sign are still
      corrected: 350 against -10 gives 0, and -200 against 10 gives -150. */
  lemma AlphaOutsideHalfTurn()
    ensures Alpha(350.0, 10.0) == -340.0
    ensures Alpha(-10.0, 10.0) == 20.0
    ensures Alpha(350.0, -10.0) == 0.0
    ensures Alpha(-200.0, 10.0) == -150.0
  {
  }

  /** Degrees to radians with the source's constant 3.14 for pi. */
  function ToRadians(degrees: real): (radians: real)
    ensures degrees == 0.0 ==> radians == 0.0
    ensures degrees > 0.0 <==> radians > 0.0
    ensures degrees < 0.0 <==> radians < 0.0
  {
    degrees * 3.14 / 180.0
  }

  /** The geometric branches of the heading projection; DeadAhead is the final fallback. */
  datatype Branch = Straight | TurnRight | TurnLeft | DeadAhead

  /** Classifies alpha against the half-angle beta, in the source's test order. */
  function Classify(alpha: real, beta: real): (b: Branch)
    ensures b != DeadAhead
    ensures b == Straight <==> -beta <= alpha <= beta
    ensures beta >= 0.0 ==> (b == TurnRight <==> alpha > beta) && (b == TurnLeft <==> alpha < -beta)
  {
    if -beta <= alpha && alpha <= beta then Straight
    else if alpha > beta then TurnRight
    else if alpha < -beta then TurnLeft
    else DeadAhead
  }

  /** A target coordinate: known, or computed from tan(alpha), which this model leaves out. */
  datatype Coord = Known(v: int) | TanDependent

  /** What the selector hands on. Unset: the case computes no target (ids 2..7).
      Fatal: the default case, which prints an error and exits. */
  datatype Selection =
    | Dummy(target: Point)
    | Steered(alpha: real, branch: Branch, x: Coord, y: Coord)
    | Unset(id: int)
    | Fatal(id: int)

  predicate CoordInGrid(c: Coord) {
    c.Known? ==> 0 <= c.v < MAP_MAX
  }

  /** Case 1, second step: the target for deviation alpha (radians), half-angle beta and
      forward extent mapHeight, with every coordinate that does not need tan computed. */
  function Steer(alpha: real, beta: real, mapHeight: real): (sel: Selection)
    ensures sel.Steered? && sel.alpha == alpha && sel.branch == Classify(alpha, beta)
    ensures sel.branch != DeadAhead
    ensures sel.branch == Straight ==> sel.y == Known(Trunc(mapHeight + 100.0))
    ensures sel.branch == Straight && alpha == 0.0 ==> sel.x == Known(500)
    ensures sel.branch == TurnRight ==> sel.x == Known(900)
    ensures sel.branch == TurnLeft ==> sel.x == Known(100)
    ensures 0.0 <= mapHeight < 900.0 ==> CoordInGrid(sel.x) && CoordInGrid(sel.y)
  {
    match Classify(alpha, beta)
    case Straight =>
      var x := if alpha == 0.0 then Known(Trunc(0.5 * MAP_MAX as real)) else TanDependent;
      Steered(alpha, Straight, x, Known(Trunc(mapHeight + 0.1 * MAP_MAX as real)))
    case TurnRight =>
      Steered(alpha, TurnRight, Known(Trunc(0.9 * MAP_MAX as real)), TanDependent)
    case TurnLeft =>
      Steered(alpha, TurnLeft, Known(Trunc(0.1 * MAP_MAX as real)), TanDependent)
    case DeadAhead =>
      Steered(alpha, DeadAhead, Known(Trunc(0.5 * MAP_MAX as real)), Known(Trunc(0.1 * MAP_MAX as real)))
  }

  /** The switch on the selector id. `draw` is the pair of rand() values case 0 uses. */
  function SelectTarget(id: int, heading: real, reference: real, mapHeight: real, beta: real,
                        draw: (nat, nat)): (sel: Selection)
    ensures sel.Dummy? <==> id == 0
    ensures sel.Steered? <==> id == 1
    ensures sel.Unset? <==> 2 <= id < 8
    ensures sel.Fatal? <==> !(0 <= id < 8)
    ensures sel.Unset? || sel.Fatal? ==> sel.id == id
    ensures sel.Dummy? ==> sel.target == DummyTarget(draw.0, draw.1)
    ensures sel.Steered? ==> sel == Steer(sel.alpha, beta, mapHeight)
    ensures sel.Dummy? ==> InGrid(sel.target) && 100 <= sel.target.x <= 799 && 200 <= sel.target.y <= 899
    ensures sel.Steered? ==> sel.alpha == ToRadians(Alpha(heading, reference)) && sel.branch != DeadAhead
    ensures sel.Steered? && 0.0 <= mapHeight < 900.0 ==> CoordInGrid(sel.x) && CoordInGrid(sel.y)
  {
    if id == 0 then Dummy(DummyTarget(draw.0, draw.1))
    else if id == 1 then Steer(ToRadians(Alpha(heading, reference)), beta, mapHeight)
    else if 2 <= id < 8 then Unset(id)
    else Fatal(id)
  }

  /** Whatever the modality flags, the fatal default case is never taken. */
  lemma FlagsNeverFatal(gps: bool, lane: bool, imu: bool, heading: real, reference: real,
                        mapHeight: real, beta: real, draw: (nat, nat))
    ensures !SelectTarget(TargetId(gps, lane, imu), heading, reference, mapHeight, beta, draw).Fatal?
  {
  }

  /** Equal headings steer straight ahead to (0.5 MAP_MAX, mapHeight + 0.1 MAP_MAX). */
  lemma OnHeadingIsDeadAhead(h: real, mapHeight: real, beta: real, draw: (nat, nat))
    requires beta >= 0.0
    ensures SelectTarget(1, h, h, mapHeight, beta, draw)
         == Steered(0.0, Straight, Known(500), Known(Trunc(mapHeight + 100.0)))
  {
  }
}
