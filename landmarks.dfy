/**
 * Face geometry used by the liveness check: the landmark points of one detected
 * face and the single horizontal head-turn signal derived from them.
 * Coordinates are exact reals; the detector's floating-point rounding is not modelled.
 */
module Landmarks {

  /** A landmark position in image pixel units. */
  datatype Point = Point(x: real, y: real)

  /** The landmark groups of one detected face: the nose outline and the two eye outlines. */
  datatype LandmarkSet = LandmarkSet(nose: seq<Point>, leftEye: seq<Point>, rightEye: seq<Point>)

  /**
   * The points the head-turn signal reads exist. The 68-point landmark model always
   * delivers 9 nose points and 6 points per eye, so this holds of every detection.
   */
  predicate HasCorners(l: LandmarkSet)
  {
    |l.nose| >= 4 && |l.leftEye| >= 1 && |l.rightEye| >= 4
  }

  type FaceLandmarks = l: LandmarkSet | HasCorners(l)
    witness LandmarkSet(seq(4, _ => Point(0.0, 0.0)), seq(4, _ => Point(0.0, 0.0)), seq(4, _ => Point(0.0, 0.0)))

  /** Tip of the nose: the fourth point of the nose outline. */
  function NoseTip(f: FaceLandmarks): Point { f.nose[3] }

  /** Outer corner of the left eye: the first point of its outline. */
  function LeftEyeOuterCorner(f: FaceLandmarks): Point { f.leftEye[0] }

  /** Outer corner of the right eye: the fourth point of its outline. */
  function RightEyeOuterCorner(f: FaceLandmarks): Point { f.rightEye[3] }

  /**
   * The head-turn signal: how far the nose tip lies to the right of the midpoint of the
   * two outer eye corners. It is the mean of the nose tip's horizontal distances from
   * the two corners, so it is zero exactly when the nose sits half-way between them.
   */
  function Offset(f: FaceLandmarks): (d: real)
    ensures d == ((NoseTip(f).x - LeftEyeOuterCorner(f).x) + (NoseTip(f).x - RightEyeOuterCorner(f).x)) / 2.0
    ensures d == 0.0 <==> NoseTip(f).x - LeftEyeOuterCorner(f).x == RightEyeOuterCorner(f).x - NoseTip(f).x
  {
    var eyeCenterX := (LeftEyeOuterCorner(f).x + RightEyeOuterCorner(f).x) / 2.0;
    NoseTip(f).x - eyeCenterX
  }

  /** The fixed threshold, in raw pixel units, that every head-turn gate compares against. */
  const Threshold: real := 15.0

  function Abs(d: real): (a: real)
    ensures a >= 0.0 && (a == d || a == -d)
  {
    if d < 0.0 then -d else d
  }

  /** The gate of the "turn left" step: strictly beyond the threshold to the right. */
  predicate TurnedLeft(d: real) { d > Threshold }

  /** The gate of the "turn right" step: strictly beyond the threshold to the left. */
  predicate TurnedRight(d: real) { d < -Threshold }

  /** The gate of the "look straight ahead" step: within the threshold either way, bounds included. */
  predicate FacingForward(d: real) { Abs(d) <= Threshold }

  /** Moves every point of a set of landmarks by dx horizontally. */
  function ShiftPoints(ps: seq<Point>, dx: real): (qs: seq<Point>)
    ensures |qs| == |ps|
    ensures forall i :: 0 <= i < |ps| ==> qs[i] == Point(ps[i].x + dx, ps[i].y)
  {
    seq(|ps|, i requires 0 <= i < |ps| => Point(ps[i].x + dx, ps[i].y))
  }

  function Shift(f: FaceLandmarks, dx: real): (g: FaceLandmarks)
    ensures |g.nose| == |f.nose| && |g.leftEye| == |f.leftEye| && |g.rightEye| == |f.rightEye|
  {
    LandmarkSet(ShiftPoints(f.nose, dx), ShiftPoints(f.leftEye, dx), ShiftPoints(f.rightEye, dx))
  }

  /** Multiplies every coordinate of a set of landmarks by k (the face seen nearer or farther). */
  function ScalePoints(ps: seq<Point>, k: real): (qs: seq<Point>)
    ensures |qs| == |ps|
    ensures forall i :: 0 <= i < |ps| ==> qs[i] == Point(k * ps[i].x, k * ps[i].y)
  {
    seq(|ps|, i requires 0 <= i < |ps| => Point(k * ps[i].x, k * ps[i].y))
  }

  function Scale(f: FaceLandmarks, k: real): (g: FaceLandmarks)
    ensures |g.nose| == |f.nose| && |g.leftEye| == |f.leftEye| && |g.rightEye| == |f.rightEye|
  {
    LandmarkSet(ScalePoints(f.nose, k), ScalePoints(f.leftEye, k), ScalePoints(f.rightEye, k))
  }

  /** The signal depends only on relative positions: moving the whole face sideways leaves it unchanged. */
  lemma OffsetShiftInvariant(f: FaceLandmarks, dx: real)
    ensures Offset(Shift(f, dx)) == Offset(f)
  {
    var g := Shift(f, dx);
    assert NoseTip(g).x == NoseTip(f).x + dx;
    assert LeftEyeOuterCorner(g).x == LeftEyeOuterCorner(f).x + dx;
    assert RightEyeOuterCorner(g).x == RightEyeOuterCorner(f).x + dx;
  }

  /** The signal is not normalised by face size: it grows in proportion to the face's scale. */
  lemma OffsetScales(f: FaceLandmarks, k: real)
    ensures Offset(Scale(f, k)) == k * Offset(f)
  {
    var g := Scale(f, k);
    assert NoseTip(g).x == k * NoseTip(f).x;
    assert LeftEyeOuterCorner(g).x == k * LeftEyeOuterCorner(f).x;
    assert RightEyeOuterCorner(g).x == k * RightEyeOuterCorner(f).x;
  }

  /** No single signal value opens two of the three head-turn gates. */
  lemma GatesExclusive(d: real)
    ensures !(TurnedLeft(d) && TurnedRight(d))
    ensures !(TurnedLeft(d) && FacingForward(d))
    ensures !(TurnedRight(d) && FacingForward(d))
  {
  }
}
