/** The visible-face selector of multitargetManager: a first-maximum scan over
    the dot products of the camera-to-cube direction with the six face normals
    +right, -right, +up, -up, +forward, -forward (indices 0 to 5). */
module FaceSelection {
  import opened Geometry

  /** The scan's starting maximum and the index it reports when no dot beats it. */
  const Floor: real := -1.0
  const Sentinel: int := -1
  const FaceCount: nat := 6

  /** What the scan is meant to return: the sentinel when no dot exceeds the
      floor, otherwise the first index whose dot exceeds the floor and is at
      least every other dot. */
  predicate SelectsFace(dots: seq<real>, r: int) {
    if r == Sentinel then
      forall j :: 0 <= j < |dots| ==> dots[j] <= Floor
    else
      && 0 <= r < |dots|
      && dots[r] > Floor
      && (forall j :: 0 <= j < |dots| ==> dots[j] <= dots[r])
      && (forall j :: 0 <= j < r ==> dots[j] < dots[r])
  }

  /** The loop's state after the first i iterations: best is the first
      maximum of dots[..i] above the floor, or the sentinel, and maxDot is its dot. */
  predicate ScanState(dots: seq<real>, i: nat, maxDot: real, best: int) {
    && i <= |dots|
    && Sentinel <= best < i
    && (best == Sentinel ==>
          maxDot == Floor && forall j :: 0 <= j < i ==> dots[j] <= Floor)
    && (best != Sentinel ==>
          && maxDot == dots[best]
          && dots[best] > Floor
          && (forall j :: 0 <= j < i ==> dots[j] <= dots[best])
          && (forall j :: 0 <= j < best ==> dots[j] < dots[best]))
  }

  /** The for-loop from index i on: a strictly greater dot replaces the running maximum. */
  function Scan(dots: seq<real>, i: nat, maxDot: real, best: int): (r: int)
    requires ScanState(dots, i, maxDot, best)
    ensures SelectsFace(dots, r)
    decreases |dots| - i
  {
    if i == |dots| then best
    else if dots[i] > maxDot then Scan(dots, i + 1, dots[i], i)
    else Scan(dots, i + 1, maxDot, best)
  }

  /** The scan from maxDot = -1 and visibleFaceIndex = -1, as GetVisibleFaceIndex starts it. */
  function FirstMaxIndex(dots: seq<real>): (r: int)
    ensures Sentinel <= r < |dots|
    ensures SelectsFace(dots, r)
  {
    Scan(dots, 0, Floor, Sentinel)
  }

  /** At most one index meets SelectsFace: ties cannot make the choice ambiguous. */
  lemma SelectionIsUnique(dots: seq<real>, r1: int, r2: int)
    requires SelectsFace(dots, r1) && SelectsFace(dots, r2)
    ensures r1 == r2
  {
  }

  /** The scan returns exactly the index SelectsFace describes, and no other. */
  lemma FirstMaxIndexCharacterized(dots: seq<real>, r: int)
    ensures FirstMaxIndex(dots) == r <==> SelectsFace(dots, r)
  {
    if SelectsFace(dots, r) {
      SelectionIsUnique(dots, FirstMaxIndex(dots), r);
    }
  }

  /** Ties go to the earliest face: an index holding a maximal dot above the
      floor is never beaten by a later one. */
  lemma TieGoesToLowerIndex(dots: seq<real>, i: int)
    requires 0 <= i < |dots| && dots[i] > Floor
    requires forall j :: 0 <= j < |dots| ==> dots[j] <= dots[i]
    ensures 0 <= FirstMaxIndex(dots) <= i
    ensures dots[FirstMaxIndex(dots)] == dots[i]
  {
  }

  /** The dot products come in opposite pairs, one per axis. */
  predicate OppositePairs(dots: seq<real>) {
    && |dots| == FaceCount
    && dots[1] == -dots[0]
    && dots[3] == -dots[2]
    && dots[5] == -dots[4]
  }

  /** With opposite pairs the maximum is at least 0, so the sentinel is never returned. */
  lemma OppositePairsNeverSentinel(dots: seq<real>)
    requires OppositePairs(dots)
    ensures 0 <= FirstMaxIndex(dots) < FaceCount
    ensures dots[FirstMaxIndex(dots)] >= 0.0
  {
    assert dots[0] >= 0.0 || dots[1] >= 0.0;
  }

  /** The six candidates of faceDirections: right, -right, up, -up, forward, -forward. */
  function FaceDirections(b: Basis): (faces: seq<Vec3>)
    ensures |faces| == FaceCount
    ensures forall k :: 0 <= k < 3 ==> faces[2 * k + 1] == Neg(faces[2 * k])
  {
    [b.right, Neg(b.right), b.up, Neg(b.up), b.forward, Neg(b.forward)]
  }

  /** The dot of the direction with every candidate, in candidate order. */
  function FaceDots(direction: Vec3, b: Basis): (dots: seq<real>)
    ensures |dots| == FaceCount
    ensures OppositePairs(dots)
    ensures forall k :: 0 <= k < FaceCount ==> dots[k] == Dot(direction, FaceDirections(b)[k])
  {
    DotNeg(direction, b.right);
    DotNeg(direction, b.up);
    DotNeg(direction, b.forward);
    [ Dot(direction, b.right), Dot(direction, Neg(b.right))
    , Dot(direction, b.up), Dot(direction, Neg(b.up))
    , Dot(direction, b.forward), Dot(direction, Neg(b.forward)) ]
  }

  /** The scene read by the selector. normFactor stands for Normalize: it is
      1/|d| for the camera-to-cube direction d, or 0 when |d| is too small,
      so a view Normalize can produce has normFactor >= 0 (ValidView). */
  datatype View = View(camera: Vec3, cube: Vec3, basis: Basis, normFactor: real)

  predicate ValidView(v: View) {
    v.normFactor >= 0.0
  }

  /** The direction from the camera towards the cube, after normalisation. */
  function ViewDirection(v: View): Vec3 {
    Scale(v.normFactor, Sub(v.cube, v.camera))
  }

  /** GetVisibleFaceIndex: always a face index, never the sentinel, and the
      first face whose normal best aligns with the camera-to-cube direction. */
  function GetVisibleFaceIndex(v: View): (r: int)
    ensures 0 <= r < FaceCount
    ensures SelectsFace(FaceDots(ViewDirection(v), v.basis), r)
    ensures FaceDots(ViewDirection(v), v.basis)[r] >= 0.0
  {
    var dots := FaceDots(ViewDirection(v), v.basis);
    OppositePairsNeverSentinel(dots);
    FirstMaxIndex(dots)
  }

  /** All dots equal: the first face, +right, wins. This covers a camera at
      the cube's position and a direction Normalize sets to zero. */
  lemma ZeroDirectionSelectsRightFace(v: View)
    requires v.normFactor == 0.0 || v.camera == v.cube
    ensures GetVisibleFaceIndex(v) == 0
  {
    var d := ViewDirection(v);
    assert d == Zero;
    var dots := FaceDots(d, v.basis);
    forall k | 0 <= k < FaceCount
      ensures dots[k] == 0.0
    {
      DotZero(FaceDirections(v.basis)[k]);
    }
    TieGoesToLowerIndex(dots, 0);
  }

  /** Scaling every dot by a positive factor keeps the selected index, as long
      as the selected dot is not negative. */
  lemma ScaledSelection(dots: seq<real>, scaled: seq<real>, c: real, r: int)
    requires c > 0.0 && |scaled| == |dots|
    requires forall k :: 0 <= k < |dots| ==> scaled[k] == c * dots[k]
    requires SelectsFace(dots, r) && r != Sentinel && dots[r] >= 0.0
    ensures SelectsFace(scaled, r)
  {
    forall j | 0 <= j < |dots|
      ensures scaled[j] <= scaled[r]
      ensures j < r ==> scaled[j] < scaled[r]
    {
      MulMonotone(c, dots[j], dots[r]);
    }
  }

  lemma MulMonotone(c: real, a: real, b: real)
    requires c > 0.0
    ensures a <= b ==> c * a <= c * b
    ensures a < b ==> c * a < c * b
  {
  }

  /** Scaling the direction scales each of the six dots by the same factor. */
  lemma FaceDotsScale(c: real, d: Vec3, b: Basis)
    ensures forall k :: 0 <= k < FaceCount ==>
      FaceDots(Scale(c, d), b)[k] == c * FaceDots(d, b)[k]
  {
    var faces := FaceDirections(b);
    forall k | 0 <= k < FaceCount
      ensures Dot(Scale(c, d), faces[k]) == c * Dot(d, faces[k])
    {
      DotScale(c, d, faces[k]);
    }
  }

  /** Scaling opposite-paired dots by a positive factor keeps the first maximum. */
  lemma ScaledFirstMax(dots: seq<real>, scaled: seq<real>, c: real)
    requires c > 0.0 && OppositePairs(dots) && |scaled| == |dots|
    requires forall k :: 0 <= k < |dots| ==> scaled[k] == c * dots[k]
    ensures FirstMaxIndex(scaled) == FirstMaxIndex(dots)
  {
    var r := FirstMaxIndex(dots);
    OppositePairsNeverSentinel(dots);
    ScaledSelection(dots, scaled, c, r);
    SelectionIsUnique(scaled, FirstMaxIndex(scaled), r);
  }

  /** Normalize only rescales the direction, so any positive factor selects
      the same face as the raw camera-to-cube direction. */
  lemma NormalizationKeepsFace(v: View)
    requires v.normFactor > 0.0
    ensures GetVisibleFaceIndex(v) == FirstMaxIndex(FaceDots(Sub(v.cube, v.camera), v.basis))
  {
    var raw := Sub(v.cube, v.camera);
    FaceDotsScale(v.normFactor, raw, v.basis);
    ScaledFirstMax(FaceDots(raw, v.basis), FaceDots(ViewDirection(v), v.basis), v.normFactor);
  }

  /** The right axis is a unit vector orthogonal to the other two axes. */
  predicate RightAxisOrthonormal(b: Basis) {
    && Dot(b.right, b.right) == 1.0
    && Dot(b.right, b.up) == 0.0
    && Dot(b.right, b.forward) == 0.0
  }

  /** The literal comparison: a camera placed on the cube's +right side looks
      along -right, so the -right face (index 1) is selected, not +right. */
  lemma CameraOnRightSideSelectsLeftFace(v: View, k: real)
    requires RightAxisOrthonormal(v.basis)
    requires k > 0.0 && v.normFactor > 0.0
    requires v.camera == Add(v.cube, Scale(k, v.basis.right))
    ensures GetVisibleFaceIndex(v) == 1
  {
    var b := v.basis;
    var raw := Sub(v.cube, v.camera);
    assert raw == Scale(-k, b.right);
    var c := v.normFactor * -k;
    assert ViewDirection(v) == Scale(c, b.right);
    var dots := FaceDots(Scale(c, b.right), b);
    DotScale(c, b.right, b.right);
    DotScale(c, b.right, b.up);
    DotScale(c, b.right, b.forward);
    assert dots[0] == c && dots[1] == -c;
    assert dots[2] == 0.0 && dots[3] == 0.0 && dots[4] == 0.0 && dots[5] == 0.0;
    assert c < 0.0;
    var r := GetVisibleFaceIndex(v);
    assert SelectsFace(dots, 1);
    SelectionIsUnique(dots, r, 1);
  }
}
