/** The tilt-order engine of tomo_motioncor2: for a physical tilt position
    (1-based, most negative angle first) it gives the 1-based number of the
    exposure in which that tilt was acquired. */
module TiltOrder {
  import opened Wrappers
  import opened PyList

  /** The six acquisition schemes, by their command-line names. */
  datatype Scheme =
    | ContinuousPositive
    | ContinuousNegative
    | BidirectionalPositive
    | BidirectionalNegative
    | DoseSymmetricPositive
    | DoseSymmetricNegative

  datatype SchemeError =
    | EmptyTiltSeries      // min() of an empty angle list raises ValueError
    | UnsupportedScheme    // tilt_order raises ValueError

  function SchemeName(scheme: Scheme): string
  {
    match scheme
    case ContinuousPositive => "continuous_positive"
    case ContinuousNegative => "continuous_negative"
    case BidirectionalPositive => "bidirectional_positive"
    case BidirectionalNegative => "bidirectional_negative"
    case DoseSymmetricPositive => "dose_symmetric_positive"
    case DoseSymmetricNegative => "dose_symmetric_negative"
  }

  const AcceptedTiltSchemes: seq<string> :=
    ["continuous_positive", "continuous_negative", "bidirectional_positive",
     "bidirectional_negative", "dose_symmetric_positive", "dose_symmetric_negative"]

  /** The string comparisons of tilt_order's if/elif chain. */
  function ParseScheme(name: string): (r: Option<Scheme>)
    ensures r.Some? <==> name in AcceptedTiltSchemes
    ensures r.Some? ==> SchemeName(r.value) == name
  {
    if name == "continuous_positive" then Some(ContinuousPositive)
    else if name == "continuous_negative" then Some(ContinuousNegative)
    else if name == "bidirectional_positive" then Some(BidirectionalPositive)
    else if name == "bidirectional_negative" then Some(BidirectionalNegative)
    else if name == "dose_symmetric_positive" then Some(DoseSymmetricPositive)
    else if name == "dose_symmetric_negative" then Some(DoseSymmetricNegative)
    else None
  }

  function Min(a: int, b: int): int
  {
    if a <= b then a else b
  }

  /** Half-width of the largest window centred on the zero tilt that fits in
      the series (distance_from_edge). */
  function EdgeDistance(totalTilts: int, centre: int): int
  {
    Min(centre, totalTilts - centre + 1)
  }

  /** The dose-symmetric branch, positive or negative: interleave outward from
      the centre inside the symmetric subseries, then the monotonic tail. */
  function DoseSymmetricOrder(positive: bool, tiltNum: int, totalTilts: int, centre: int): int
  {
    var distanceFromEdge := EdgeDistance(totalTilts, centre);
    var subseriesSize := 2 * distanceFromEdge - 1;
    var subseriesOffset := centre - distanceFromEdge;
    var subTiltNum := tiltNum - subseriesOffset;
    var subCentre := centre - subseriesOffset;
    var inSubseries :=
      if positive then
        (if subTiltNum <= subCentre then subseriesSize + 1 - (subTiltNum * 2 - 1)
         else (subTiltNum - subCentre) * 2)
      else
        (if subTiltNum < subCentre then subseriesSize + 1 - subTiltNum * 2
         else (subTiltNum - subCentre) * 2 + 1);
    // the later assignment in the source wins, so the plus tail is tested first
    if tiltNum >= centre + distanceFromEdge then tiltNum
    else if tiltNum <= subseriesOffset then totalTilts - tiltNum + 1
    else inSubseries
  }

  /** tilt_order(tilt_scheme, tilt_num, total_tilts, zero_tilt_index). */
  function TiltOrder(scheme: Scheme, tiltNum: int, totalTilts: int, zeroTiltIndex: int): (order: int)
    ensures 0 <= zeroTiltIndex < totalTilts && 1 <= tiltNum <= totalTilts ==> 1 <= order <= totalTilts
  {
    var centre := zeroTiltIndex + 1;
    match scheme
    case ContinuousPositive => tiltNum
    case ContinuousNegative => totalTilts - tiltNum + 1
    case BidirectionalPositive =>
      if tiltNum >= centre then tiltNum - centre + 1 else totalTilts - tiltNum + 1
    case BidirectionalNegative =>
      if tiltNum <= centre then centre - tiltNum + 1 else tiltNum
    case DoseSymmetricPositive => DoseSymmetricOrder(true, tiltNum, totalTilts, centre)
    case DoseSymmetricNegative => DoseSymmetricOrder(false, tiltNum, totalTilts, centre)
  }

  /** tilt_order over a scheme given by name: an unknown name raises. */
  function TiltOrderNamed(name: string, tiltNum: int, totalTilts: int, zeroTiltIndex: int): (r: Result<int, SchemeError>)
    ensures r.Success? <==> name in AcceptedTiltSchemes
    ensures r.Failure? ==> r.error == UnsupportedScheme
    ensures 0 <= zeroTiltIndex < totalTilts && 1 <= tiltNum <= totalTilts && r.Success? ==> 1 <= r.value <= totalTilts
  {
    match ParseScheme(name)
    case Some(scheme) => Success(TiltOrder(scheme, tiltNum, totalTilts, zeroTiltIndex))
    case None => Failure(UnsupportedScheme)
  }

  /** The inverse of TiltOrder: the physical position acquired in exposure k.
      It is not in the source; it is the reference against which the
      bijection is proved. */
  function AcquiredPosition(scheme: Scheme, k: int, totalTilts: int, zeroTiltIndex: int): int
  {
    var c := zeroTiltIndex + 1;
    var e := EdgeDistance(totalTilts, c);
    match scheme
    case ContinuousPositive => k
    case ContinuousNegative => totalTilts - k + 1
    case BidirectionalPositive => if k <= totalTilts - c + 1 then k + c - 1 else totalTilts - k + 1
    case BidirectionalNegative => if k <= c then c - k + 1 else k
    case DoseSymmetricPositive =>
      if k > 2 * e - 1 then (if c + e <= totalTilts then k else totalTilts - k + 1)
      else if k % 2 == 0 then c + k / 2 else c - (k - 1) / 2
    case DoseSymmetricNegative =>
      if k > 2 * e - 1 then (if c + e <= totalTilts then k else totalTilts - k + 1)
      else if k % 2 == 0 then c - k / 2 else c + (k - 1) / 2
  }

  lemma OrderThenPosition(scheme: Scheme, totalTilts: int, zeroTiltIndex: int, t: int)
    requires 0 <= zeroTiltIndex < totalTilts && 1 <= t <= totalTilts
    ensures AcquiredPosition(scheme, TiltOrder(scheme, t, totalTilts, zeroTiltIndex), totalTilts, zeroTiltIndex) == t
  {
  }

  lemma PositionThenOrder(scheme: Scheme, totalTilts: int, zeroTiltIndex: int, k: int)
    requires 0 <= zeroTiltIndex < totalTilts && 1 <= k <= totalTilts
    ensures 1 <= AcquiredPosition(scheme, k, totalTilts, zeroTiltIndex) <= totalTilts
    ensures TiltOrder(scheme, AcquiredPosition(scheme, k, totalTilts, zeroTiltIndex), totalTilts, zeroTiltIndex) == k
  {
  }

  /** [tilt_order(scheme, i + 1, total_tilts, zero_tilt_index) for i in range(0, total_tilts)] */
  function OrderList(scheme: Scheme, totalTilts: nat, zeroTiltIndex: int): (orders: seq<int>)
    ensures |orders| == totalTilts
  {
    seq(totalTilts, i => TiltOrder(scheme, i + 1, totalTilts, zeroTiltIndex))
  }

  /** Every scheme acquires each of the totalTilts positions exactly once. */
  lemma OrderListIsPermutation(scheme: Scheme, totalTilts: nat, zeroTiltIndex: int)
    requires 0 <= zeroTiltIndex < totalTilts
    ensures IsPermutation(OrderList(scheme, totalTilts, zeroTiltIndex))
  {
    var s := OrderList(scheme, totalTilts, zeroTiltIndex);
    forall i, j | 0 <= i < j < |s| ensures s[i] != s[j] {
      OrderThenPosition(scheme, totalTilts, zeroTiltIndex, i + 1);
      OrderThenPosition(scheme, totalTilts, zeroTiltIndex, j + 1);
    }
    forall x ensures x in s <==> 1 <= x <= |s| {
      if 1 <= x <= |s| {
        PositionThenOrder(scheme, totalTilts, zeroTiltIndex, x);
        var t := AcquiredPosition(scheme, x, totalTilts, zeroTiltIndex);
        assert s[t - 1] == x;
      }
    }
    BijectionIsPermutation(s);
  }

  /** Closed forms of the four continuous and bidirectional schemes; c is the
      1-based centre (zero_tilt_index + 1), which bidirectional schemes take first. */
  lemma ContinuousAndBidirectionalOrders(totalTilts: int, zeroTiltIndex: int, t: int)
    requires 0 <= zeroTiltIndex < totalTilts && 1 <= t <= totalTilts
    ensures var c := zeroTiltIndex + 1;
      && TiltOrder(ContinuousPositive, t, totalTilts, zeroTiltIndex) == t
      && TiltOrder(ContinuousNegative, t, totalTilts, zeroTiltIndex) == totalTilts - t + 1
      && TiltOrder(BidirectionalPositive, t, totalTilts, zeroTiltIndex)
           == (if t >= c then t - c + 1 else totalTilts - t + 1)
      && TiltOrder(BidirectionalNegative, t, totalTilts, zeroTiltIndex)
           == (if t <= c then c - t + 1 else t)
      && TiltOrder(BidirectionalPositive, c, totalTilts, zeroTiltIndex) == 1
      && TiltOrder(BidirectionalNegative, c, totalTilts, zeroTiltIndex) == 1
  {
  }

  /** The continuous schemes acquire in angle order, up or down. */
  lemma ContinuousMonotone(totalTilts: int, zeroTiltIndex: int, t: int, u: int)
    requires t < u
    ensures TiltOrder(ContinuousPositive, t, totalTilts, zeroTiltIndex) < TiltOrder(ContinuousPositive, u, totalTilts, zeroTiltIndex)
    ensures TiltOrder(ContinuousNegative, t, totalTilts, zeroTiltIndex) > TiltOrder(ContinuousNegative, u, totalTilts, zeroTiltIndex)
  {
  }

  /** Inside the symmetric window (1 <= k < e) the positive scheme takes
      c + k as exposure 2k and c - k as 2k + 1; the negative scheme mirrors it.
      The centre is exposure 1 for both. */
  lemma DoseSymmetricInterleaves(totalTilts: int, zeroTiltIndex: int, k: int)
    requires 0 <= zeroTiltIndex < totalTilts
    requires 1 <= k < EdgeDistance(totalTilts, zeroTiltIndex + 1)
    ensures var c := zeroTiltIndex + 1;
      && TiltOrder(DoseSymmetricPositive, c, totalTilts, zeroTiltIndex) == 1
      && TiltOrder(DoseSymmetricNegative, c, totalTilts, zeroTiltIndex) == 1
      && TiltOrder(DoseSymmetricPositive, c + k, totalTilts, zeroTiltIndex) == 2 * k
      && TiltOrder(DoseSymmetricPositive, c - k, totalTilts, zeroTiltIndex) == 2 * k + 1
      && TiltOrder(DoseSymmetricNegative, c - k, totalTilts, zeroTiltIndex) == 2 * k
      && TiltOrder(DoseSymmetricNegative, c + k, totalTilts, zeroTiltIndex) == 2 * k + 1
  {
  }

  /** Outside the window the dose-symmetric schemes run a monotonic tail, and
      at most one of the two tails holds any position. */
  lemma DoseSymmetricTails(totalTilts: int, zeroTiltIndex: int, t: int)
    requires 0 <= zeroTiltIndex < totalTilts && 1 <= t <= totalTilts
    ensures var c := zeroTiltIndex + 1;
      var e := EdgeDistance(totalTilts, c);
      && (c - e == 0 || c + e == totalTilts + 1)
      && (t <= c - e ==>
            TiltOrder(DoseSymmetricPositive, t, totalTilts, zeroTiltIndex) == totalTilts - t + 1 &&
            TiltOrder(DoseSymmetricNegative, t, totalTilts, zeroTiltIndex) == totalTilts - t + 1)
      && (t >= c + e ==>
            TiltOrder(DoseSymmetricPositive, t, totalTilts, zeroTiltIndex) == t &&
            TiltOrder(DoseSymmetricNegative, t, totalTilts, zeroTiltIndex) == t)
  {
  }

  function Abs(x: real): real
  {
    if x < 0.0 then -x else x
  }

  /** The angle of physical position i (0-based): min_angle + angle_step * i. */
  function TiltAngle(minAngle: real, angleStep: real, i: int): real
  {
    minAngle + angleStep * (i as real)
  }

  /** tilt_list */
  function TiltAngles(minAngle: real, angleStep: real, totalTilts: nat): seq<real>
  {
    seq(totalTilts, i => TiltAngle(minAngle, angleStep, i))
  }

  /** The scan of Python's min(angles, key=lambda x: abs(x - start)), which
      replaces its current best only by a strictly closer angle; the index of
      the element it returns. */
  function ClosestIndex(angles: seq<real>, start: real): (j: nat)
    requires |angles| > 0
    ensures j < |angles|
    ensures forall i :: 0 <= i < |angles| ==> Abs(angles[j] - start) <= Abs(angles[i] - start)
    ensures forall i :: 0 <= i < j ==> Abs(angles[i] - start) > Abs(angles[j] - start)
  {
    if |angles| == 1 then 0
    else
      var best := ClosestIndex(angles[..|angles| - 1], start);
      var last := |angles| - 1;
      if Abs(angles[last] - start) < Abs(angles[best] - start) then last else best
  }

  /** angles.index(min(angles, key=...)): list.index finds the first angle
      equal to the closest one, which is the closest angle's own index. */
  function FirstClosestIndex(angles: seq<real>, start: real): (z: nat)
    requires |angles| > 0
    ensures z < |angles|
    ensures forall i :: 0 <= i < |angles| ==> Abs(angles[z] - start) <= Abs(angles[i] - start)
    ensures forall i :: 0 <= i < z ==> Abs(angles[i] - start) > Abs(angles[z] - start)
  {
    IndexOf(angles, angles[ClosestIndex(angles, start)])
  }

  /** zero_tilt_index: the lowest index whose angle is closest to the
      starting angle. */
  function ZeroTiltIndex(minAngle: real, angleStep: real, totalTilts: nat, start: real): (z: nat)
    requires totalTilts >= 1
    ensures z < totalTilts
    ensures var angles := TiltAngles(minAngle, angleStep, totalTilts);
      && (forall i :: 0 <= i < totalTilts ==> Abs(angles[z] - start) <= Abs(angles[i] - start))
      && (forall i :: 0 <= i < z ==> Abs(angles[i] - start) > Abs(angles[z] - start))
  {
    FirstClosestIndex(TiltAngles(minAngle, angleStep, totalTilts), start)
  }

  /** tilt_order_from_tilt_scheme: the order list of a whole series. */
  function TiltOrderFromTiltScheme(name: string, minAngle: real, angleStep: real, totalTilts: nat, start: real)
    : (r: Result<seq<int>, SchemeError>)
    ensures r.Success? <==> totalTilts >= 1 && name in AcceptedTiltSchemes
    ensures r.Failure? ==> (r.error == EmptyTiltSeries <==> totalTilts == 0)
    ensures r.Success? ==> |r.value| == totalTilts && IsPermutation(r.value)
  {
    if totalTilts == 0 then Failure(EmptyTiltSeries)
    else
      var z := ZeroTiltIndex(minAngle, angleStep, totalTilts, start);
      match ParseScheme(name)
      case None => Failure(UnsupportedScheme)
      case Some(scheme) =>
        OrderListIsPermutation(scheme, totalTilts, z);
        Success(OrderList(scheme, totalTilts, z))
  }

  /** A 21-tilt series from -30 in steps of 3 has its zero tilt at index 10. */
  lemma ZeroTiltExample()
    ensures ZeroTiltIndex(-30.0, 3.0, 21, 0.0) == 10
  {
    var angles := TiltAngles(-30.0, 3.0, 21);
    var z := ZeroTiltIndex(-30.0, 3.0, 21, 0.0);
    assert angles[10] == 0.0;
    assert Abs(angles[z] - 0.0) == 0.0;
  }

  /** Seven tilts from -9 in steps of 3, dose-symmetric positive starting at 0. */
  lemma DoseSymmetricExample()
    ensures TiltOrderFromTiltScheme("dose_symmetric_positive", -9.0, 3.0, 7, 0.0) == Success([7, 5, 3, 1, 2, 4, 6])
  {
    var angles := TiltAngles(-9.0, 3.0, 7);
    var z := ZeroTiltIndex(-9.0, 3.0, 7, 0.0);
    assert angles[3] == 0.0;
    assert Abs(angles[z] - 0.0) == 0.0;
    assert z == 3;
    assert OrderList(DoseSymmetricPositive, 7, 3) == [7, 5, 3, 1, 2, 4, 6];
  }
}
