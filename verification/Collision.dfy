/** Swept collision of axis-aligned boxes, over exact reals. */
module Collision {

  const TOLERANCE := 0.0000001
  const MAX_FLOAT32 := 340282346638528859811704183484516925440.0

  type Vec3 = v: seq<real> | |v| == 3 witness [0.0, 0.0, 0.0]

  type Axis = i: int | 0 <= i < 3

  datatype Box = Box(min: Vec3, max: Vec3)

  const ZERO: Vec3 := [0.0, 0.0, 0.0]

  function OnAxis(j: Axis, u: real): Vec3 { ZERO[j := u] }

  function Add(a: Vec3, b: Vec3): Vec3 { [a[0] + b[0], a[1] + b[1], a[2] + b[2]] }

  function Negated(a: Vec3): Vec3 { [-a[0], -a[1], -a[2]] }

  function Translate(b: Box, v: Vec3): Box { Box(Add(b.min, v), Add(b.max, v)) }

  function Min(a: real, b: real): real { if a <= b then a else b }

  function Max(a: real, b: real): real { if a >= b then a else b }

  /** Gaps and overlaps within the tolerance count as contact. */
  function Snap(g: real): real { if -TOLERANCE <= g <= TOLERANCE then 0.0 else g }

  /** How far the moving box reaches beyond the lower side of the stationary one; negative for a gap. */
  function Below(s: Box, m: Box, i: Axis): real { Snap(m.max[i] - s.min[i]) }

  /** How far the stationary box reaches beyond the lower side of the moving one; negative for a gap. */
  function Above(s: Box, m: Box, i: Axis): real { Snap(s.max[i] - m.min[i]) }

  predicate Apart(s: Box, m: Box, i: Axis) { Below(s, m, i) <= 0.0 || Above(s, m, i) <= 0.0 }

  function ApartAxes(s: Box, m: Box): nat {
    (if Apart(s, m, 0) then 1 else 0) + (if Apart(s, m, 1) then 1 else 0) + (if Apart(s, m, 2) then 1 else 0)
  }

  function ApartAxis(s: Box, m: Box): Axis {
    if Apart(s, m, 0) then 0 else if Apart(s, m, 1) then 1 else 2
  }

  predicate IsPoint(b: Box) { b.min == b.max }

  /** The depth of an overlap on an axis, measured to the nearer side. */
  function Depth(s: Box, m: Box, i: Axis): real {
    if Apart(s, m, i) then 0.0 else Min(Below(s, m, i), Above(s, m, i))
  }

  function Shallowest(s: Box, m: Box): Axis {
    if Depth(s, m, 0) <= Depth(s, m, 1) && Depth(s, m, 0) <= Depth(s, m, 2) then 0
    else if Depth(s, m, 1) <= Depth(s, m, 2) then 1
    else 2
  }

  /** A move along the only separating axis, cut where the boxes touch. */
  function Stopped(s: Box, m: Box, k: Axis, u: real): real {
    if Below(s, m, k) <= 0.0 then Min(u, -Below(s, m, k)) else Max(u, Above(s, m, k))
  }

  /** A move out of an overlap through the nearer side. */
  function PushedOut(s: Box, m: Box, k: Axis, u: real): real {
    if Below(s, m, k) < Above(s, m, k) then Min(u, -Below(s, m, k)) else Max(u, Above(s, m, k))
  }

  datatype ClipResult = ClipResult(axis: Axis, penetration: real, clipped: Vec3, depenetrating: Vec3)

  /** The velocity left to a moving box by one stationary box. */
  function Clip(s: Box, m: Box, v: Vec3): ClipResult {
    if IsPoint(s) || ApartAxes(s, m) >= 2 then ClipResult(0, 0.0, v, v)
    else if ApartAxes(s, m) == 1 then
      var k := ApartAxis(s, m);
      var v' := v[k := Stopped(s, m, k, v[k])];
      ClipResult(0, 0.0, v', v')
    else
      var k := Shallowest(s, m);
      ClipResult(k, Min(MAX_FLOAT32 - 1.0, Depth(s, m, k)), v, v[k := PushedOut(s, m, k, v[k])])
  }

  /** One round of the axis loop. */
  method MeasureAxis(stationary: Box, moving: Box, i: Axis) returns (depth: real, signed: real, normal: real)
    ensures Measured(stationary, moving, i, depth, signed, normal)
  {
    var minPenetration := moving.max[i] - stationary.min[i];
    var maxPenetration := stationary.max[i] - moving.min[i];
    if -TOLERANCE <= minPenetration <= TOLERANCE { minPenetration := 0.0; }
    if -TOLERANCE <= maxPenetration <= TOLERANCE { maxPenetration := 0.0; }
    var minPositive, maxPositive := Max(0.0, minPenetration), Max(0.0, maxPenetration);
    if minPositive == 0.0 {
      depth, signed, normal := 0.0, minPenetration, -1.0;
    } else if maxPositive == 0.0 {
      depth, signed, normal := 0.0, maxPenetration, 1.0;
    } else if minPositive < maxPositive {
      depth, signed, normal := minPositive, minPositive, -1.0;
    } else {
      depth, signed, normal := maxPositive, maxPositive, 1.0;
    }
  }

  /** The answer for boxes that overlap on every axis. */
  method ResolveOverlap(
    ghost s: Box, ghost m: Box, velocity: Vec3, depths: Vec3, ghost signed: Vec3, normals: Vec3, penetration: real)
    returns (r: ClipResult)
    requires !IsPoint(s) && ApartAxes(s, m) == 0 && penetration == LeastDepth(s, m, 3)
    requires forall k: Axis :: Measured(s, m, k, depths[k], signed[k], normals[k])
    ensures r == Clip(s, m, velocity)
  {
    DepthMeasured(s, m, 0, depths[0], signed[0], normals[0]);
    DepthMeasured(s, m, 1, depths[1], signed[1], normals[1]);
    DepthMeasured(s, m, 2, depths[2], signed[2], normals[2]);
    hide Clip, Apart, ApartAxes, Depth, Measured, LeastDepth;
    var best: Axis := 0;
    if depths[1] < depths[best] { best := 1; }
    if depths[2] < depths[best] { best := 2; }
    OverlapResolved(s, m, velocity, depths, best, depths[best], signed[best], normals[best]);
    var desired := depths[best] * normals[best];
    if desired > 0.0 {
      r := ClipResult(best, penetration, velocity, velocity[best := Max(desired, velocity[best])]);
    } else {
      r := ClipResult(best, penetration, velocity, velocity[best := Min(desired, velocity[best])]);
    }
  }

  method DoClipCollide(stationary: Box, moving: Box, velocity: Vec3) returns (r: ClipResult)
    ensures r == Clip(stationary, moving, velocity)
  {
    CountsAgree(stationary, moving);
    LeastIsShallowest(stationary, moving);
    LeastStep(stationary, moving, 0);
    r := ClipResult(0, 0.0, velocity, velocity);
    if stationary.min == stationary.max { return; }
    assert ApartAxes(stationary, moving) >= 2 ==> r == Clip(stationary, moving, velocity);
    hide Clip, Apart, ApartAxes, ApartBefore, Depth, Stopped, PushedOut, Measured, LeastDepth, Shallowest;
    var depths, signed, normals: Vec3 := ZERO, ZERO, ZERO;
    var separatingAxes, separatingAxis := 0, 0;
    var resultPenetration := MAX_FLOAT32 - 1.0;
    for i := 0 to 3
      invariant 0 <= separatingAxis < 3 && separatingAxes == ApartBefore(stationary, moving, i) <= 1
      invariant separatingAxes == 1 ==> separatingAxis < i && Apart(stationary, moving, separatingAxis)
      invariant forall k: Axis | k < i :: Measured(stationary, moving, k, depths[k], signed[k], normals[k])
      invariant resultPenetration == LeastDepth(stationary, moving, i)
    {
      var depth, sign, normal := MeasureAxis(stationary, moving, i);
      depths, signed, normals := depths[i := depth], signed[i := sign], normals[i := normal];
      LeastStep(stationary, moving, i);
      SignTells(stationary, moving, i, depth, sign, normal, 0.0);
      if sign <= 0.0 {
        separatingAxes, separatingAxis := separatingAxes + 1, i;
      }
      if separatingAxes > 1 { return; }
      resultPenetration := Min(resultPenetration, depths[i]);
    }
    if separatingAxes == 0 {
      r := ResolveOverlap(stationary, moving, velocity, depths, signed, normals, resultPenetration);
      return;
    }
    var k := separatingAxis;
    SweepResolved(stationary, moving, velocity, k, depths[k], signed[k], normals[k]);
    var swept := signed[k] - normals[k] * velocity[k];
    if swept <= 0.0 { return; }
    var resolved := signed[k] * normals[k];
    r := r.(clipped := velocity[k := resolved], depenetrating := velocity[k := resolved]);
  }

  lemma OverlapResolved(s: Box, m: Box, v: Vec3, d: Vec3, best: Axis, depth: real, signed: real, normal: real)
    requires !IsPoint(s) && ApartAxes(s, m) == 0 && Measured(s, m, best, depth, signed, normal)
    requires d[0] == Depth(s, m, 0) && d[1] == Depth(s, m, 1) && d[2] == Depth(s, m, 2)
    requires best == if d[2] < Min(d[0], d[1]) then 2 else if d[1] < d[0] then 1 else 0
    ensures Clip(s, m, v) == ClipResult(best, LeastDepth(s, m, 3), v,
      v[best := if depth * normal > 0.0 then Max(depth * normal, v[best]) else Min(depth * normal, v[best])])
  {
    SignTells(s, m, best, depth, signed, normal, v[best]);
    LeastIsShallowest(s, m);
    hide PushedOut, Measured, Depth, LeastDepth;
    assert best == Shallowest(s, m) && !Apart(s, m, best);
  }

  lemma DepthMeasured(s: Box, m: Box, i: Axis, depth: real, signed: real, normal: real)
    requires Measured(s, m, i, depth, signed, normal)
    ensures depth == Depth(s, m, i)
  {
  }

  lemma SweepResolved(s: Box, m: Box, v: Vec3, k: Axis, depth: real, signed: real, normal: real)
    requires !IsPoint(s) && ApartAxes(s, m) == 1 && Apart(s, m, k) && Measured(s, m, k, depth, signed, normal)
    ensures Clip(s, m, v) == if signed - normal * v[k] <= 0.0 then ClipResult(0, 0.0, v, v)
                             else ClipResult(0, 0.0, v[k := signed * normal], v[k := signed * normal])
  {
    SignTells(s, m, k, depth, signed, normal, v[k]);
    hide Stopped, Measured;
    assert k == ApartAxis(s, m);
    assert v[k := v[k]] == v;
  }

  function ApartBefore(s: Box, m: Box, i: nat): nat
    requires i <= 3
  {
    if i == 0 then 0 else ApartBefore(s, m, i - 1) + if Apart(s, m, i - 1) then 1 else 0
  }

  function LeastDepth(s: Box, m: Box, i: nat): real
    requires i <= 3
  {
    if i == 0 then MAX_FLOAT32 - 1.0 else Min(LeastDepth(s, m, i - 1), Depth(s, m, i - 1))
  }

  lemma CountsAgree(s: Box, m: Box)
    ensures 0 == ApartBefore(s, m, 0) <= ApartBefore(s, m, 1) <= ApartBefore(s, m, 2) <= ApartBefore(s, m, 3) ==
        ApartAxes(s, m)
  {
  }

  lemma LeastStep(s: Box, m: Box, i: nat)
    requires i < 3
    ensures LeastDepth(s, m, 0) == MAX_FLOAT32 - 1.0
    ensures LeastDepth(s, m, i + 1) == Min(LeastDepth(s, m, i), Depth(s, m, i))
    ensures ApartBefore(s, m, i + 1) == ApartBefore(s, m, i) + if Apart(s, m, i) then 1 else 0
  {
  }

  lemma LeastIsShallowest(s: Box, m: Box)
    ensures LeastDepth(s, m, 3) == Min(MAX_FLOAT32 - 1.0, Depth(s, m, Shallowest(s, m)))
  {
    hide Depth;
    assert LeastDepth(s, m, 0) == MAX_FLOAT32 - 1.0;
    assert LeastDepth(s, m, 1) == Min(MAX_FLOAT32 - 1.0, Depth(s, m, 0));
  }

  lemma SignTells(s: Box, m: Box, i: Axis, depth: real, signed: real, normal: real, u: real)
    requires Measured(s, m, i, depth, signed, normal)
    ensures (Apart(s, m, i) <==> signed <= 0.0) && depth == Depth(s, m, i)
    ensures !Apart(s, m, i) ==>
      (if depth * normal > 0.0 then Max(depth * normal, u) else Min(depth * normal, u)) == PushedOut(s, m, i, u)
    ensures Apart(s, m, i) ==>
      Stopped(s, m, i, u) == if signed - normal * u <= 0.0 then u else signed * normal
  {
  }

  /** What one round of the axis loop records about an axis. */
  predicate Measured(s: Box, m: Box, i: Axis, depth: real, signed: real, normal: real) {
    && depth == Depth(s, m, i)
    && (if Below(s, m, i) <= 0.0 then signed == Below(s, m, i) && normal == -1.0
        else if Above(s, m, i) <= 0.0 then signed == Above(s, m, i) && normal == 1.0
        else signed == depth && normal == if Below(s, m, i) < Above(s, m, i) then -1.0 else 1.0)
  }

  // ----- what one box guarantees

  predicate Separated(s: Box, m: Box) { IsPoint(s) || Apart(s, m, 0) || Apart(s, m, 1) || Apart(s, m, 2) }

  /** The stationary box can be hit by a move along axis j: nothing separates the boxes on another axis. */
  predicate Blocks(s: Box, m: Box, j: Axis) { !IsPoint(s) && Apart(s, m, j) && ApartAxes(s, m) == 1 }

  /** What a box leaves of a move of length u along axis j. */
  function Left(s: Box, m: Box, j: Axis, u: real): real { if Blocks(s, m, j) then Stopped(s, m, j, u) else u }

  /** w is u or a part of it, in the same direction. */
  predicate PartOf(w: real, u: real) { 0.0 <= w <= u || u <= w <= 0.0 }

  lemma ClipOnAxis(s: Box, m: Box, j: Axis, u: real)
    requires Separated(s, m)
    ensures Clip(s, m, OnAxis(j, u)) == ClipResult(0, 0.0, OnAxis(j, Left(s, m, j, u)), OnAxis(j, Left(s, m, j, u)))
    ensures PartOf(Left(s, m, j, u), u)
  {
    var v := OnAxis(j, u);
    var k := ApartAxis(s, m);
    if ApartAxes(s, m) == 1 && !IsPoint(s) {
      assert Apart(s, m, k);
      assert k != j ==> Stopped(s, m, k, v[k]) == v[k] && v[k := v[k]] == v;
    }
  }

  /** No tunnelling: a part of the move that is left never overlaps the box, so neither does any fraction of it. */
  lemma LeftIsSafe(s: Box, m: Box, j: Axis, u: real, w: real)
    requires Separated(s, m) && PartOf(w, Left(s, m, j, u))
    ensures Separated(s, Translate(m, OnAxis(j, w)))
  {
    var m' := Translate(m, OnAxis(j, w));
    assert m'.max[j] == m.max[j] + w && m'.min[j] == m.min[j] + w;
    if Blocks(s, m, j) {
      assert Apart(s, m', j);
    } else if !IsPoint(s) {
      var k: Axis := if j != 0 && Apart(s, m, 0) then 0 else if j != 1 && Apart(s, m, 1) then 1 else 2;
      assert m'.max[k] == m.max[k] && m'.min[k] == m.min[k];
      assert Apart(s, m', k);
    }
  }

  /** A move that is cut ends in contact: the facing sides are within the tolerance of each other and no other
      axis separates the boxes. */
  lemma CutMoveTouches(s: Box, m: Box, j: Axis, u: real)
    requires Separated(s, m) && Left(s, m, j, u) != u
    ensures var m' := Translate(m, OnAxis(j, Left(s, m, j, u)));
      (if u > 0.0 then Snap(m'.max[j] - s.min[j]) == 0.0 else Snap(s.max[j] - m'.min[j]) == 0.0)
      && forall k: Axis | k != j :: !Apart(s, m', k)
  {
    var m' := Translate(m, OnAxis(j, Left(s, m, j, u)));
    forall k: Axis | k != j
      ensures !Apart(s, m', k)
    {
      assert m'.max[k] == m.max[k] && m'.min[k] == m.min[k];
    }
  }

  /** Overlapping boxes come apart on the chosen axis, and only that component of the velocity changes. */
  lemma DepenetrationSeparates(s: Box, m: Box, v: Vec3)
    requires !Separated(s, m)
    ensures var r := Clip(s, m, v);
      Apart(s, Translate(m, OnAxis(r.axis, r.depenetrating[r.axis])), r.axis)
      && r.depenetrating == v[r.axis := r.depenetrating[r.axis]] && r.clipped == v
  {
    var r := Clip(s, m, v);
    var k := r.axis;
    var m' := Translate(m, OnAxis(k, r.depenetrating[k]));
    assert m'.max[k] == m.max[k] + r.depenetrating[k] && m'.min[k] == m.min[k] + r.depenetrating[k];
  }

  /** No shorter push along any axis would separate the boxes there. */
  lemma NoShorterPush(s: Box, m: Box, v: Vec3, i: Axis, p: real)
    requires !Separated(s, m) && Apart(s, Translate(m, OnAxis(i, p)), i)
    ensures Max(p, -p) >= Depth(s, m, Clip(s, m, v).axis) - TOLERANCE
  {
    var m' := Translate(m, OnAxis(i, p));
    assert m'.max[i] == m.max[i] + p && m'.min[i] == m.min[i] + p;
    assert Depth(s, m, Clip(s, m, v).axis) <= Depth(s, m, i);
  }
}
