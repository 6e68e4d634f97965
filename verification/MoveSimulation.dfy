/** The collision part of the movement simulation: three axis passes over the nearby boxes and the step path. */
module MoveSimulation {
  import opened Collision

  const STEP_HEIGHT := 0.6
  const SLIDE_OFFSET_MULTIPLIER := 0.4
  const MIN_PENETRATION_SQR := 0.000000000009999999999999999

  /** A velocity being clipped and the deepest penetration seen on each axis. */
  datatype Sweep = Sweep(vel: Vec3, pen: Vec3)

  function ClipStep(s: Box, m: Box, st: Sweep, oneWay: bool): Sweep {
    var r := Clip(s, m, st.vel);
    Sweep(if oneWay then r.clipped else r.depenetrating,
          if st.pen[r.axis] < r.penetration then st.pen[r.axis := r.penetration] else st.pen)
  }

  /** One pass over the boxes, first to last. */
  function Pass(boxes: seq<Box>, m: Box, st: Sweep, oneWay: bool): Sweep {
    if boxes == [] then st else Pass(boxes[1..], m, ClipStep(boxes[0], m, st, oneWay), oneWay)
  }

  function Reversed<T>(s: seq<T>): seq<T> { seq(|s|, i requires 0 <= i < |s| => s[|s| - 1 - i]) }

  method BBClipCollide(s: Box, m: Box, v: Vec3, oneWay: bool, pen: Vec3) returns (v': Vec3, pen': Vec3)
    ensures Sweep(v', pen') == ClipStep(s, m, Sweep(v, pen), oneWay)
  {
    var r := DoClipCollide(s, m, v);
    pen' := pen;
    if pen'[r.axis] < r.penetration {
      pen' := pen'[r.axis := r.penetration];
    }
    v' := if oneWay then r.clipped else r.depenetrating;
  }

  method PassDown(boxes: seq<Box>, m: Box, v: Vec3, oneWay: bool, pen: Vec3) returns (v': Vec3, pen': Vec3)
    ensures Sweep(v', pen') == Pass(Reversed(boxes), m, Sweep(v, pen), oneWay)
  {
    hide ClipStep;
    v', pen' := v, pen;
    var index := |boxes| - 1;
    ghost var todo := Reversed(boxes);
    while index >= 0
      invariant -1 <= index < |boxes| && todo == Reversed(boxes)[|boxes| - 1 - index..]
      invariant Pass(todo, m, Sweep(v', pen'), oneWay) == Pass(Reversed(boxes), m, Sweep(v, pen), oneWay)
    {
      v', pen' := BBClipCollide(boxes[index], m, v', oneWay, pen');
      todo := todo[1..];
      index := index - 1;
    }
  }

  /** The same first to last; the penetration is not reported. */
  method PassUp(boxes: seq<Box>, m: Box, v: Vec3, oneWay: bool) returns (v': Vec3)
    ensures v' == Pass(boxes, m, Sweep(v, ZERO), oneWay).vel
  {
    hide ClipStep;
    v' := v;
    var pen := ZERO;
    for i := 0 to |boxes|
      invariant Pass(boxes[i..], m, Sweep(v', pen), oneWay) == Pass(boxes, m, Sweep(v, ZERO), oneWay)
    {
      assert boxes[i..][1..] == boxes[i + 1..];
      v', pen := BBClipCollide(boxes[i], m, v', oneWay, pen);
    }
  }

  // ----- one pass

  ghost predicate AllSeparated(boxes: seq<Box>, m: Box) { forall s | s in boxes :: Separated(s, m) }

  /** w is the move of length u as the boxes leave it: no more than any box allows, and cut only as far as
      some box requires.  The order of the boxes does not enter. */
  ghost predicate Settled(boxes: seq<Box>, m: Box, j: Axis, u: real, w: real) {
    && PartOf(w, u) && (forall s | s in boxes :: PartOf(w, Left(s, m, j, u)))
    && (w == u || exists s :: s in boxes && w == Left(s, m, j, u))
  }

  lemma SettledOnce(boxes: seq<Box>, boxes': seq<Box>, m: Box, j: Axis, u: real, w: real, w': real)
    requires Settled(boxes, m, j, u, w) && Settled(boxes', m, j, u, w')
    requires forall s :: s in boxes <==> s in boxes'
    ensures w == w'
  {
  }

  lemma LeftOfPart(s: Box, m: Box, j: Axis, u: real, w: real)
    requires PartOf(w, u)
    ensures PartOf(Left(s, m, j, w), Left(s, m, j, u)) && PartOf(Left(s, m, j, w), w)
    ensures Left(s, m, j, w) == w || Left(s, m, j, w) == Left(s, m, j, u)
  {
  }

  lemma StepOnAxis(s: Box, m: Box, j: Axis, u: real, pen: Vec3, oneWay: bool)
    requires oneWay || Separated(s, m)
    ensures ClipStep(s, m, Sweep(OnAxis(j, u), pen), oneWay).vel == OnAxis(j, Left(s, m, j, u))
    ensures Separated(s, m) && pen[0] >= 0.0 ==> ClipStep(s, m, Sweep(OnAxis(j, u), pen), oneWay).pen == pen
  {
    if Separated(s, m) {
      ClipOnAxis(s, m, j, u);
    } else {
      assert !Blocks(s, m, j);
    }
  }

  /** A pass along one axis leaves a move along that axis, settled by the boxes. */
  lemma {:induction false} PassSettles(boxes: seq<Box>, m: Box, j: Axis, u: real, pen: Vec3, oneWay: bool)
      returns (w: real)
    requires oneWay || AllSeparated(boxes, m)
    ensures Pass(boxes, m, Sweep(OnAxis(j, u), pen), oneWay).vel == OnAxis(j, w) && Settled(boxes, m, j, u, w)
    ensures AllSeparated(boxes, m) && pen[0] >= 0.0 ==> Pass(boxes, m, Sweep(OnAxis(j, u), pen), oneWay).pen == pen
  {
    if boxes == [] {
      return u;
    }
    var s, w0 := boxes[0], Left(boxes[0], m, j, u);
    StepOnAxis(s, m, j, u, pen, oneWay);
    LeftOfPart(s, m, j, u, u);
    var st := ClipStep(s, m, Sweep(OnAxis(j, u), pen), oneWay);
    w := PassSettles(boxes[1..], m, j, w0, st.pen, oneWay);
    forall b | b in boxes
      ensures PartOf(w, Left(b, m, j, u))
    {
      if b in boxes[1..] { LeftOfPart(b, m, j, u, w0); }
    }
    if w != w0 {
      var b :| b in boxes[1..] && w == Left(b, m, j, w0);
      LeftOfPart(b, m, j, u, w0);
    }
  }

  /** No box is overlapped at any point of the move. */
  ghost predicate SafeMove(boxes: seq<Box>, m: Box, j: Axis, w: real) {
    forall p | PartOf(p, w) :: AllSeparated(boxes, Translate(m, OnAxis(j, p)))
  }

  lemma FractionIsSafe(boxes: seq<Box>, m: Box, j: Axis, w: real, t: real)
    requires SafeMove(boxes, m, j, w) && 0.0 <= t <= 1.0
    ensures AllSeparated(boxes, Translate(m, OnAxis(j, t * w)))
  {
    assert PartOf(t * w, w);
  }

  lemma SettledIsSafe(boxes: seq<Box>, m: Box, j: Axis, u: real, w: real)
    requires AllSeparated(boxes, m) && Settled(boxes, m, j, u, w)
    ensures SafeMove(boxes, m, j, w) && AllSeparated(boxes, Translate(m, OnAxis(j, w)))
  {
    forall p, s | PartOf(p, w) && s in boxes
      ensures Separated(s, Translate(m, OnAxis(j, p)))
    {
      LeftIsSafe(s, m, j, u, p);
    }
  }

  // ----- the three passes and the step path

  /** Velocities of the passes in order, and where the box ends. */
  datatype Slide = Slide(y: Vec3, x: Vec3, z: Vec3, end: Box, pen: Vec3) {
    function Velocity(): Vec3 { Add(Add(y, x), z) }
  }

  /** Y, then X, then Z. */
  function SlideOf(boxes: seq<Box>, box: Box, vel: Vec3, vy: real, oneWay: bool): Slide {
    var y := Pass(boxes, box, Sweep(OnAxis(1, vy), ZERO), oneWay);
    var box1 := Translate(box, y.vel);
    var x := Pass(boxes, box1, Sweep(OnAxis(0, vel[0]), y.pen), oneWay);
    var box2 := Translate(box1, x.vel);
    var z := Pass(boxes, box2, Sweep(OnAxis(2, vel[2]), x.pen), oneWay);
    Slide(y.vel, x.vel, z.vel, Translate(box2, z.vel), z.pen)
  }

  /** Up by the step height, across, and down again. */
  function StepOf(boxes: seq<Box>, box: Box, vel: Vec3, oneWay: bool): Slide {
    var up := Pass(boxes, box, Sweep(OnAxis(1, STEP_HEIGHT), ZERO), oneWay).vel;
    var box1 := Translate(box, up);
    var x := Pass(boxes, box1, Sweep(OnAxis(0, vel[0]), ZERO), oneWay).vel;
    var box2 := Translate(box1, x);
    var z := Pass(boxes, box2, Sweep(OnAxis(2, vel[2]), ZERO), oneWay).vel;
    var box3 := Translate(box2, z);
    var down := Pass(boxes, box3, Sweep(Negated(up), ZERO), oneWay).vel;
    Slide(Add(up, down), x, z, Translate(box3, down), ZERO)
  }

  /** A player that starts clear of every box keeps clear of every box during each of the three moves.  Each
      move keeps its direction, is no longer than asked for, and nothing is recorded as penetrated. */
  lemma SlideIsSafe(boxes: seq<Box>, box: Box, vel: Vec3, vy: real, oneWay: bool)
    requires AllSeparated(boxes, box)
    ensures var o := SlideOf(boxes, box, vel, vy, oneWay);
      var box1 := Translate(box, o.y);
      var box2 := Translate(box1, o.x);
      && o.y == OnAxis(1, o.y[1]) && PartOf(o.y[1], vy) && SafeMove(boxes, box, 1, o.y[1])
      && o.x == OnAxis(0, o.x[0]) && PartOf(o.x[0], vel[0]) && SafeMove(boxes, box1, 0, o.x[0])
      && o.z == OnAxis(2, o.z[2]) && PartOf(o.z[2], vel[2]) && SafeMove(boxes, box2, 2, o.z[2])
      && AllSeparated(boxes, o.end) && o.pen == ZERO
  {
    hide Pass, Settled, AllSeparated, SafeMove, Translate;
    var wy := PassSettles(boxes, box, 1, vy, ZERO, oneWay);
    SettledPart(boxes, box, 1, vy, wy);
    var box1 := Translate(box, OnAxis(1, wy));
    var wx := PassSettles(boxes, box1, 0, vel[0], ZERO, oneWay);
    SettledPart(boxes, box1, 0, vel[0], wx);
    var box2 := Translate(box1, OnAxis(0, wx));
    var wz := PassSettles(boxes, box2, 2, vel[2], ZERO, oneWay);
    SettledPart(boxes, box2, 2, vel[2], wz);
  }

  lemma SettledPart(boxes: seq<Box>, m: Box, j: Axis, u: real, w: real)
    requires AllSeparated(boxes, m) && Settled(boxes, m, j, u, w)
    ensures PartOf(w, u) && SafeMove(boxes, m, j, w) && AllSeparated(boxes, Translate(m, OnAxis(j, w)))
  {
    SettledIsSafe(boxes, m, j, u, w);
  }

  /** The step path is as safe, and its net height is between zero and the step height. */
  lemma StepIsSafe(boxes: seq<Box>, box: Box, vel: Vec3, oneWay: bool) returns (up: real, down: real)
    requires AllSeparated(boxes, box)
    ensures var o := StepOf(boxes, box, vel, oneWay);
      var box1 := Translate(box, OnAxis(1, up));
      var box2 := Translate(box1, o.x);
      var box3 := Translate(box2, o.z);
      && PartOf(up, STEP_HEIGHT) && PartOf(down, -up) && o.y == OnAxis(1, up + down) && 0.0 <= o.y[1] <= STEP_HEIGHT
      && o.x == OnAxis(0, o.x[0]) && PartOf(o.x[0], vel[0])
      && o.z == OnAxis(2, o.z[2]) && PartOf(o.z[2], vel[2])
      && SafeMove(boxes, box, 1, up) && SafeMove(boxes, box1, 0, o.x[0]) && SafeMove(boxes, box2, 2, o.z[2])
      && SafeMove(boxes, box3, 1, down) && AllSeparated(boxes, o.end)
  {
    hide Pass, Settled, AllSeparated, SafeMove, Translate;
    up := PassSettles(boxes, box, 1, STEP_HEIGHT, ZERO, oneWay);
    SettledPart(boxes, box, 1, STEP_HEIGHT, up);
    var box1 := Translate(box, OnAxis(1, up));
    var wx := PassSettles(boxes, box1, 0, vel[0], ZERO, oneWay);
    SettledPart(boxes, box1, 0, vel[0], wx);
    var box2 := Translate(box1, OnAxis(0, wx));
    var wz := PassSettles(boxes, box2, 2, vel[2], ZERO, oneWay);
    SettledPart(boxes, box2, 2, vel[2], wz);
    var box3 := Translate(box2, OnAxis(2, wz));
    assert Negated(OnAxis(1, up)) == OnAxis(1, -up);
    down := PassSettles(boxes, box3, 1, -up, ZERO, oneWay);
    SettledPart(boxes, box3, 1, -up, down);
    assert Add(OnAxis(1, up), OnAxis(1, down)) == OnAxis(1, up + down);
  }

  ghost predicate SameBoxes(a: seq<Box>, b: seq<Box>) { forall s :: s in a <==> s in b }

  lemma PassIgnoresOrder(a: seq<Box>, b: seq<Box>, m: Box, j: Axis, u: real, oneWay: bool)
    requires SameBoxes(a, b) && (oneWay || AllSeparated(a, m))
    ensures Pass(a, m, Sweep(OnAxis(j, u), ZERO), oneWay).vel == Pass(b, m, Sweep(OnAxis(j, u), ZERO), oneWay).vel
  {
    var wa := PassSettles(a, m, j, u, ZERO, oneWay);
    var wb := PassSettles(b, m, j, u, ZERO, oneWay);
    SettledOnce(a, b, m, j, u, wa, wb);
  }

  /** For a player that starts clear, the order in which nearby boxes are listed does not matter. */
  lemma SlideIgnoresOrder(a: seq<Box>, b: seq<Box>, box: Box, vel: Vec3, vy: real, oneWay: bool)
    requires SameBoxes(a, b) && AllSeparated(a, box)
    ensures SlideOf(a, box, vel, vy, oneWay) == SlideOf(b, box, vel, vy, oneWay)
  {
    SlideIsSafe(a, box, vel, vy, oneWay);
    SlideIsSafe(b, box, vel, vy, oneWay);
    var o := SlideOf(a, box, vel, vy, oneWay);
    PassIgnoresOrder(a, b, box, 1, vy, oneWay);
    var wy := PassSettles(a, box, 1, vy, ZERO, oneWay);
    var box1 := Translate(box, o.y);
    SettledPart(a, box, 1, vy, wy);
    PassIgnoresOrder(a, b, box1, 0, vel[0], oneWay);
    var wx := PassSettles(a, box1, 0, vel[0], ZERO, oneWay);
    SettledPart(a, box1, 0, vel[0], wx);
    PassIgnoresOrder(a, b, Translate(box1, o.x), 2, vel[2], oneWay);
    var wy' := PassSettles(b, box, 1, vy, ZERO, oneWay);
    var wx' := PassSettles(b, box1, 0, vel[0], ZERO, oneWay);
  }

  lemma StepIgnoresOrder(a: seq<Box>, b: seq<Box>, box: Box, vel: Vec3, oneWay: bool)
    requires SameBoxes(a, b) && AllSeparated(a, box)
    ensures StepOf(a, box, vel, oneWay) == StepOf(b, box, vel, oneWay)
  {
    hide Pass, Settled, AllSeparated, SafeMove, Translate;
    var o := StepOf(a, box, vel, oneWay);
    PassIgnoresOrder(a, b, box, 1, STEP_HEIGHT, oneWay);
    var up := PassSettles(a, box, 1, STEP_HEIGHT, ZERO, oneWay);
    SettledPart(a, box, 1, STEP_HEIGHT, up);
    var box1 := Translate(box, OnAxis(1, up));
    PassIgnoresOrder(a, b, box1, 0, vel[0], oneWay);
    var wx := PassSettles(a, box1, 0, vel[0], ZERO, oneWay);
    SettledPart(a, box1, 0, vel[0], wx);
    var box2 := Translate(box1, OnAxis(0, wx));
    PassIgnoresOrder(a, b, box2, 2, vel[2], oneWay);
    var wz := PassSettles(a, box2, 2, vel[2], ZERO, oneWay);
    SettledPart(a, box2, 2, vel[2], wz);
    assert Negated(OnAxis(1, up)) == OnAxis(1, -up);
    PassIgnoresOrder(a, b, Translate(box2, OnAxis(2, wz)), 1, -up, oneWay);
  }

  lemma ReversedSame(boxes: seq<Box>)
    ensures SameBoxes(boxes, Reversed(boxes))
  {
    forall s
      ensures s in boxes <==> s in Reversed(boxes)
    {
      if s in boxes {
        var i :| 0 <= i < |boxes| && boxes[i] == s;
        assert Reversed(boxes)[|boxes| - 1 - i] == s;
      }
    }
  }

  // ----- the movement of one tick

  function Foot(b: Box): Vec3 { [(b.min[0] + b.max[0]) * 0.5, b.min[1], (b.min[2] + b.max[2]) * 0.5] }

  function HorizontalSqr(v: Vec3): real { v[0] * v[0] + v[2] * v[2] }

  function LengthSqr(v: Vec3): real { v[0] * v[0] + v[1] * v[1] + v[2] * v[2] }

  function DistanceSqr(a: Vec3, b: Vec3): real { LengthSqr(Add(a, Negated(b))) }

  /** Distance above a threshold, without the square root. */
  predicate FartherThan(a: Vec3, b: Vec3, threshold: real) {
    threshold < 0.0 || DistanceSqr(a, b) > threshold * threshold
  }

  /** What the collision code reads besides the boxes. */
  datatype Input = Input(
    box: Box, vel: Vec3, oneWay: bool, onGround: bool, jumpPrevented: bool, clientPos: Vec3, threshold: real)

  datatype Decision = Decision(vel: Vec3, box: Box, stepped: bool)

  function PlainSlide(boxes: seq<Box>, i: Input): Slide {
    SlideOf(Reversed(boxes), i.box, i.vel, if i.jumpPrevented then 0.0 else i.vel[1], i.oneWay)
  }

  /** A step is tried on the ground or when landing, and only if something stopped the player sideways. */
  predicate MayStep(i: Input, v: Vec3) {
    && (i.onGround || ((i.vel[1] != v[1] || i.jumpPrevented) && i.vel[1] < 0.0))
    && (i.vel[0] != v[0] || i.vel[2] != v[2])
  }

  /** The step is taken when it ends in free space, gets further, and does not lead away from the client. */
  predicate StepAccepted(i: Input, slide: Slide, step: Slide, stepBlocked: bool) {
    && !stepBlocked && HorizontalSqr(slide.Velocity()) < HorizontalSqr(step.Velocity())
    && (FartherThan(Foot(slide.end), i.clientPos, i.threshold)
        || DistanceSqr(Foot(step.end), i.clientPos) <= DistanceSqr(Foot(slide.end), i.clientPos))
  }

  function Decide(boxes: seq<Box>, i: Input, stepBlocked: bool): Decision {
    var slide, step := PlainSlide(boxes, i), StepOf(boxes, i.box, i.vel, i.oneWay);
    if MayStep(i, slide.Velocity()) && StepAccepted(i, slide, step, stepBlocked) then
      Decision(step.Velocity(), step.end, true)
    else Decision(slide.Velocity(), slide.end, false)
  }

  lemma SeparatedIgnoresOrder(a: seq<Box>, b: seq<Box>, m: Box)
    requires SameBoxes(a, b)
    ensures AllSeparated(a, m) == AllSeparated(b, m)
  {
  }

  lemma EndOfSlide(boxes: seq<Box>, i: Input)
    ensures var o := PlainSlide(boxes, i); o.end == Translate(i.box, o.Velocity())
    ensures var o := StepOf(boxes, i.box, i.vel, i.oneWay); o.end == Translate(i.box, o.Velocity())
  {
    hide Pass;
  }

  /** The movement of a tick for a player that starts clear: it ends clear of every box, moves by exactly its
      final velocity, and goes sideways no further than asked for.  A plain slide keeps the vertical direction
      too; a step rises between zero and the step height, gets further than sliding, and needs a player on the
      ground or landing that was stopped sideways. */
  lemma DecisionIsSafe(boxes: seq<Box>, i: Input, stepBlocked: bool)
    requires AllSeparated(boxes, i.box)
    ensures var d := Decide(boxes, i, stepBlocked);
      && AllSeparated(boxes, d.box) && d.box == Translate(i.box, d.vel)
      && PartOf(d.vel[0], i.vel[0]) && PartOf(d.vel[2], i.vel[2])
      && (if d.stepped then 0.0 <= d.vel[1] <= STEP_HEIGHT
            && StepAccepted(i, PlainSlide(boxes, i), StepOf(boxes, i.box, i.vel, i.oneWay), stepBlocked)
            && (i.onGround || i.vel[1] < 0.0)
          else PartOf(d.vel[1], if i.jumpPrevented then 0.0 else i.vel[1]))
      && PlainSlide(boxes, i).pen == ZERO
  {
    hide Pass, SafeMove, AllSeparated, SlideOf, StepOf, StepAccepted, Translate, HorizontalSqr;
    ReversedSame(boxes);
    SeparatedIgnoresOrder(boxes, Reversed(boxes), i.box);
    SlideIsSafe(Reversed(boxes), i.box, i.vel, if i.jumpPrevented then 0.0 else i.vel[1], i.oneWay);
    var up, down := StepIsSafe(boxes, i.box, i.vel, i.oneWay);
    EndOfSlide(boxes, i);
    SeparatedIgnoresOrder(boxes, Reversed(boxes), PlainSlide(boxes, i).end);
  }

  lemma DecisionIgnoresOrder(a: seq<Box>, b: seq<Box>, i: Input, stepBlocked: bool)
    requires SameBoxes(a, b) && AllSeparated(a, i.box)
    ensures Decide(a, i, stepBlocked) == Decide(b, i, stepBlocked)
  {
    hide Pass, AllSeparated;
    ReversedSame(a);
    ReversedSame(b);
    SeparatedIgnoresOrder(a, Reversed(a), i.box);
    SlideIgnoresOrder(Reversed(a), Reversed(b), i.box, i.vel, if i.jumpPrevented then 0.0 else i.vel[1], i.oneWay);
    StepIgnoresOrder(a, b, i.box, i.vel, i.oneWay);
  }

  method AxisPasses(boxes: seq<Box>, box: Box, vel: Vec3, vy: real, oneWay: bool) returns (r: Slide)
    ensures r == SlideOf(Reversed(boxes), box, vel, vy, oneWay)
  {
    hide Pass;
    var y, pen := PassDown(boxes, box, OnAxis(1, vy), oneWay, ZERO);
    var moved := Translate(box, y);
    var x, z;
    x, pen := PassDown(boxes, moved, OnAxis(0, vel[0]), oneWay, pen);
    moved := Translate(moved, x);
    z, pen := PassDown(boxes, moved, OnAxis(2, vel[2]), oneWay, pen);
    r := Slide(y, x, z, Translate(moved, z), pen);
  }

  method StepPasses(boxes: seq<Box>, box: Box, vel: Vec3, oneWay: bool) returns (r: Slide)
    ensures r == StepOf(boxes, box, vel, oneWay)
  {
    hide Pass;
    var up := PassUp(boxes, box, OnAxis(1, STEP_HEIGHT), oneWay);
    var moved := Translate(box, up);
    var x := PassUp(boxes, moved, OnAxis(0, vel[0]), oneWay);
    moved := Translate(moved, x);
    var z := PassUp(boxes, moved, OnAxis(2, vel[2]), oneWay);
    moved := Translate(moved, z);
    var down := PassUp(boxes, moved, Negated(up), oneWay);
    r := Slide(Add(up, down), x, z, Translate(moved, down), ZERO);
  }

  // ----- a jump that the client holds back

  /** X, then Z, then Y. */
  function LateRise(boxes: seq<Box>, box: Box, vel: Vec3): Slide {
    var x := Pass(boxes, box, Sweep(OnAxis(0, vel[0]), ZERO), false);
    var box1 := Translate(box, x.vel);
    var z := Pass(boxes, box1, Sweep(OnAxis(2, vel[2]), x.pen), false);
    var box2 := Translate(box1, z.vel);
    var y := Pass(boxes, box2, Sweep(OnAxis(1, vel[1]), z.pen), false);
    Slide(y.vel, x.vel, z.vel, Translate(box2, y.vel), y.pen)
  }

  /** Rising first, something is in the way sideways but not above; moving sideways first, only above. */
  predicate JumpBlocked(boxes: seq<Box>, box: Box, vel: Vec3) {
    var first, last := SlideOf(boxes, box, vel, vel[1], false), LateRise(boxes, box, vel);
    && (first.x[0] != vel[0] || first.z[2] != vel[2]) && first.y[1] == vel[1]
    && last.y[1] != vel[1] && last.x[0] == vel[0] && last.z[2] == vel[2]
  }

  method IsJumpBlocked(boxes: seq<Box>, box: Box, jumpVel: Vec3) returns (blocked: bool)
    ensures blocked == JumpBlocked(Reversed(boxes), box, jumpVel)
  {
    hide Pass;
    var first := AxisPasses(boxes, box, jumpVel, jumpVel[1], false);
    if !((first.x[0] != jumpVel[0] || first.z[2] != jumpVel[2]) && first.y[1] == jumpVel[1]) { return false; }
    var x, pen := PassDown(boxes, box, OnAxis(0, jumpVel[0]), false, ZERO);
    var moved := Translate(box, x);
    var z, y;
    z, pen := PassDown(boxes, moved, OnAxis(2, jumpVel[2]), false, pen);
    moved := Translate(moved, z);
    y, pen := PassDown(boxes, moved, OnAxis(1, jumpVel[1]), false, pen);
    blocked := y[1] != jumpVel[1] && x[0] == jumpVel[0] && z[2] == jumpVel[2];
  }

  /** For a player that starts clear, a blocked jump is one under an overhang: straight up the way is free, and so
      is the whole way across, but from there some box cuts the rise. */
  lemma BlockedJumpIsUnderOverhang(boxes: seq<Box>, box: Box, vel: Vec3) returns (rise: real)
    requires AllSeparated(boxes, box) && JumpBlocked(boxes, box, vel)
    ensures var across := Translate(Translate(box, OnAxis(0, vel[0])), OnAxis(2, vel[2]));
      && SafeMove(boxes, box, 1, vel[1])
      && SafeMove(boxes, box, 0, vel[0]) && SafeMove(boxes, Translate(box, OnAxis(0, vel[0])), 2, vel[2])
      && PartOf(rise, vel[1]) && rise != vel[1] && SafeMove(boxes, across, 1, rise)
      && exists s :: s in boxes && rise == Left(s, across, 1, vel[1])
  {
    hide Pass, AllSeparated, SafeMove, Translate;
    SlideIsSafe(boxes, box, vel, vel[1], false);
    var wx := PassSettles(boxes, box, 0, vel[0], ZERO, false);
    SettledPart(boxes, box, 0, vel[0], wx);
    var box1 := Translate(box, OnAxis(0, wx));
    var wz := PassSettles(boxes, box1, 2, vel[2], ZERO, false);
    SettledPart(boxes, box1, 2, vel[2], wz);
    var box2 := Translate(box1, OnAxis(2, wz));
    rise := PassSettles(boxes, box2, 1, vel[1], ZERO, false);
    SettledPart(boxes, box2, 1, vel[1], rise);
  }

  function Abs(a: real): real { if a < 0.0 then -a else a }

  /** The slide offset of older clients: scaled and raised by a step, otherwise cleared. */
  function NewOffset(offset: (real, real), useSlideOffset: bool, d: Decision): (real, real) {
    if !useSlideOffset then offset
    else if d.stepped then (offset.0 * SLIDE_OFFSET_MULTIPLIER, offset.1 * SLIDE_OFFSET_MULTIPLIER + d.vel[1])
    else (0.0, 0.0)
  }

  datatype Motion = Motion(
    pos: Vec3, lastPos: Vec3, vel: Vec3, slideOffset: (real, real), onGround: bool,
    collideX: bool, collideY: bool, collideZ: bool, stuckInCollider: bool, penetratedLastFrame: bool)

  const CHANGED := 0.00001

  /** The centre of the bottom of the final box, less the slide offset after a step of an older client. */
  function EndPos(d: Decision, useSlideOffset: bool, offset: (real, real)): Vec3 {
    if useSlideOffset && d.stepped then Add(Foot(d.box), OnAxis(1, -offset.1)) else Foot(d.box)
  }

  predicate Changed(before: real, after: real) { Abs(before - after) >= CHANGED }

  /** On the ground after a fall was stopped, or still there without vertical speed. */
  predicate Grounded(wasOnGround: bool, fallen: real, stopped: bool) {
    (stopped && fallen < 0.0) || (wasOnGround && !stopped && Abs(fallen) <= CHANGED)
  }

  /** The state of the movement component after a move has been chosen. */
  function Moved(m: Motion, d: Decision, penetrated: bool, useSlideOffset: bool): Motion {
    var offset := NewOffset(m.slideOffset, useSlideOffset, d);
    Motion(EndPos(d, useSlideOffset, offset), m.pos, d.vel, offset,
      Grounded(m.onGround, m.vel[1], Changed(m.vel[1], d.vel[1])),
           Changed(m.vel[0], d.vel[0]), Changed(m.vel[1], d.vel[1]), Changed(m.vel[2], d.vel[2]),
           m.penetratedLastFrame && penetrated, penetrated)
  }

  predicate Penetrated(pen: Vec3) { LengthSqr(pen) >= MIN_PENETRATION_SQR }

  /** A player that starts clear of every box is moved by exactly its final velocity, without the slide offset
      of older clients, and is not held to be stuck. */
  lemma MovesByItsVelocity(m: Motion, boxes: seq<Box>, i: Input, stepBlocked: bool)
    requires AllSeparated(boxes, i.box) && Foot(i.box) == m.pos
    ensures var m' := Moved(m, Decide(boxes, i, stepBlocked), Penetrated(PlainSlide(boxes, i).pen), false);
      m'.pos == Add(m.pos, m'.vel) && m'.lastPos == m.pos && !m'.stuckInCollider && !m'.penetratedLastFrame
  {
    hide Decide, PlainSlide, AllSeparated, Pass;
    DecisionIsSafe(boxes, i, stepBlocked);
    var d := Decide(boxes, i, stepBlocked);
    assert Foot(Translate(i.box, d.vel)) == Add(Foot(i.box), d.vel);
  }

  class MovementComponent {
    var pos: Vec3
    var lastPos: Vec3
    var vel: Vec3
    var slideOffset: (real, real)
    var onGround: bool
    var collideX: bool
    var collideY: bool
    var collideZ: bool
    var stuckInCollider: bool
    var penetratedLastFrame: bool

    constructor ()
      ensures pos == lastPos == vel == ZERO && slideOffset == (0.0, 0.0)
      ensures !onGround && !collideX && !collideY && !collideZ && !stuckInCollider && !penetratedLastFrame
    {
      pos, lastPos, vel, slideOffset := ZERO, ZERO, ZERO, (0.0, 0.0);
      onGround, collideX, collideY, collideZ, stuckInCollider, penetratedLastFrame :=
        false, false, false, false, false, false;
    }

    ghost function Model(): Motion reads this {
      Motion(pos, lastPos, vel, slideOffset, onGround, collideX, collideY, collideZ, stuckInCollider,
             penetratedLastFrame)
    }

    ghost function InputOf(box: Box, jumpPrevented: bool, clientPos: Vec3, threshold: real): Input
      reads this
    {
      Input(box, vel, stuckInCollider, onGround, jumpPrevented, clientPos, threshold)
    }

    /** Slides, and steps up where that is possible and better. */
    method ChooseMove(i: Input, boxes: seq<Box>, stepBlocked: bool) returns (d: Decision, penetrated: bool)
      ensures d == Decide(boxes, i, stepBlocked)
      ensures penetrated == Penetrated(PlainSlide(boxes, i).pen)
    {
      hide SlideOf, StepOf, Foot, Penetrated, HorizontalSqr, DistanceSqr, FartherThan;
      var slide := AxisPasses(boxes, i.box, i.vel, if i.jumpPrevented then 0.0 else i.vel[1], i.oneWay);
      var collisionVel, collisionPos := slide.Velocity(), Foot(slide.end);
      d := Decision(collisionVel, slide.end, false);
      penetrated := Penetrated(slide.pen);
      var xCollision, zCollision := i.vel[0] != collisionVel[0], i.vel[2] != collisionVel[2];
      var yCollision := i.vel[1] != collisionVel[1] || i.jumpPrevented;
      if (i.onGround || (yCollision && i.vel[1] < 0.0)) && (xCollision || zCollision) {
        var step := StepPasses(boxes, i.box, i.vel, i.oneWay);
        if !stepBlocked && HorizontalSqr(collisionVel) < HorizontalSqr(step.Velocity()) {
          if FartherThan(collisionPos, i.clientPos, i.threshold)
             || DistanceSqr(Foot(step.end), i.clientPos) <= DistanceSqr(collisionPos, i.clientPos) {
            d := Decision(step.Velocity(), step.end, true);
          }
        }
      }
    }

    /** Writes the chosen move into the component. */
    method Commit(d: Decision, hasPenetration: bool, useSlideOffset: bool)
      modifies this
      ensures Model() == Moved(old(Model()), d, hasPenetration, useSlideOffset)
    {
      hide EndPos, Changed, Grounded, NewOffset;
      var currVel := vel;
      stuckInCollider := penetratedLastFrame && hasPenetration;
      penetratedLastFrame := hasPenetration;
      slideOffset := NewOffset(slideOffset, useSlideOffset, d);
      lastPos, pos := pos, EndPos(d, useSlideOffset, slideOffset);
      collideX := Changed(currVel[0], d.vel[0]);
      collideY := Changed(currVel[1], d.vel[1]);
      collideZ := Changed(currVel[2], d.vel[2]);
      onGround := Grounded(onGround, currVel[1], collideY);
      vel := d.vel;
    }

    /** `boxes` are the collision boxes near the move; `stepBlocked` tells whether the box meets a block where
        the step path ends. */
    method TryCollisions(box: Box, boxes: seq<Box>, stepBlocked: bool, clientPos: Vec3, threshold: real,
                         useSlideOffset: bool, jumpPrevented: bool)
      modifies this
      ensures var i := old(InputOf(box, jumpPrevented, clientPos, threshold));
        Model() == Moved(old(Model()), Decide(boxes, i, stepBlocked), Penetrated(PlainSlide(boxes, i).pen),
          useSlideOffset)
    {
      hide Decide, PlainSlide, Moved, Penetrated;
      var d, hasPenetration := ChooseMove(
        Input(box, vel, stuckInCollider, onGround, jumpPrevented, clientPos, threshold), boxes, stepBlocked);
      Commit(d, hasPenetration, useSlideOffset);
    }
  }
}
