/** What the movement of a tick does, in terms of coordinates: when a box stops a move, when a player steps, lands, is
    stuck or may not jump, and where its box is in the next tick. */
module MoveEffects {
  import opened Collision
  import opened MoveSimulation

  // ----- one box

  /** Two boxes share more than the tolerance of an axis. */
  predicate Overlap(s: Box, m: Box, k: Axis) {
    m.max[k] - s.min[k] > 0.0000001 && s.max[k] - m.min[k] > 0.0000001
  }

  lemma OverlapIsNotApart(s: Box, m: Box, k: Axis)
    requires Overlap(s, m, k)
    ensures !Apart(s, m, k)
  {
  }

  /** A box in the way along the only axis that separates it stops a move where they touch; a shorter move, and one
      away from it, is not stopped. */
  lemma StopsAtContact(s: Box, m: Box, j: Axis, u: real)
    requires s.min != s.max && (forall k: Axis | k != j :: Overlap(s, m, k)) && m.min[j] < m.max[j]
    ensures s.min[j] - m.max[j] > 0.0000001 ==>
              Left(s, m, j, u) == if u > s.min[j] - m.max[j] then s.min[j] - m.max[j] else u
    ensures m.min[j] - s.max[j] > 0.0000001 && s.min[j] < s.max[j] ==>
              Left(s, m, j, u) == if u < s.max[j] - m.min[j] then s.max[j] - m.min[j] else u
  {
    forall k: Axis | k != j
      ensures !Apart(s, m, k)
    {
      OverlapIsNotApart(s, m, k);
    }
    BlocksAlone(s, m, j);
  }

  /** Only the axis of the move separates the boxes. */
  lemma BlocksAlone(s: Box, m: Box, j: Axis)
    requires forall k: Axis | k != j :: !Apart(s, m, k)
    ensures Blocks(s, m, j) == (s.min != s.max && Apart(s, m, j))
  {
    hide Apart;
    var a: Axis, b: Axis := if j == 0 then 1 else 0, if j == 2 then 1 else 2;
    assert !Apart(s, m, a) && !Apart(s, m, b);
  }

  /** A box that is apart on another axis, and one that is a single point, stops nothing. */
  lemma NotInTheWay(s: Box, m: Box, j: Axis, k: Axis, u: real)
    requires s.min == s.max || (k != j && (m.max[k] <= s.min[k] || s.max[k] <= m.min[k]))
    ensures Separated(s, m) && Left(s, m, j, u) == u
  {
  }

  /** The penetration that one box reports does not depend on the velocity: the depth on the shallowest axis of an
      overlap, and nothing for boxes that are separated.  A box at rest is pushed by just as much. */
  lemma ReportedDepth(s: Box, m: Box, v: Vec3)
    ensures var r := Clip(s, m, v);
      && r.axis == Clip(s, m, ZERO).axis && r.penetration == Clip(s, m, ZERO).penetration
      && (Separated(s, m) ==> r.axis == 0 && r.penetration == 0.0)
      && (!Separated(s, m) ==>
            && (forall k: Axis :: Depth(s, m, r.axis) <= Depth(s, m, k))
            && r.penetration == Min(MAX_FLOAT32 - 1.0, Depth(s, m, r.axis))
            && Max(Clip(s, m, ZERO).depenetrating[r.axis], -Clip(s, m, ZERO).depenetrating[r.axis])
               == Depth(s, m, r.axis))
  {
  }

  /** The depth of an overlap beyond the tolerance is the way to the nearer side. */
  lemma DepthIs(s: Box, m: Box, k: Axis)
    requires Overlap(s, m, k)
    ensures Depth(s, m, k) == Min(m.max[k] - s.min[k], s.max[k] - m.min[k])
  {
  }

  /** A player that is not stuck is pushed out of a box it overlaps; a stuck one passes through. */
  lemma PushedUnlessStuck(s: Box, m: Box, st: Sweep, oneWay: bool)
    requires !Separated(s, m)
    ensures var v, k := ClipStep(s, m, st, oneWay).vel, Clip(s, m, st.vel).axis;
      && (oneWay ==> v == st.vel)
      && (!oneWay ==> Apart(s, Translate(m, OnAxis(k, v[k])), k) && v == st.vel[k := v[k]])
  {
    DepenetrationSeparates(s, m, st.vel);
  }

  // ----- the deepest penetration

  predicate Reports(s: Box, m: Box, k: Axis, depth: real) {
    Clip(s, m, ZERO).axis == k && Clip(s, m, ZERO).penetration == depth
  }

  /** A pass keeps the deepest penetration per axis: what was recorded before, or what some box reports. */
  lemma {:induction false} PassKeepsDeepest(boxes: seq<Box>, m: Box, st: Sweep, oneWay: bool, k: Axis)
    ensures var p := Pass(boxes, m, st, oneWay).pen[k];
      && st.pen[k] <= p
      && (forall s, depth | s in boxes && Reports(s, m, k, depth) :: depth <= p)
      && (p == st.pen[k] || exists s :: s in boxes && Reports(s, m, k, p))
  {
    hide Clip, ClipStep;
    if boxes != [] {
      var after := ClipStep(boxes[0], m, st, oneWay);
      OneReport(boxes[0], m, st, oneWay, k);
      PassKeepsDeepest(boxes[1..], m, after, oneWay, k);
      var p := Pass(boxes, m, st, oneWay).pen[k];
      forall s, depth | s in boxes && Reports(s, m, k, depth)
        ensures depth <= p
      {
        if s != boxes[0] { assert s in boxes[1..]; }
      }
      if p != after.pen[k] {
        var s :| s in boxes[1..] && Reports(s, m, k, p);
        assert s in boxes;
      } else if p != st.pen[k] {
        assert Reports(boxes[0], m, k, p);
      }
    }
  }

  lemma OneReport(s: Box, m: Box, st: Sweep, oneWay: bool, k: Axis)
    ensures var p := ClipStep(s, m, st, oneWay).pen[k];
      && st.pen[k] <= p && (forall depth | Reports(s, m, k, depth) :: depth <= p)
      && (p == st.pen[k] || Reports(s, m, k, p))
  {
    hide Clip;
    ReportedDepth(s, m, st.vel);
  }

  /** A player deep inside a box is found to penetrate it, however it moves. */
  lemma OverlapIsReported(boxes: seq<Box>, i: Input, s: Box, depth: real)
    requires s in boxes && !Separated(s, i.box) && 0.00001 <= depth <= 1.0
    requires forall k: Axis ::
               Overlap(s, i.box, k) && Min(i.box.max[k] - s.min[k], s.max[k] - i.box.min[k]) >= depth
    ensures Penetrated(PlainSlide(boxes, i).pen)
  {
    hide Clip, Pass, Depth, Penetrated;
    ReversedSame(boxes);
    var rev := Reversed(boxes);
    var k := Clip(s, i.box, ZERO).axis;
    ReportedDepth(s, i.box, ZERO);
    DepthIs(s, i.box, k);
    var reported := Clip(s, i.box, ZERO).penetration;
    assert Reports(s, i.box, k, reported);
    var y := Pass(rev, i.box, Sweep(OnAxis(1, if i.jumpPrevented then 0.0 else i.vel[1]), ZERO), i.oneWay);
    PassKeepsDeepest(rev, i.box, Sweep(OnAxis(1, if i.jumpPrevented then 0.0 else i.vel[1]), ZERO), i.oneWay, k);
    var box1 := Translate(i.box, y.vel);
    var x := Pass(rev, box1, Sweep(OnAxis(0, i.vel[0]), y.pen), i.oneWay);
    PassKeepsDeepest(rev, box1, Sweep(OnAxis(0, i.vel[0]), y.pen), i.oneWay, k);
    var box2 := Translate(box1, x.vel);
    PassKeepsDeepest(rev, box2, Sweep(OnAxis(2, i.vel[2]), x.pen), i.oneWay, k);
    DeepIsPenetrated(PlainSlide(boxes, i).pen, k, depth);
  }

  lemma DeepIsPenetrated(pen: Vec3, k: Axis, depth: real)
    requires pen[k] >= depth >= 0.00001
    ensures Penetrated(pen)
  {
    assert depth * depth >= 0.00001 * 0.00001;
    assert pen[k] * pen[k] >= depth * depth;
    assert pen[0] * pen[0] >= 0.0 && pen[1] * pen[1] >= 0.0 && pen[2] * pen[2] >= 0.0;
  }

  /** A player is stuck after two ticks in a row in which it penetrated something. */
  lemma StuckTakesTwoTicks(m: Motion, d: Decision, e: Decision, p: bool, q: bool, old1: bool, old2: bool)
    ensures var last := Moved(Moved(m, d, p, old1), e, q, old2);
      last.stuckInCollider == (p && q) && last.penetratedLastFrame == q
  {
  }

  // ----- sliding or stepping

  /** For a player on the ground that was stopped sideways, with the end of the step free and the client no farther
      from it than from the end of the slide: it steps exactly when that takes it farther. */
  lemma StepsWhenFarther(boxes: seq<Box>, i: Input, stepBlocked: bool)
    requires var v := PlainSlide(boxes, i).Velocity();
      i.onGround && (v[0] != i.vel[0] || v[2] != i.vel[2]) && !stepBlocked
    requires var slide, step := Foot(PlainSlide(boxes, i).end), Foot(StepOf(boxes, i.box, i.vel, i.oneWay).end);
             var c := i.clientPos;
      (step[0] - c[0]) * (step[0] - c[0]) + (step[1] - c[1]) * (step[1] - c[1]) + (step[2] - c[2]) * (step[2] - c[2])
      <= (slide[0] - c[0]) * (slide[0] - c[0]) + (slide[1] - c[1]) * (slide[1] - c[1])
         + (slide[2] - c[2]) * (slide[2] - c[2])
    ensures var v, w := PlainSlide(boxes, i).Velocity(), StepOf(boxes, i.box, i.vel, i.oneWay).Velocity();
            var farther := w[0] * w[0] + w[2] * w[2] > v[0] * v[0] + v[2] * v[2];
            var d := Decide(boxes, i, stepBlocked);
      d.stepped == farther && d.vel == if farther then w else v
  {
    hide SlideOf, StepOf, Foot;
  }

  /** No decision takes the player less far sideways than sliding, and one that steps takes it farther. */
  lemma NeverShorterThanSliding(boxes: seq<Box>, i: Input, stepBlocked: bool)
    ensures var v, d := PlainSlide(boxes, i).Velocity(), Decide(boxes, i, stepBlocked);
      && d.vel[0] * d.vel[0] + d.vel[2] * d.vel[2] >= v[0] * v[0] + v[2] * v[2]
      && (d.stepped <==> d.vel[0] * d.vel[0] + d.vel[2] * d.vel[2] > v[0] * v[0] + v[2] * v[2])
      && (!d.stepped ==> d.vel == v)
  {
    hide SlideOf, StepOf, Foot;
  }

  /** Nobody steps in the air without falling, when nothing is in the way, into a block, or away from a client that is
      within the threshold of the slide. */
  lemma StaysWhere(boxes: seq<Box>, i: Input, stepBlocked: bool)
    ensures var slide, step := PlainSlide(boxes, i), StepOf(boxes, i.box, i.vel, i.oneWay);
            var v, a, b := slide.Velocity(), Add(Foot(slide.end), Negated(i.clientPos)),
                           Add(Foot(step.end), Negated(i.clientPos));
      Decide(boxes, i, stepBlocked).stepped ==>
        && (i.onGround || (i.vel[1] < 0.0 && (v[1] != i.vel[1] || i.jumpPrevented)))
        && (v[0] != i.vel[0] || v[2] != i.vel[2]) && !stepBlocked
        && (i.threshold < 0.0 || LengthSqr(a) > i.threshold * i.threshold || LengthSqr(b) <= LengthSqr(a))
  {
    hide SlideOf, StepOf, Foot;
  }

  /** A player that lands in this tick may step as well, and one that the client is far away from need not wait for
      it. */
  lemma LandingPlayersStep(boxes: seq<Box>, i: Input)
    requires var v := PlainSlide(boxes, i).Velocity();
      && i.vel[1] < 0.0 && (v[1] != i.vel[1] || i.jumpPrevented) && (v[0] != i.vel[0] || v[2] != i.vel[2])
    requires i.threshold < 0.0 || LengthSqr(Add(Foot(PlainSlide(boxes, i).end), Negated(i.clientPos)))
                                  > i.threshold * i.threshold
    requires var v, w := PlainSlide(boxes, i).Velocity(), StepOf(boxes, i.box, i.vel, i.oneWay).Velocity();
             w[0] * w[0] + w[2] * w[2] > v[0] * v[0] + v[2] * v[2]
    ensures Decide(boxes, i, false).stepped
  {
    hide SlideOf, StepOf, Foot;
  }

  // ----- after the move

  /** The collision box of a player: its width is around the position, and older clients are raised by the slide
      offset. */
  function BoxAt(pos: Vec3, halfWidth: real, height: real, raised: real): Box {
    Box([pos[0] - halfWidth, pos[1] + raised, pos[2] - halfWidth],
        [pos[0] + halfWidth, pos[1] + height + raised, pos[2] + halfWidth])
  }

  /** The next tick starts from the very box in which this one ended, slide offset or not. */
  lemma NextBoxIsFinalBox(
    boxes: seq<Box>, m: Motion, i: Input, stepBlocked: bool, penetrated: bool, useSlideOffset: bool, w: real, h: real)
    requires i.box == BoxAt(m.pos, w, h, if useSlideOffset then m.slideOffset.1 else 0.0)
    ensures var d := Decide(boxes, i, stepBlocked); var m' := Moved(m, d, penetrated, useSlideOffset);
      && BoxAt(m'.pos, w, h, if useSlideOffset then m'.slideOffset.1 else 0.0) == d.box
      && m'.vel == d.vel && m'.lastPos == m.pos
      && (!useSlideOffset ==> m'.slideOffset == m.slideOffset)
      && (useSlideOffset && !d.stepped ==> m'.slideOffset == (0.0, 0.0))
      && (useSlideOffset && d.stepped ==> m'.slideOffset == (0.4 * m.slideOffset.0, 0.4 * m.slideOffset.1 + d.vel[1]))
  {
    hide SlideOf, StepOf, MayStep, StepAccepted;
    EndOfSlide(boxes, i);
  }

  /** The collision flags tell which components of the velocity were changed, by a hundred-thousandth or more. */
  lemma FlagsTellChanges(m: Motion, d: Decision, penetrated: bool, useSlideOffset: bool)
    ensures var m' := Moved(m, d, penetrated, useSlideOffset);
      && (m'.collideX <==> m.vel[0] - m'.vel[0] >= 0.00001 || m'.vel[0] - m.vel[0] >= 0.00001)
      && (m'.collideY <==> m.vel[1] - m'.vel[1] >= 0.00001 || m'.vel[1] - m.vel[1] >= 0.00001)
      && (m'.collideZ <==> m.vel[2] - m'.vel[2] >= 0.00001 || m'.vel[2] - m.vel[2] >= 0.00001)
  {
  }

  /** A player is on the ground when a fall was stopped, and stays there as long as nothing moves it up or down. */
  lemma OnGroundWhen(m: Motion, d: Decision, penetrated: bool, useSlideOffset: bool)
    ensures var m' := Moved(m, d, penetrated, useSlideOffset);
      && (m.vel[1] < 0.0 && m'.vel[1] - m.vel[1] >= 0.00001 ==> m'.onGround)
      && (m.vel[1] > 0.00001 ==> !m'.onGround)
      && (m.vel[1] < -0.00001 && m'.vel[1] == m.vel[1] ==> !m'.onGround)
      && (-0.00001 <= m.vel[1] <= 0.00001 && m'.vel[1] == m.vel[1] ==> m'.onGround == m.onGround)
      && (!m.onGround && m'.onGround ==> m.vel[1] < 0.0 && m'.collideY)
  {
  }

  /** A player that starts clear, falls, slides, and comes to the ground has a box under its feet: it is level with the
      bottom of the player, within the tolerance, and nothing separates them sideways before the player moves on. */
  lemma LandsOnABox(boxes: seq<Box>, m: Motion, i: Input, stepBlocked: bool, useSlideOffset: bool) returns (s: Box)
    requires AllSeparated(boxes, i.box) && i.vel == m.vel && m.vel[1] < 0.0 && !i.jumpPrevented && !m.onGround
    requires !Decide(boxes, i, stepBlocked).stepped
    requires Moved(m, Decide(boxes, i, stepBlocked), false, useSlideOffset).onGround
    ensures var landed := Translate(i.box, OnAxis(1, PlainSlide(boxes, i).y[1]));
      && s in boxes && Snap(s.max[1] - landed.min[1]) == 0.0 && !Apart(s, landed, 0) && !Apart(s, landed, 2)
  {
    hide Pass, SlideOf, SafeMove, AllSeparated, StepOf, StepAccepted, MayStep, Foot;
    var rev := Reversed(boxes);
    ReversedSame(boxes);
    SeparatedIgnoresOrder(boxes, rev, i.box);
    OnGroundWhen(m, Decide(boxes, i, stepBlocked), false, useSlideOffset);
    DecisionIsSafe(boxes, i, stepBlocked);
    assert PlainSlide(boxes, i) == SlideOf(rev, i.box, i.vel, i.vel[1], i.oneWay);
    s := FallIsCutByABox(rev, i);
    assert s in boxes;
  }

  lemma FallIsCutByABox(rev: seq<Box>, i: Input) returns (s: Box)
    requires AllSeparated(rev, i.box) && i.vel[1] < 0.0
    requires var o := SlideOf(rev, i.box, i.vel, i.vel[1], i.oneWay); o.Velocity()[1] - i.vel[1] >= 0.00001
    ensures var landed := Translate(i.box, OnAxis(1, SlideOf(rev, i.box, i.vel, i.vel[1], i.oneWay).y[1]));
      && s in rev && Snap(s.max[1] - landed.min[1]) == 0.0 && !Apart(s, landed, 0) && !Apart(s, landed, 2)
  {
    hide Pass, SafeMove, Translate, Apart, Snap, Left;
    SlideIsSafe(rev, i.box, i.vel, i.vel[1], i.oneWay);
    var w := PassSettles(rev, i.box, 1, i.vel[1], ZERO, i.oneWay);
    assert w != i.vel[1];
    s :| s in rev && w == Left(s, i.box, 1, i.vel[1]);
    CutMoveTouches(s, i.box, 1, i.vel[1]);
  }

  // ----- a slab is climbed

  /** A move of a clear player is what the boxes leave of it, if one of them, or none, cuts it there. */
  lemma PassIs(boxes: seq<Box>, m: Box, j: Axis, u: real, w: real)
    requires AllSeparated(boxes, m) && Settled(boxes, m, j, u, w)
    ensures forall oneWay :: Pass(boxes, m, Sweep(OnAxis(j, u), ZERO), oneWay) == Sweep(OnAxis(j, w), ZERO)
  {
    forall oneWay
      ensures Pass(boxes, m, Sweep(OnAxis(j, u), ZERO), oneWay) == Sweep(OnAxis(j, w), ZERO)
    {
      var w' := PassSettles(boxes, m, j, u, ZERO, oneWay);
      SettledOnce(boxes, boxes, m, j, u, w, w');
    }
  }

  const FLOOR := Box([-5.0, -1.0, -5.0], [5.0, 0.0, 5.0])
  const SLAB := Box([0.0, 0.0, -1.0], [1.0, 0.5, 2.0])

  /** A player of the usual size, somewhere along the slab. */
  function PlayerAt(x: real, y: real): Box { Box([x - 0.3, y, 0.0], [x + 0.3, y + 1.8, 0.6]) }

  lemma PlayerMoves(x: real, y: real, dx: real, dy: real)
    ensures Translate(PlayerAt(x, y), OnAxis(0, dx)) == PlayerAt(x + dx, y)
    ensures Translate(PlayerAt(x, y), OnAxis(1, dy)) == PlayerAt(x, y + dy)
    ensures Translate(PlayerAt(x, y), OnAxis(2, 0.0)) == PlayerAt(x, y)
  {
  }

  ghost predicate FloorAndSlab(boxes: seq<Box>) { forall s :: s in boxes <==> s == FLOOR || s == SLAB }

  /** Two boxes leave of a move the shorter of what each leaves. */
  lemma SettledByTwo(boxes: seq<Box>, m: Box, j: Axis, u: real, w: real)
    requires FloorAndSlab(boxes) && Separated(FLOOR, m) && Separated(SLAB, m) && PartOf(w, u)
    requires PartOf(w, Left(FLOOR, m, j, u)) && PartOf(w, Left(SLAB, m, j, u))
    requires w == u || w == Left(FLOOR, m, j, u) || w == Left(SLAB, m, j, u)
    ensures AllSeparated(boxes, m)
    ensures forall oneWay :: Pass(boxes, m, Sweep(OnAxis(j, u), ZERO), oneWay) == Sweep(OnAxis(j, w), ZERO)
  {
    hide Separated, Left, Pass, PartOf;
    assert FLOOR in boxes && SLAB in boxes;
    PassIs(boxes, m, j, u, w);
  }

  /** On the floor, the slab ahead: the player does not sink, is stopped after 0.2, and may rise. */
  lemma BeforeSlab(boxes: seq<Box>)
    requires FloorAndSlab(boxes)
    ensures var m := PlayerAt(-0.5, 0.0); AllSeparated(boxes, m) && forall oneWay ::
        && Pass(boxes, m, Sweep(OnAxis(1, -0.08), ZERO), oneWay) == Sweep(OnAxis(0, 0.0), ZERO)
        && Pass(boxes, m, Sweep(OnAxis(0, 0.3), ZERO), oneWay) == Sweep(OnAxis(0, 0.2), ZERO)
        && Pass(boxes, m, Sweep(OnAxis(1, 0.6), ZERO), oneWay) == Sweep(OnAxis(1, 0.6), ZERO)
  {
    hide Pass, AllSeparated, FloorAndSlab;
    var m := PlayerAt(-0.5, 0.0);
    SettledByTwo(boxes, m, 1, -0.08, 0.0);
    SettledByTwo(boxes, m, 0, 0.3, 0.2);
    SettledByTwo(boxes, m, 1, 0.6, 0.6);
  }

  /** Raised, nothing stops the player; over the slab it comes down onto it. */
  lemma AboveSlab(boxes: seq<Box>)
    requires FloorAndSlab(boxes)
    ensures forall oneWay ::
        && Pass(boxes, PlayerAt(-0.5, 0.6), Sweep(OnAxis(0, 0.3), ZERO), oneWay) == Sweep(OnAxis(0, 0.3), ZERO)
        && Pass(boxes, PlayerAt(-0.2, 0.6), Sweep(OnAxis(2, 0.0), ZERO), oneWay) == Sweep(OnAxis(0, 0.0), ZERO)
        && Pass(boxes, PlayerAt(-0.2, 0.6), Sweep(OnAxis(1, -0.6), ZERO), oneWay) == Sweep(OnAxis(1, -0.1), ZERO)
        && Pass(boxes, PlayerAt(-0.3, 0.0), Sweep(OnAxis(2, 0.0), ZERO), oneWay) == Sweep(OnAxis(0, 0.0), ZERO)
  {
    hide Pass, AllSeparated, FloorAndSlab;
    SettledByTwo(boxes, PlayerAt(-0.5, 0.6), 0, 0.3, 0.3);
    SettledByTwo(boxes, PlayerAt(-0.2, 0.6), 2, 0.0, 0.0);
    SettledByTwo(boxes, PlayerAt(-0.2, 0.6), 1, -0.6, -0.1);
    SettledByTwo(boxes, PlayerAt(-0.3, 0.0), 2, 0.0, 0.0);
  }

  /** Sliding takes the player to the slab, stepping onto it. */
  lemma SlabMoves(boxes: seq<Box>, oneWay: bool)
    requires FloorAndSlab(boxes)
    ensures SlideOf(boxes, PlayerAt(-0.5, 0.0), [0.3, -0.08, 0.0], -0.08, oneWay)
            == Slide(ZERO, [0.2, 0.0, 0.0], ZERO, PlayerAt(-0.3, 0.0), ZERO)
    ensures StepOf(boxes, PlayerAt(-0.5, 0.0), [0.3, -0.08, 0.0], oneWay)
            == Slide([0.0, 0.5, 0.0], [0.3, 0.0, 0.0], ZERO, PlayerAt(-0.2, 0.5), ZERO)
  {
    hide Pass, FloorAndSlab, PlayerAt, Translate;
    BeforeSlab(boxes);
    AboveSlab(boxes);
    PlayerMoves(-0.5, 0.0, 0.2, 0.0);
    PlayerMoves(-0.3, 0.0, 0.0, 0.0);
    PlayerMoves(-0.5, 0.0, 0.0, 0.6);
    PlayerMoves(-0.5, 0.6, 0.3, 0.0);
    PlayerMoves(-0.2, 0.6, 0.0, -0.1);
    assert Negated(OnAxis(1, 0.6)) == OnAxis(1, -0.6);
    assert OnAxis(1, 0.0) == OnAxis(2, 0.0) == OnAxis(0, 0.0) == ZERO;
  }

  /** A player that walks into a slab ends up on it, in whatever order the boxes are listed, although sliding would
      leave it standing in front. */
  lemma SlabIsClimbed(boxes: seq<Box>, i: Input)
    requires FloorAndSlab(boxes) && i.box == PlayerAt(-0.5, 0.0) && i.vel == [0.3, -0.08, 0.0] && i.onGround
    requires !i.jumpPrevented && i.clientPos == [-0.2, 0.5, 0.3]
    ensures PlainSlide(boxes, i).Velocity() == [0.2, 0.0, 0.0]
    ensures Decide(boxes, i, false) == Decision([0.3, 0.5, 0.0], PlayerAt(-0.2, 0.5), true)
  {
    hide SlideOf, StepOf, FloorAndSlab;
    SlabReversed(boxes);
    SlabMoves(Reversed(boxes), i.oneWay);
    SlabMoves(boxes, i.oneWay);
  }

  lemma SlabReversed(boxes: seq<Box>)
    requires FloorAndSlab(boxes)
    ensures FloorAndSlab(Reversed(boxes))
  {
    ReversedSame(boxes);
  }

  // ----- a jump under an overhang

  /** No box shortens the move. */
  ghost predicate Free(boxes: seq<Box>, m: Box, j: Axis, u: real) { forall s | s in boxes :: Left(s, m, j, u) == u }

  lemma PassIsWhole(boxes: seq<Box>, m: Box, j: Axis, u: real, pen: Vec3)
    requires AllSeparated(boxes, m)
    ensures var w := Pass(boxes, m, Sweep(OnAxis(j, u), pen), false).vel;
      && (w[j] == u <==> Free(boxes, m, j, u)) && w == OnAxis(j, w[j]) && AllSeparated(boxes, Translate(m, w))
  {
    hide Left, Separated, Translate;
    var w := PassSettles(boxes, m, j, u, pen, false);
    SettledIsSafe(boxes, m, j, u, w);
    if w == u {
      forall s | s in boxes
        ensures Left(s, m, j, u) == u
      {
        LeftOfPart(s, m, j, u, u);
      }
    }
  }

  /** For a player that starts clear, a jump counts as blocked exactly when the way straight up is free, from there the
      way across is not, the way across from below is free, and the rise after it is not. */
  lemma JumpBlockedWhen(boxes: seq<Box>, box: Box, vel: Vec3)
    requires AllSeparated(boxes, box)
    ensures var raised, across := Translate(box, OnAxis(1, vel[1])), Translate(box, OnAxis(0, vel[0]));
      JumpBlocked(boxes, box, vel) <==>
        && Free(boxes, box, 1, vel[1])
        && !(Free(boxes, raised, 0, vel[0]) && Free(boxes, Translate(raised, OnAxis(0, vel[0])), 2, vel[2]))
        && Free(boxes, box, 0, vel[0]) && Free(boxes, across, 2, vel[2])
        && !Free(boxes, Translate(across, OnAxis(2, vel[2])), 1, vel[1])
  {
    hide Pass, AllSeparated, Free, Translate;
    var first, last := SlideOf(boxes, box, vel, vel[1], false), LateRise(boxes, box, vel);
    PassIsWhole(boxes, box, 1, vel[1], ZERO);
    var y := Pass(boxes, box, Sweep(OnAxis(1, vel[1]), ZERO), false);
    var box1 := Translate(box, first.y);
    PassIsWhole(boxes, box1, 0, vel[0], y.pen);
    var x := Pass(boxes, box1, Sweep(OnAxis(0, vel[0]), y.pen), false);
    PassIsWhole(boxes, Translate(box1, first.x), 2, vel[2], x.pen);
    PassIsWhole(boxes, box, 0, vel[0], ZERO);
    var x' := Pass(boxes, box, Sweep(OnAxis(0, vel[0]), ZERO), false);
    var box2 := Translate(box, last.x);
    PassIsWhole(boxes, box2, 2, vel[2], x'.pen);
    var z' := Pass(boxes, box2, Sweep(OnAxis(2, vel[2]), x'.pen), false);
    PassIsWhole(boxes, Translate(box2, last.z), 1, vel[1], z'.pen);
  }
}
