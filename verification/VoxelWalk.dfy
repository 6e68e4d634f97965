/** The walk of a ray through the grid of unit blocks, over exact reals. */
module VoxelWalk {

  const MAX_FLOAT32 := 340282346638528859811704183484516925440.0
  const NEAR_ZERO_SQR := 0.0000000001

  datatype Point = Point(x: real, y: real, z: real)

  datatype Block = Block(x: int, y: int, z: int)

  /** One step in the direction of a component: -1, 0 or 1. */
  function Sign(d: real): int { if d < 0.0 then -1 else if d == 0.0 then 0 else 1 }

  /** The distance along the ray to the first grid boundary of a coordinate. */
  function DistanceToBoundary(s: real, ds: real): real {
    if ds == 0.0 then MAX_FLOAT32
    else if ds < 0.0 then
      if (-s).Floor as real == -s then 0.0 else (1.0 - (-s - (-s).Floor as real)) / -ds
    else (1.0 - (s - s.Floor as real)) / ds
  }

  lemma Quotient(a: real, b: real)
    requires b > 0.0
    ensures (a / b) * b == a && (a > 0.0 ==> a / b > 0.0)
  {
  }

  lemma BoundaryAhead(s: real, ds: real)
    ensures var t := DistanceToBoundary(s, ds);
      if ds == 0.0 then t == MAX_FLOAT32
      else if ds > 0.0 then t > 0.0 && s + t * ds == s.Floor as real + 1.0
      else t >= 0.0 && s + t * ds == s.Floor as real
  {
    var t := DistanceToBoundary(s, ds);
    if ds > 0.0 {
      Quotient(1.0 - (s - s.Floor as real), ds);
    } else if ds < 0.0 && (-s).Floor as real != -s {
      Quotient(1.0 - (-s - (-s).Floor as real), -ds);
      assert (-s).Floor == -s.Floor - 1;
      assert t * ds == -(t * -ds);
    } else if ds < 0.0 {
      assert s.Floor == -(-s).Floor;
    }
  }

  /** One coordinate of the walk: where the ray starts and how fast it moves, the block it is in, and the
      distance at which it leaves that block. */
  datatype Axis = Axis(s: real, d: real, block: int, tMax: real) {

    /** The closed unit interval of the block contains the coordinate at distance t. */
    predicate Inside(t: real) { block as real <= s + t * d <= block as real + 1.0 }

    /** `tMax` is the distance to the boundary ahead. */
    predicate Aims() {
      if d == 0.0 then tMax == MAX_FLOAT32
      else if d > 0.0 then s + tMax * d == block as real + 1.0
      else s + tMax * d == block as real
    }

    /** Enters the next block. */
    function Next(): Axis {
      this.(block := block + Sign(d), tMax := tMax + if d == 0.0 then 0.0 else Sign(d) as real / d)
    }
  }

  lemma StaysInside(a: Axis, t0: real, t: real)
    requires a.Inside(t0) && a.Aims() && t0 <= t <= a.tMax
    ensures a.Inside(t)
  {
    if a.d > 0.0 {
      assert t0 * a.d <= t * a.d <= a.tMax * a.d;
    } else if a.d < 0.0 {
      assert t0 * a.d >= t * a.d >= a.tMax * a.d;
    }
  }

  lemma Crosses(a: Axis)
    requires a.Aims() && a.d != 0.0
    ensures a.Next().Aims() && a.Next().Inside(a.tMax) && a.Next().tMax > a.tMax
  {
    var step := Sign(a.d) as real;
    assert (step / a.d) * a.d == step;
    assert step / a.d > 0.0;
    assert (a.tMax + step / a.d) * a.d == a.tMax * a.d + step;
  }

  lemma Starts(s: real, d: real)
    ensures var a := Axis(s, d, s.Floor, DistanceToBoundary(s, d)); a.Aims() && a.Inside(0.0) && a.tMax >= 0.0
  {
    BoundaryAhead(s, d);
  }

  // ----- the walk

  function LengthSqr(a: Point, b: Point): real {
    (b.x - a.x) * (b.x - a.x) + (b.y - a.y) * (b.y - a.y) + (b.z - a.z) * (b.z - a.z)
  }

  /** A segment along one axis is as long as the coordinates differ, and the squares of three of them add up. */
  lemma LengthOnAxes(a: Point, b: Point, d: real)
    ensures LengthSqr(a, a.(x := a.x + d)) == LengthSqr(a, a.(y := a.y + d)) == LengthSqr(a, a.(z := a.z + d)) == d * d
    ensures LengthSqr(a, b)
         == LengthSqr(a, a.(x := b.x)) + LengthSqr(a, a.(y := b.y)) + LengthSqr(a, a.(z := b.z))
  {
  }

  predicate Contains(b: Block, p: Point) {
    && b.x as real <= p.x <= b.x as real + 1.0
    && b.y as real <= p.y <= b.y as real + 1.0
    && b.z as real <= p.z <= b.z as real + 1.0
  }

  /** The point of the ray at a distance; `dir` has length one. */
  function At(start: Point, dir: Point, t: real): Point {
    Point(start.x + t * dir.x, start.y + t * dir.y, start.z + t * dir.z)
  }

  /** The ray as a path. */
  function Line(start: Point, dir: Point): real -> Point { t => At(start, dir, t) }

  function Distance1(a: int, b: int): nat { if a <= b then b - a else a - b }

  /** Face-adjacent steps between two blocks. */
  function Steps(a: Block, b: Block): nat { Distance1(a.x, b.x) + Distance1(a.y, b.y) + Distance1(a.z, b.z) }

  /** The three coordinates of the walk. */
  datatype Ray = Ray(x: Axis, y: Axis, z: Axis) {
    function Here(): Block { Block(x.block, y.block, z.block) }
    predicate Inside(t: real) { x.Inside(t) && y.Inside(t) && z.Inside(t) }
    predicate Aims() { x.Aims() && y.Aims() && z.Aims() }
    function Exit(): real {
      if x.tMax <= y.tMax && x.tMax <= z.tMax then x.tMax else if y.tMax <= z.tMax then y.tMax else z.tMax
    }
    /** The block of `from` lies behind on every axis. */
    predicate Ahead(from: Block) {
      && (x.d > 0.0 ==> from.x <= x.block) && (x.d < 0.0 ==> x.block <= from.x) && (x.d == 0.0 ==> x.block == from.x)
      && (y.d > 0.0 ==> from.y <= y.block) && (y.d < 0.0 ==> y.block <= from.y) && (y.d == 0.0 ==> y.block == from.y)
      && (z.d > 0.0 ==> from.z <= z.block) && (z.d < 0.0 ==> z.block <= from.z) && (z.d == 0.0 ==> z.block == from.z)
    }
    predicate Follows(start: Point, dir: Point) {
      x.s == start.x && y.s == start.y && z.s == start.z && x.d == dir.x && y.d == dir.y && z.d == dir.z
    }
  }

  lemma RayStays(r: Ray, t0: real, t: real)
    requires r.Inside(t0) && r.Aims() && t0 <= t <= r.Exit()
    ensures r.Inside(t)
  {
    StaysInside(r.x, t0, t);
    StaysInside(r.y, t0, t);
    StaysInside(r.z, t0, t);
  }

  /** One coordinate has entered its next block, through the nearest boundary. */
  predicate Crossed(r: Ray, r': Ray) {
    || (r' == r.(x := r.x.Next()) && r.x.tMax == r.Exit())
    || (r' == r.(y := r.y.Next()) && r.y.tMax == r.Exit())
    || (r' == r.(z := r.z.Next()) && r.z.tMax == r.Exit())
  }

  /** Crossing the nearest boundary enters a face-adjacent block, one step further from every block behind. */
  lemma RayCrosses(r: Ray, r': Ray, t0: real, from: Block)
    requires r.Inside(t0) && r.Aims() && t0 <= r.Exit() < MAX_FLOAT32 && r.Ahead(from)
    requires Crossed(r, r')
    ensures r'.Inside(r.Exit()) && r'.Aims() && r.Exit() <= r'.Exit() && r'.Ahead(from)
    ensures Steps(from, r'.Here()) == Steps(from, r.Here()) + 1 && Steps(r.Here(), r'.Here()) == 1
  {
    RayStays(r, t0, r.Exit());
    if r' == r.(x := r.x.Next()) && r.x.tMax == r.Exit() { Crosses(r.x); }
    else if r' == r.(y := r.y.Next()) && r.y.tMax == r.Exit() { Crosses(r.y); }
    else { Crosses(r.z); }
  }

  /** Between two blocks of the list there are as many face-adjacent steps as places in the list. */
  predicate Proceeds(blocks: seq<Block>) {
    forall i, j | 0 <= i <= j < |blocks| :: Steps(blocks[i], blocks[j]) == j - i
  }

  /** The block contains the path from one distance to another. */
  ghost predicate Stays(path: real -> Point, b: Block, from: real, to: real) {
    forall t | from <= t <= to :: Contains(b, path(t))
  }

  /** The blocks and the distances at which a path enters them describe the path from its start on. */
  ghost predicate Traces(path: real -> Point, blocks: seq<Block>, entered: seq<real>) {
    && |blocks| == |entered| && (blocks != [] ==> entered[0] == 0.0 && Contains(blocks[0], path(0.0)))
    && (forall i, j | 0 <= i <= j < |blocks| :: entered[i] <= entered[j])
    && forall i {:trigger blocks[i]} | 0 <= i < |blocks| - 1 :: Stays(path, blocks[i], entered[i], entered[i + 1])
  }

  /** The path is inside the last block from its entry to distance t. */
  ghost predicate LastCovers(path: real -> Point, blocks: seq<Block>, entered: seq<real>, t: real)
    requires 0 < |blocks| == |entered|
  {
    entered[|blocks| - 1] <= t && Stays(path, blocks[|blocks| - 1], entered[|blocks| - 1], t)
  }

  lemma Triangle(a: Block, b: Block, c: Block)
    ensures Steps(a, c) <= Steps(a, b) + Steps(b, c) && Steps(a, a) == 0
  {
  }

  lemma ProceedsOneMore(blocks: seq<Block>, b: Block)
    requires Proceeds(blocks)
    requires blocks != [] ==> Steps(blocks[|blocks| - 1], b) == 1 && Steps(blocks[0], b) == |blocks|
    ensures Proceeds(blocks + [b])
  {
    hide Steps;
    var bs, n := blocks + [b], |blocks|;
    forall i, j | 0 <= i <= j < |bs|
      ensures Steps(bs[i], bs[j]) == j - i
    {
      if i < n && j == n {
        Triangle(blocks[i], blocks[n - 1], b);
        Triangle(blocks[0], blocks[i], b);
      } else if i == n {
        Triangle(b, b, b);
      }
    }
  }

  lemma Extends(path: real -> Point, blocks: seq<Block>, entered: seq<real>, b: Block, t: real)
    requires Traces(path, blocks, entered) && Contains(b, path(t))
    requires if blocks == [] then t == 0.0 else LastCovers(path, blocks, entered, t)
    ensures Traces(path, blocks + [b], entered + [t])
  {
    hide Contains, Stays;
    var bs, es := blocks + [b], entered + [t];
    forall i | 0 <= i < |blocks|
      ensures Stays(path, bs[i], es[i], es[i + 1])
    {
      assert bs[i] == blocks[i];
    }
  }

  lemma InsideContains(r: Ray, start: Point, dir: Point, t: real)
    requires r.Follows(start, dir) && r.Inside(t)
    ensures Contains(r.Here(), Line(start, dir)(t))
  {
  }

  lemma Covers(start: Point, dir: Point, blocks: seq<Block>, entered: seq<real>, r: Ray, t: real)
    requires 0 < |blocks| == |entered| && blocks[|blocks| - 1] == r.Here() && r.Follows(start, dir) && r.Aims()
    requires r.Inside(entered[|blocks| - 1]) && entered[|blocks| - 1] <= t <= r.Exit()
    ensures LastCovers(Line(start, dir), blocks, entered, t)
  {
    hide Line, Contains, At;
    forall u | entered[|blocks| - 1] <= u <= t
      ensures Contains(r.Here(), Line(start, dir)(u))
    {
      RayStays(r, entered[|blocks| - 1], u);
      InsideContains(r, start, dir, u);
    }
  }

  /** Crosses the nearest boundary unless it lies beyond the end; of equally near ones that of the last axis. */
  method Advance(r: Ray, length: real) returns (done: bool, r': Ray)
    ensures done <==> r.Exit() > length
    ensures !done ==> Crossed(r, r')
    ensures !done && r'.x != r.x ==> r.x.tMax < r.y.tMax && r.x.tMax < r.z.tMax
    ensures !done && r'.y != r.y ==> r.y.tMax < r.z.tMax
  {
    r', done := r, false;
    if r.x.tMax < r.y.tMax && r.x.tMax < r.z.tMax {
      if r.x.tMax > length { return true, r; }
      r' := r.(x := r.x.Next());
    } else if r.y.tMax < r.z.tMax {
      if r.y.tMax > length { return true, r; }
      r' := r.(y := r.y.Next());
    } else {
      if r.z.tMax > length { return true, r; }
      r' := r.(z := r.z.Next());
    }
  }

  lemma Direction(start: Point, end: Point, length: real) returns (dir: Point)
    requires length > 0.0
    ensures dir == Point((end.x - start.x) / length, (end.y - start.y) / length, (end.z - start.z) / length)
    ensures At(start, dir, 0.0) == start && At(start, dir, length) == end
  {
    dir := Point((end.x - start.x) / length, (end.y - start.y) / length, (end.z - start.z) / length);
    Quotient(end.x - start.x, length);
    Quotient(end.y - start.y, length);
    Quotient(end.z - start.z, length);
  }

  function RayFrom(start: Point, dir: Point): Ray {
    Ray(Axis(start.x, dir.x, start.x.Floor, DistanceToBoundary(start.x, dir.x)),
        Axis(start.y, dir.y, start.y.Floor, DistanceToBoundary(start.y, dir.y)),
        Axis(start.z, dir.z, start.z.Floor, DistanceToBoundary(start.z, dir.z)))
  }

  lemma RayStarts(start: Point, dir: Point)
    ensures var r := RayFrom(start, dir);
      r.Follows(start, dir) && r.Inside(0.0) && r.Aims() && 0.0 <= r.Exit() && r.Ahead(r.Here())
  {
    Starts(start.x, dir.x);
    Starts(start.y, dir.y);
    Starts(start.z, dir.z);
  }

  /** No block is visited twice. */
  lemma VisitsAreDistinct(blocks: seq<Block>, i: nat, j: nat)
    requires Proceeds(blocks) && i < j < |blocks|
    ensures blocks[i] != blocks[j]
  {
    assert Steps(blocks[i], blocks[j]) == j - i;
  }

  /** Every point of the path up to the last entry lies in some visited block. */
  lemma {:induction false} EntriesAreCovered(
    path: real -> Point, blocks: seq<Block>, entered: seq<real>, k: nat, t: real) returns (i: nat)
    requires Traces(path, blocks, entered) && k < |blocks| && 0.0 <= t <= entered[k]
    ensures i <= k && Contains(blocks[i], path(t))
  {
    hide Contains;
    i := 0;
    if 0 < k && t < entered[k - 1] {
      i := EntriesAreCovered(path, blocks, entered, k - 1, t);
    } else if 0 < k {
      i := k - 1;
      assert Stays(path, blocks[i], entered[i], entered[k]);
    }
  }

  /** Every point of the path up to a distance lies in one of the blocks. */
  ghost predicate CoversSegment(path: real -> Point, blocks: seq<Block>, length: real) {
    forall t | 0.0 <= t <= length :: exists i | 0 <= i < |blocks| :: Contains(blocks[i], path(t))
  }

  lemma SegmentIsCovered(path: real -> Point, blocks: seq<Block>, entered: seq<real>, length: real)
    requires Traces(path, blocks, entered) && blocks != []
    requires LastCovers(path, blocks, entered, length)
    ensures CoversSegment(path, blocks, length)
  {
    hide Contains;
    forall t | 0.0 <= t <= length
      ensures exists i | 0 <= i < |blocks| :: Contains(blocks[i], path(t))
    {
      var last := |blocks| - 1;
      if t <= entered[last] {
        var i := EntriesAreCovered(path, blocks, entered, last, t);
      } else {
        assert Contains(blocks[last], path(t));
      }
    }
  }

  /** The walk for a segment of the given length.  It lists the blocks in the order of the ray; unless it is
      cut off after `maxIters` blocks, the last one covers the rest, so every point of the segment is in some block. */
  method BlocksBetween(start: Point, end: Point, length: real, maxIters: int)
    returns (blocks: seq<Block>, cutOff: bool, ghost dir: Point, ghost entered: seq<real>)
    requires 0.0 <= length < MAX_FLOAT32 && length * length == LengthSqr(start, end)
    ensures LengthSqr(start, end) <= NEAR_ZERO_SQR ==> blocks == [] && !cutOff
    ensures LengthSqr(start, end) > NEAR_ZERO_SQR ==>
      && At(start, dir, 0.0) == start && At(start, dir, length) == end && Proceeds(blocks)
      && Traces(Line(start, dir), blocks, entered)
      && (blocks != [] ==> blocks[0] == Block(start.x.Floor, start.y.Floor, start.z.Floor))
      && (if cutOff then |blocks| == if maxIters <= 0 then 0 else maxIters
          else 0 < |blocks| <= maxIters && LastCovers(Line(start, dir), blocks, entered, length)
               && CoversSegment(Line(start, dir), blocks, length))
  {
    blocks, cutOff, dir, entered := [], false, start, [];
    if LengthSqr(start, end) <= NEAR_ZERO_SQR { return; }
    assert length > 0.0;
    dir := Direction(start, end, length);
    var dx, dy, dz := (end.x - start.x) / length, (end.y - start.y) / length, (end.z - start.z) / length;
    var r := RayFrom(start, Point(dx, dy, dz));
    RayStarts(start, dir);
    hide LengthSqr, At, Line, Steps, Contains, Proceeds, Traces, Stays, LastCovers, CoversSegment, Crossed;
    ghost var now, first, path := 0.0, r.Here(), Line(start, dir);
    NothingYet(path, first);
    var iters := 0;
    while true
      invariant Proceeds(blocks) && Traces(path, blocks, entered) && |blocks| == |entered| == iters
      invariant r.Follows(start, dir) && r.Inside(now) && r.Aims() && now <= r.Exit() && r.Ahead(first)
      invariant Steps(first, r.Here()) == iters && 0.0 <= now <= length
      invariant if iters == 0 then now == 0.0 && r.Here() == first else
        blocks[0] == first && Steps(blocks[iters - 1], r.Here()) == 1 && LastCovers(path, blocks, entered, now)
      invariant iters <= maxIters || iters == 0
      decreases maxIters - iters
    {
      iters := iters + 1;
      if iters > maxIters {
        cutOff := true;
        return;
      }
      InsideContains(r, start, dir, now);
      ProceedsOneMore(blocks, r.Here());
      Extends(path, blocks, entered, r.Here(), now);
      blocks, entered := blocks + [r.Here()], entered + [now];
      var done, r' := Advance(r, length);
      if done {
        Covers(start, dir, blocks, entered, r, length);
        SegmentIsCovered(path, blocks, entered, length);
        return;
      }
      Covers(start, dir, blocks, entered, r, r.Exit());
      RayCrosses(r, r', now, first);
      now := r.Exit();
      r := r';
    }
  }

  lemma NothingYet(path: real -> Point, b: Block)
    ensures Proceeds([]) && Traces(path, [], []) && Steps(b, b) == 0
  {
  }
}
