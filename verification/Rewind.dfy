/** The position history of an entity, and the search for the recorded position nearest to a tick. */
module Rewind {
  import opened Common
  import opened CircularQueue

  datatype Vec3 = Vec3(x: real, y: real, z: real) {
    function Add(v: Vec3): Vec3 { Vec3(x + v.x, y + v.y, z + v.z) }
    function Sub(v: Vec3): Vec3 { Vec3(x - v.x, y - v.y, z - v.z) }
    function Over(n: int): Vec3
      requires n != 0
    {
      Vec3(x / n as real, y / n as real, z / n as real)
    }
  }

  const ZERO := Vec3(0.0, 0.0, 0.0)

  /** A tick of zero marks a slot that was never written. */
  datatype HistoricalPosition = HistoricalPosition(pos: Vec3, prevPos: Vec3, teleport: bool, tick: int)

  const UNINITIALISED := HistoricalPosition(ZERO, ZERO, false, 0)

  type History = seq<HistoricalPosition>

  /** Unwritten slots first, then strictly increasing ticks. */
  predicate Ordered(history: History) {
    && (forall i | 0 <= i < |history| :: history[i].tick >= 0)
    && (forall i, j | 0 <= i < j < |history| && history[i].tick != 0 :: history[i].tick < history[j].tick)
  }

  function Distance(hp: HistoricalPosition, tick: int): (d: nat)
    ensures hp.tick == tick + d || hp.tick == tick - d
  {
    if hp.tick >= tick then hp.tick - tick else tick - hp.tick
  }

  /** The exhaustive search: every written slot is looked at, a later one wins a tie. */
  function Nearest(history: History, tick: int): Option<HistoricalPosition> {
    if history == [] then None
    else
      var before, hp := Nearest(history[..|history| - 1], tick), history[|history| - 1];
      if hp.tick == 0 then before
      else if before.None? || Distance(hp, tick) <= Distance(before.value, tick) then Some(hp)
      else before
  }

  /** What the search finds: a written slot such that none is nearer and none as near comes later. */
  lemma {:induction false} NearestIsNearest(history: History, tick: int)
    ensures Nearest(history, tick).None? <==> forall i | 0 <= i < |history| :: history[i].tick == 0
    ensures Nearest(history, tick).Some? ==>
              exists i | 0 <= i < |history| :: history[i] == Nearest(history, tick).value && IsNearest(history, tick, i)
  {
    if history != [] {
      var n := |history| - 1;
      var pre, hp := history[..n], history[n];
      NearestIsNearest(pre, tick);
      var before := Nearest(pre, tick);
      if hp.tick != 0 && (before.None? || Distance(hp, tick) <= Distance(before.value, tick)) {
        assert IsNearest(history, tick, n) by {
          if before.Some? {
            var i :| 0 <= i < n && pre[i] == before.value && IsNearest(pre, tick, i);
            assert forall j | 0 <= j < n && history[j].tick != 0 :: Distance(pre[j], tick) >= Distance(pre[i], tick);
          } else {
            assert forall j | 0 <= j < n :: history[j].tick == pre[j].tick == 0;
          }
        }
      } else if before.Some? {
        var i :| 0 <= i < n && pre[i] == before.value && IsNearest(pre, tick, i);
        assert history[i] == pre[i] && IsNearest(history, tick, i) by {
          assert forall j | 0 <= j < n :: history[j] == pre[j];
        }
      } else {
        assert forall j | 0 <= j < n :: history[j].tick == pre[j].tick == 0;
      }
      if Nearest(history, tick).Some? && before.Some? {
        var i :| 0 <= i < n && pre[i] == before.value && IsNearest(pre, tick, i);
        assert history[i].tick != 0;
      }
    }
  }

  predicate IsNearest(history: History, tick: int, i: int)
    requires 0 <= i < |history|
  {
    history[i].tick != 0 &&
    forall j | 0 <= j < |history| && history[j].tick != 0 ::
      Distance(history[i], tick) < Distance(history[j], tick)
      || (Distance(history[i], tick) == Distance(history[j], tick) && j <= i)
  }

  /** Once the distance grows it keeps growing, so the rest of an ordered history can be skipped. */
  lemma {:induction false} RestIsFarther(history: History, tick: int, i: nat, n: nat)
    requires Ordered(history) && i < n <= |history| && history[i].tick != 0
    requires var best := Nearest(history[..i], tick);
             best.Some? && best.value in history[..i] && Distance(history[i], tick) > Distance(best.value, tick)
    ensures Nearest(history[..n], tick) == Nearest(history[..i], tick)
  {
    assert history[..n][..n - 1] == history[..n - 1];
    if n > i + 1 {
      RestIsFarther(history, tick, i, n - 1);
      assert history[i].tick < history[n - 1].tick;
    }
    var best := Nearest(history[..i], tick).value;
    var k :| 0 <= k < i && history[..i][k] == best;
    assert best.tick != 0 by { NearestIsWritten(history[..i], tick); }
    assert history[k].tick < history[i].tick;
  }

  lemma {:induction false} NearestIsWritten(history: History, tick: int)
    ensures var n := Nearest(history, tick); n.Some? ==> n.value.tick != 0 && n.value in history
  {
    if history != [] { NearestIsWritten(history[..|history| - 1], tick); }
  }

  /** An exact hit is the only one. */
  lemma {:induction false} HitIsNearest(history: History, tick: int, i: nat, n: nat)
    requires Ordered(history) && i < n <= |history| && history[i].tick == tick && tick != 0
    ensures Nearest(history[..n], tick) == Some(history[i])
  {
    assert history[..n][..n - 1] == history[..n - 1];
    if n > i + 1 {
      HitIsNearest(history, tick, i, n - 1);
      assert history[i].tick < history[n - 1].tick;
    }
  }

  // ----- the history over time

  /** What a run of positions leaves in a buffer of some capacity that started out unwritten. */
  function HistoryOf(capacity: nat, recorded: History): History {
    Last(capacity, seq(capacity, _ => UNINITIALISED) + recorded)
  }

  predicate Increasing(recorded: History) {
    && (forall i | 0 <= i < |recorded| :: recorded[i].tick >= 0)
    && (forall i, j | 0 <= i < j < |recorded| :: recorded[i].tick < recorded[j].tick)
  }

  lemma HistoryIsOrdered(capacity: nat, recorded: History)
    requires Increasing(recorded)
    ensures Ordered(HistoryOf(capacity, recorded))
  {
    var all := seq(capacity, _ => UNINITIALISED) + recorded;
    assert Ordered(all);
    var drop := |all| - capacity;
    assert HistoryOf(capacity, recorded) == all[drop..];
  }

  /** One more position pushes the oldest out. */
  lemma HistoryGrows(capacity: nat, recorded: History, hp: HistoricalPosition)
    requires capacity > 0
    ensures HistoryOf(capacity, recorded + [hp]) == Last(capacity, HistoryOf(capacity, recorded) + [hp])
  {
    var all := seq(capacity, _ => UNINITIALISED) + recorded;
    assert seq(capacity, _ => UNINITIALISED) + (recorded + [hp]) == all + [hp];
    LastAppended(capacity, all, hp);
  }

  /** After any run of recordings, the search finds the nearest of the last ones, if there is one. */
  lemma RewindFindsLatestNearest(capacity: nat, recorded: History, tick: int)
    requires capacity > 0
    ensures Nearest(HistoryOf(capacity, recorded), tick) == Nearest(Last(capacity, recorded), tick)
  {
    var zeros := seq(capacity, _ => UNINITIALISED);
    var window := Last(capacity, recorded);
    var m := |window|;
    assert HistoryOf(capacity, recorded) == zeros[..capacity - m] + window;
    SkipsUnwritten(zeros[..capacity - m], window, tick);
  }

  lemma {:induction false} SkipsUnwritten(zeros: History, history: History, tick: int)
    requires forall hp | hp in zeros :: hp.tick == 0
    ensures Nearest(zeros + history, tick) == Nearest(history, tick)
  {
    if history == [] {
      assert zeros + history == zeros;
      NearestIsNearest(zeros, tick);
      assert forall i | 0 <= i < |zeros| :: zeros[i] in zeros;
    } else {
      var n := |history| - 1;
      assert (zeros + history)[..|zeros| + n] == zeros + history[..n];
      SkipsUnwritten(zeros, history[..n], tick);
    }
  }

  const ENTITY_PLAYER_INTERPOLATION_TICKS := 3
  const ENTITY_MOB_INTERPOLATION_TICKS := 6

  /** The position after one tick of interpolation. */
  function Interpolated(pos: Vec3, recv: Vec3, ticks: int): Vec3 {
    if ticks < 0 then pos
    else if ticks > 0 then pos.Add(recv.Sub(pos).Over(ticks))
    else recv
  }

  function InterpolatedFor(pos: Vec3, recv: Vec3, ticks: int, n: nat): Vec3
    decreases n
  {
    if n == 0 then pos else InterpolatedFor(Interpolated(pos, recv, ticks), recv, ticks - 1, n - 1)
  }

  /** The interpolation arrives exactly where it was sent, and stays there. */
  lemma {:induction false} InterpolationArrives(pos: Vec3, recv: Vec3, ticks: nat, n: nat)
    requires 0 < ticks <= n
    ensures InterpolatedFor(pos, recv, ticks, n) == recv
    decreases n
  {
    var next := Interpolated(pos, recv, ticks);
    if ticks == 1 {
      assert next == recv;
      StaysAt(recv, 0, n - 1);
    } else {
      InterpolationArrives(next, recv, ticks - 1, n - 1);
    }
  }

  lemma {:induction false} StaysAt(recv: Vec3, ticks: int, n: nat)
    requires ticks <= 0
    ensures InterpolatedFor(recv, recv, ticks, n) == recv
    decreases n
  {
    if n > 0 { StaysAt(recv, ticks - 1, n - 1); }
  }

  /** On one axis, `at` is reached after n of the equal parts into which the way is divided. */
  predicate OnTheWay(from: real, to: real, ticks: real, n: real, at: real) {
    (at - from) * ticks == (to - from) * n
  }

  /** Until it arrives it moves on a straight line, the same distance in every tick. */
  lemma {:induction false} InterpolationIsStraight(pos: Vec3, recv: Vec3, ticks: nat, n: nat)
    requires 0 < ticks && n <= ticks
    ensures var at := InterpolatedFor(pos, recv, ticks, n);
      && OnTheWay(pos.x, recv.x, ticks as real, n as real, at.x)
      && OnTheWay(pos.y, recv.y, ticks as real, n as real, at.y)
      && OnTheWay(pos.z, recv.z, ticks as real, n as real, at.z)
    decreases n
  {
    if n == 0 {
    } else if ticks == 1 {
      InterpolationArrives(pos, recv, 1, 1);
    } else {
      hide OnTheWay;
      InterpolationIsStraight(Interpolated(pos, recv, ticks), recv, ticks - 1, n - 1);
      var at, t, k := InterpolatedFor(pos, recv, ticks, n), ticks as real, n as real;
      assert (ticks - 1) as real == t - 1.0 && (n - 1) as real == k - 1.0;
      OnePart(pos.x, recv.x, t, k, (recv.x - pos.x) / t, at.x);
      OnePart(pos.y, recv.y, t, k, (recv.y - pos.y) / t, at.y);
      OnePart(pos.z, recv.z, t, k, (recv.z - pos.z) / t, at.z);
    }
  }

  lemma OnePart(from: real, to: real, t: real, k: real, part: real, at: real)
    requires t > 1.0 && part == (to - from) / t && OnTheWay(from + part, to, t - 1.0, k - 1.0, at)
    ensures OnTheWay(from, to, t, k, at)
  {
    Divided(to - from, t, part);
    var next := from + part;
    assert (to - next) * (k - 1.0) == part * (k - 1.0) * (t - 1.0) by { assert to - next == part * (t - 1.0); }
    Cancel(at - next, part * (k - 1.0), t - 1.0);
    assert at - from == part * k;
    assert part * k * t == part * t * k;
  }

  lemma Divided(a: real, t: real, part: real)
    requires t > 0.0 && part == a / t
    ensures a == part * t
  {
  }

  lemma Cancel(a: real, b: real, c: real)
    requires c > 0.0 && a * c == b * c
    ensures a == b
  {
  }

  class Entity {
    var pos: Vec3
    var prevPos: Vec3
    var recvPos: Vec3
    var prevRecvPos: Vec3
    var velocity: Vec3
    var prevVelocity: Vec3
    var positionHistory: CircularQueue?<HistoricalPosition>
    var interpolationTicks: int
    var ticksSinceTeleport: int
    const isPlayer: bool
    const historySize: nat
    ghost var recorded: History

    /** The buffer holds the last of the recorded positions. */
    ghost predicate Valid()
      reads this, positionHistory, if positionHistory != null then {positionHistory.items} else {}
    {
      && historySize > 0
      && (positionHistory == null ==> recorded == [])
      && (positionHistory != null ==>
            && positionHistory.Valid() && positionHistory.size == positionHistory.items.Length == historySize
            && positionHistory.Contents() == HistoryOf(historySize, recorded))
    }

    constructor (pos: Vec3, historySize: nat, isPlayer: bool)
      requires historySize > 0
      ensures Valid() && recorded == [] && this.pos == recvPos == pos
          && interpolationTicks == ticksSinceTeleport == 0 && positionHistory != null
      ensures fresh(positionHistory) && fresh(positionHistory.items)
    {
      this.pos, prevPos, recvPos, prevRecvPos, velocity, prevVelocity := pos, pos, pos, ZERO, ZERO, ZERO;
      this.isPlayer, this.historySize, interpolationTicks, ticksSinceTeleport, recorded :=
        isPlayer, historySize, 0, 0, [];
      positionHistory := new CircularQueue(historySize, UNINITIALISED);
    }

    method ReceivePosition(hp: HistoricalPosition)
      modifies this`prevRecvPos, this`recvPos, this`interpolationTicks, this`ticksSinceTeleport
      ensures recvPos == hp.pos && prevRecvPos == old(recvPos)
      ensures interpolationTicks == if hp.teleport then 1 else if isPlayer then 3 else 6
      ensures ticksSinceTeleport == if hp.teleport then 0 else old(ticksSinceTeleport)
    {
      prevRecvPos := recvPos;
      recvPos := hp.pos;
      interpolationTicks := ENTITY_MOB_INTERPOLATION_TICKS;
      if isPlayer { interpolationTicks := ENTITY_PLAYER_INTERPOLATION_TICKS; }
      if hp.teleport {
        ticksSinceTeleport := 0;
        interpolationTicks := 1;
      }
    }

    method UpdatePosition(hp: HistoricalPosition)
      requires Valid() && positionHistory != null
      modifies this`pos, this`prevPos, this`velocity, this`prevVelocity, this`recorded, positionHistory,
          positionHistory.items
      ensures Valid() && recorded == old(recorded) + [hp]
      ensures pos == hp.pos && prevPos == old(pos) && velocity == hp.pos.Sub(old(pos)) && prevVelocity == old(velocity)
    {
      hide HistoryOf, Last;
      prevPos := pos;
      pos := hp.pos;
      prevVelocity := velocity;
      velocity := pos.Sub(prevPos);
      HistoryGrows(historySize, recorded, hp);
      var ok := positionHistory.Append(hp);
      recorded := recorded + [hp];
    }

    method Tick(tick: int)
      requires Valid() && positionHistory != null
      modifies this`pos, this`prevPos, this`velocity, this`prevVelocity, this`recorded, this`interpolationTicks,
               this`ticksSinceTeleport, positionHistory, positionHistory.items
      ensures Valid() && pos == Interpolated(old(pos), recvPos, old(interpolationTicks))
      ensures old(interpolationTicks) < 0 ==> pos == old(pos) && ticksSinceTeleport == old(ticksSinceTeleport)
      ensures old(interpolationTicks) >= 0 ==> ticksSinceTeleport == old(ticksSinceTeleport) + 1
      ensures prevPos == old(pos) && velocity == pos.Sub(old(pos)) && prevVelocity == old(velocity)
      ensures recorded == old(recorded) + [HistoricalPosition(pos, old(pos), false, tick)]
      ensures interpolationTicks == if old(interpolationTicks) < 0 then old(interpolationTicks)
          else old(interpolationTicks) - 1
    {
      if interpolationTicks < 0 {
        UpdatePosition(HistoricalPosition(pos, pos, false, tick));
        return;
      }
      var newPos := pos;
      if interpolationTicks > 0 {
        newPos := newPos.Add(recvPos.Sub(pos).Over(interpolationTicks));
      } else {
        newPos := recvPos;
      }
      UpdatePosition(HistoricalPosition(newPos, pos, false, tick));
      ticksSinceTeleport := ticksSinceTeleport + 1;
      interpolationTicks := interpolationTicks - 1;
    }

    /** Stops as soon as the distance grows; finds what the exhaustive search over the last positions finds. */
    method Rewind(tick: int) returns (r: Option<HistoricalPosition>)
      requires Valid() && Increasing(recorded)
      modifies this`positionHistory
      ensures Valid() && positionHistory != null && r == Nearest(Last(historySize, recorded), tick)
      ensures old(positionHistory) != null ==> positionHistory == old(positionHistory)
    {
      hide HistoryOf, Last;
      if positionHistory == null || positionHistory.size == 0 {
        assert recorded == [];
        positionHistory := new CircularQueue(historySize, UNINITIALISED);
        NoHistory(historySize, tick);
        return None;
      }
      HistoryIsOrdered(historySize, recorded);
      RewindFindsLatestNearest(historySize, recorded, tick);
      r := Scan(positionHistory.items, positionHistory.head, positionHistory.size, tick, positionHistory.Contents());
    }

    /** Looks at the slots from the oldest to the newest until the distance grows. */
    static method Scan(buf: array<HistoricalPosition>, head: nat, size: nat, tick: int, ghost history: History)
      returns (r: Option<HistoricalPosition>)
      requires head < buf.Length && size <= buf.Length && |history| == size && Ordered(history)
      requires forall i | 0 <= i < size ::
          history[i] == buf[if head + i < buf.Length then head + i else head + i - buf.Length]
      ensures r == Nearest(history, tick)
    {
      hide Ordered;
      var best, bestDelta, found := UNINITIALISED, 0, false;
      assert history[..size] == history;
      for i := 0 to size
        invariant Nearest(history[..i], tick) == if found then Some(best) else None
        invariant found ==> bestDelta == Distance(best, tick)
      {
        Wraps(head + i, buf.Length);
        var hp := buf[(head + i) % buf.Length];
        assert hp == history[i] && history[..i + 1][..i] == history[..i];
        if hp.tick == 0 { continue; }
        if hp.tick == tick {
          HitIsNearest(history, tick, i, size);
          return Some(hp);
        }
        var currentDelta := hp.tick - tick;
        if currentDelta < 0 { currentDelta := -currentDelta; }
        if !found || currentDelta <= bestDelta {
          best, bestDelta, found := hp, currentDelta, true;
          continue;
        }
        NearestIsWritten(history[..i], tick);
        RestIsFarther(history, tick, i, size);
        return Some(best);
      }
      r := if found then Some(best) else None;
    }

    static lemma NoHistory(capacity: nat, tick: int)
      requires capacity > 0
      ensures HistoryOf(capacity, []) == seq(capacity, _ => UNINITIALISED) && Nearest(Last(capacity, []), tick) == None
    {
      assert seq(capacity, _ => UNINITIALISED) + [] == seq(capacity, _ => UNINITIALISED);
    }
  }
}
