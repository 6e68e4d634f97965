/** Clicks per second: a ring buffer with the clicks of each of the last twenty ticks, and their cached sum. */
module Clicks {
  import opened Common
  import opened CircularQueue

  const TICKS_PER_SECOND := 20

  datatype Event = Click(input: int) | Tick

  /** The number of clicks after the k-th last tick. */
  function Recent(events: seq<Event>, k: nat): nat {
    if events == [] || k == 0 then 0
    else
      var pre := events[..|events| - 1];
      match events[|events| - 1]
      case Click(_) => Recent(pre, k) + 1
      case Tick => Recent(pre, k - 1)
  }

  function Sum(buckets: seq<int>): int {
    if buckets == [] then 0 else Sum(buckets[..|buckets| - 1]) + buckets[|buckets| - 1]
  }

  lemma {:induction false} SumConcat(a: seq<int>, b: seq<int>)
    ensures Sum(a + b) == Sum(a) + Sum(b)
  {
    if b == [] {
      assert a + b == a;
    } else {
      assert (a + b)[..|a + b| - 1] == a + b[..|b| - 1];
      SumConcat(a, b[..|b| - 1]);
    }
  }

  /** One hand: the buckets, the cached sum, the inputs of the last two clicks. */
  datatype Hand = Hand(buckets: seq<int>, cps: int, delay: int, lastClick: int)

  function Zeros(n: nat): seq<int> { seq(n, _ => 0) }

  const IDLE := Hand(Zeros(TICKS_PER_SECOND), 0, 0, 0)

  function Clicked(h: Hand, input: int): Hand
    requires |h.buckets| == TICKS_PER_SECOND
  {
    var i := TICKS_PER_SECOND - 1;
    Hand(h.buckets[i := h.buckets[i] + 1], h.cps + 1, input - h.lastClick, input)
  }

  function Ticked(h: Hand): Hand
    requires |h.buckets| == TICKS_PER_SECOND
  {
    h.(buckets := h.buckets[1..] + [0], cps := h.cps - h.buckets[0])
  }

  function After(events: seq<Event>): (h: Hand)
    ensures |h.buckets| == TICKS_PER_SECOND
  {
    if events == [] then IDLE
    else
      var before := After(events[..|events| - 1]);
      match events[|events| - 1] case Click(input) => Clicked(before, input) case Tick => Ticked(before)
  }

  lemma {:induction false} SumOfZeros(n: nat)
    ensures Sum(Zeros(n)) == 0
  {
    if n > 0 {
      assert Zeros(n)[..n - 1] == Zeros(n - 1);
      SumOfZeros(n - 1);
    }
  }

  /** The newest k buckets hold the clicks after the k-th last tick. */
  lemma {:induction false} BucketsAreRecent(events: seq<Event>, k: nat)
    requires k <= TICKS_PER_SECOND
    ensures Sum(After(events).buckets[TICKS_PER_SECOND - k..]) == Recent(events, k)
  {
    var n := TICKS_PER_SECOND - k;
    if events == [] {
      assert IDLE.buckets[n..] == Zeros(k);
      SumOfZeros(k);
    } else if k > 0 {
      var before := After(events[..|events| - 1]).buckets;
      match events[|events| - 1]
      case Click(input) =>
        BucketsAreRecent(events[..|events| - 1], k);
        var clicked := Clicked(After(events[..|events| - 1]), input).buckets;
        assert clicked[n..][..k - 1] == before[n..][..k - 1];
      case Tick =>
        BucketsAreRecent(events[..|events| - 1], k - 1);
        assert (before[1..] + [0])[n..][..k - 1] == before[n + 1..];
    }
  }

  /** In every run the cached value is the sum of the buffer. */
  lemma {:induction false} CachedSumIsSum(events: seq<Event>)
    ensures After(events).cps == Sum(After(events).buckets)
  {
    if events == [] {
      SumOfZeros(TICKS_PER_SECOND);
    } else {
      var before := After(events[..|events| - 1]);
      CachedSumIsSum(events[..|events| - 1]);
      var last := TICKS_PER_SECOND - 1;
      match events[|events| - 1]
      case Click(input) => assert Clicked(before, input).buckets[..last] == before.buckets[..last];
      case Tick =>
        assert before.buckets == [before.buckets[0]] + before.buckets[1..];
        SumConcat([before.buckets[0]], before.buckets[1..]);
        SumConcat(before.buckets[1..], [0]);
        assert Sum([before.buckets[0]]) == before.buckets[0] by { assert [before.buckets[0]][..0] == []; }
        assert Sum([0]) == 0 by { assert [0][..0] == []; }
    }
  }

  /** In every run the cached value is the number of clicks in the last twenty ticks. */
  lemma ClicksPerSecond(events: seq<Event>)
    ensures After(events).cps == Recent(events, TICKS_PER_SECOND)
  {
    CachedSumIsSum(events);
    BucketsAreRecent(events, TICKS_PER_SECOND);
    assert After(events).buckets[0..] == After(events).buckets;
  }

  lemma {:induction false} TicksKeepClick(pre: seq<Event>, n: nat)
    ensures After(pre + seq(n, _ => Tick)).lastClick == After(pre).lastClick
    ensures After(pre + seq(n, _ => Tick)).delay == After(pre).delay
  {
    var events := pre + seq(n, _ => Tick);
    if n == 0 {
      assert events == pre;
    } else {
      assert events[..|events| - 1] == pre + seq(n - 1, _ => Tick);
      TicksKeepClick(pre, n - 1);
    }
  }

  lemma ClickAfter(pre: seq<Event>, input: int)
    ensures After(pre + [Click(input)]).lastClick == input
    ensures After(pre + [Click(input)]).delay == input - After(pre).lastClick
  {
    var events := pre + [Click(input)];
    assert events[..|events| - 1] == pre;
  }

  /** The delay is the number of inputs between a click and the one before it, however many ticks lie between and come
      after; the first click is counted from zero. */
  lemma DelayBetweenClicks(pre: seq<Event>, before: int, n: nat, input: int, m: nat)
    ensures After(pre + [Click(before)] + seq(n, _ => Tick) + [Click(input)] + seq(m, _ => Tick)).delay
         == input - before
    ensures After(seq(n, _ => Tick) + [Click(input)] + seq(m, _ => Tick)).delay == input
  {
    hide After;
    var first := pre + [Click(before)];
    ClickAfter(pre, before);
    TicksKeepClick(first, n);
    ClickAfter(first + seq(n, _ => Tick), input);
    TicksKeepClick(first + seq(n, _ => Tick) + [Click(input)], m);
    NoClickYet(n);
    ClickAfter(seq(n, _ => Tick), input);
    TicksKeepClick(seq(n, _ => Tick) + [Click(input)], m);
  }

  lemma NoClickYet(n: nat)
    ensures After(seq(n, _ => Tick)).lastClick == 0
  {
    TicksKeepClick([], n);
    assert [] + seq(n, _ => Tick) == seq(n, _ => Tick);
  }

  class HandClicks {
    var clicks: CircularQueue<int>
    var cps: int
    var delay: int
    var lastClick: int

    /** The buffer is always full, which is what the recovery branches below would otherwise restore. */
    ghost predicate Valid()
      reads this, clicks
    {
      clicks.Valid() && clicks.size == clicks.items.Length == TICKS_PER_SECOND
    }

    ghost function Model(): Hand
      reads this, clicks, clicks.items
      requires Valid()
    {
      Hand(clicks.Contents(), cps, delay, lastClick)
    }

    constructor ()
      ensures Valid() && fresh(clicks) && fresh(clicks.items) && Model() == IDLE
    {
      clicks := new CircularQueue(TICKS_PER_SECOND, 0);
      cps, delay, lastClick := 0, 0, 0;
    }

    /** Moves on to the next bucket. */
    method Tick()
      requires Valid()
      modifies this`cps, clicks, clicks.items
      ensures Valid() && Model() == Ticked(old(Model()))
    {
      var oldest := clicks.Get(0);
      match oldest {
        case None => assert false;
        case Some(count) => cps := cps - count;
      }
      ghost var buckets := clicks.Contents();
      assert Last(TICKS_PER_SECOND, buckets + [0]) == buckets[1..] + [0];
      var ok := clicks.Append(0);
    }

    method Click(inputCount: int)
      requires Valid()
      modifies this`cps, this`delay, this`lastClick, clicks.items
      ensures Valid() && Model() == Clicked(old(Model()), inputCount)
    {
      var index := clicks.size - 1;
      var current := clicks.Get(index);
      match current {
        case None => assert false;
        case Some(count) =>
          var ok := clicks.Set(index, count + 1);
          assert ok;
          cps := cps + 1;
          delay := inputCount - lastClick;
          lastClick := inputCount;
      }
    }
  }

  class ClicksComponent {
    const left: HandClicks
    const right: HandClicks

    ghost predicate Valid()
      reads left, right, left.clicks, right.clicks
    {
      && left != right && left.clicks != right.clicks && left.clicks.items != right.clicks.items
      && left.Valid() && right.Valid()
    }

    constructor ()
      ensures Valid() && left.Model() == IDLE && right.Model() == IDLE
    {
      left := new HandClicks();
      right := new HandClicks();
    }

    /** Both hands move on together, a click of one hand leaves the other alone. */
    method Tick()
      requires Valid()
      modifies left`cps, right`cps, left.clicks, right.clicks, left.clicks.items, right.clicks.items
      ensures Valid() && left.Model() == Ticked(old(left.Model())) && right.Model() == Ticked(old(right.Model()))
    {
      left.Tick();
      right.Tick();
    }

    method ClickLeft(inputCount: int)
      requires Valid()
      modifies left`cps, left`delay, left`lastClick, left.clicks.items
      ensures Valid() && left.Model() == Clicked(old(left.Model()), inputCount) && right.Model() == old(right.Model())
    {
      left.Click(inputCount);
    }

    method ClickRight(inputCount: int)
      requires Valid()
      modifies right`cps, right`delay, right`lastClick, right.clicks.items
      ensures Valid() && right.Model() == Clicked(old(right.Model()), inputCount) && left.Model() == old(left.Model())
    {
      right.Click(inputCount);
    }
  }
}
