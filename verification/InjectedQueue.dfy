/** The packets that an embedded server session reads: injected ones first in, first out, from a slice that is
    compacted in place, with a wake-up channel of one slot for the reader. */
module InjectedQueue {
  import opened Common

  const COMPACT_AT := 64

  class SessionConn<T(==)> {
    var injected: seq<Option<T>>
    var injectedHead: nat

    /** Slots before the head were given out, the others hold packets. */
    ghost predicate Valid()
      reads this
    {
      && injectedHead <= |injected| && (injected != [] ==> injectedHead < |injected|)
      && (forall i | 0 <= i < |injected| :: injected[i].Some? <==> i >= injectedHead)
    }

    ghost function Queue(): (r: seq<T>)
      reads this
      requires Valid()
      ensures |r| == |injected| - injectedHead && forall i | 0 <= i < |r| :: Some(r[i]) == injected[injectedHead + i]
    {
      seq(|injected| - injectedHead, i requires 0 <= i < |injected| - injectedHead && Valid() reads this =>
        injected[injectedHead + i].value)
    }

    constructor ()
      ensures Valid() && Queue() == []
    {
      injected, injectedHead := [], 0;
    }

    method Enqueue(pk: T)
      requires Valid()
      modifies this
      ensures Valid() && Queue() == old(Queue()) + [pk]
    {
      injected := injected + [Some(pk)];
    }

    /** Gives out the oldest packet.  At least half of the slice is packets, or less than a fixed number is not. */
    method PopInjected() returns (r: Option<T>)
      requires Valid()
      modifies this
      ensures Valid() && r == (if old(Queue()) == [] then None else Some(old(Queue())[0]))
      ensures Queue() == if old(Queue()) == [] then [] else old(Queue())[1..]
      ensures old(Queue()) != [] ==> injectedHead < COMPACT_AT || 2 * injectedHead < |injected|
    {
      if injectedHead == |injected| { return None; }
      r := injected[injectedHead];
      injected := injected[injectedHead := None];
      injectedHead := injectedHead + 1;
      if injectedHead == |injected| {
        injected, injectedHead := [], 0;
      } else if injectedHead >= COMPACT_AT && injectedHead * 2 >= |injected| {
        injected, injectedHead := injected[injectedHead..], 0;
      }
    }
  }

  // ----- every interleaving of the reader and any number of producers

  /** A producer adds a packet in one step and leaves a wake-up in another.  The reader first looks at the queue;
      only if it is empty does it wait for a wake-up or for the client. */
  datatype ReaderAt = Looking | Waiting | Handling

  datatype State<T> = State(queue: seq<T>, token: bool, toNotify: nat, reader: ReaderAt, added: seq<T>, given: seq<T>)

  datatype Step<T> = Adds(pk: T) | Notifies | Looks | TakesToken | ReadsClient | Handled

  function Start<T>(): State<T> { State([], false, 0, Looking, [], []) }

  /** One step; a step that cannot be taken now changes nothing. */
  function Next<T>(s: State<T>, step: Step<T>): State<T> {
    match step
    case Adds(pk) => s.(queue := s.queue + [pk], added := s.added + [pk], toNotify := s.toNotify + 1)
    case Notifies => if s.toNotify > 0 then s.(toNotify := s.toNotify - 1, token := true) else s
    case Looks =>
      if !s.reader.Looking? then s
      else if s.queue == [] then s.(reader := Waiting)
      else s.(queue := s.queue[1..], given := s.given + [s.queue[0]])
    case TakesToken => if s.reader.Waiting? && s.token then s.(token := false, reader := Looking) else s
    case ReadsClient => if s.reader.Waiting? then s.(reader := Handling) else s
    case Handled => if s.reader.Handling? then s.(reader := Looking) else s
  }

  function After<T>(steps: seq<Step<T>>): State<T> {
    if steps == [] then Start() else Next(After(steps[..|steps| - 1]), steps[|steps| - 1])
  }

  /** Packets come out once each, in the order in which they went in. */
  lemma {:induction false} GivenInOrder<T>(steps: seq<Step<T>>)
    ensures After(steps).added == After(steps).given + After(steps).queue
  {
    if steps != [] {
      var s := After(steps[..|steps| - 1]);
      GivenInOrder(steps[..|steps| - 1]);
      if steps[|steps| - 1].Looks? && s.reader.Looking? && s.queue != [] {
        assert s.queue == [s.queue[0]] + s.queue[1..];
      }
    }
  }

  /** No wake-up is lost: a reader that waits although there are packets finds a wake-up in the channel, or a
      producer is about to leave one. */
  lemma {:induction false} WakeUpIsComing<T>(steps: seq<Step<T>>)
    ensures var s := After(steps); s.reader.Waiting? && s.queue != [] ==> s.token || s.toNotify > 0
  {
    if steps != [] { WakeUpIsComing(steps[..|steps| - 1]); }
  }

  /** So a waiting reader is at most one wake-up away from the oldest packet. */
  lemma WaitingReaderIsServed<T>(steps: seq<Step<T>>)
    requires After(steps).reader.Waiting? && After(steps).queue != []
    ensures var s := After(steps);
            var woken := if s.token then steps + [TakesToken, Looks] else steps + [Notifies, TakesToken, Looks];
            After(woken).given == s.given + [s.queue[0]]
  {
    WakeUpIsComing(steps);
    var s := After(steps);
    if s.token {
      AfterMore(steps, TakesToken);
      AfterMore(steps + [TakesToken], Looks);
      assert steps + [TakesToken, Looks] == steps + [TakesToken] + [Looks];
    } else {
      AfterMore(steps, Notifies);
      AfterMore(steps + [Notifies], TakesToken);
      AfterMore(steps + [Notifies] + [TakesToken], Looks);
      assert steps + [Notifies, TakesToken, Looks] == steps + [Notifies] + [TakesToken] + [Looks];
    }
  }

  /** How often the reader was woken. */
  function Woken<T>(steps: seq<Step<T>>): nat {
    if steps == [] then 0
    else
      var pre := steps[..|steps| - 1];
      Woken(pre) + if steps[|steps| - 1].TakesToken? && After(pre).reader.Waiting? && After(pre).token then 1 else 0
  }

  /** No wake-up is invented: the reader is woken at most once for each packet. */
  lemma {:induction false} WokenByPackets<T>(steps: seq<Step<T>>)
    ensures var s := After(steps); Woken(steps) + s.toNotify + (if s.token then 1 else 0) <= |s.added|
  {
    if steps != [] { WokenByPackets(steps[..|steps| - 1]); }
  }

  /** A client packet is handled before the reader looks at the queue again. */
  lemma HandlingIsFinished<T>(steps: seq<Step<T>>, step: Step<T>)
    requires After(steps).reader.Handling?
    ensures After(steps + [step]).reader.Handling? <==> step != Handled
    ensures After(steps + [step]).given == After(steps).given
  {
    AfterMore(steps, step);
  }

  /** Neither side starves the other: a reader with nothing queued gets to the client's packet, and after that it looks
      at the queue first. */
  lemma ReaderTakesTurns<T>(steps: seq<Step<T>>)
    ensures var s := After(steps); s.reader.Looking? && s.queue == [] ==>
              After(steps + [Looks, ReadsClient]).reader.Handling?
    ensures var s := After(steps); s.reader.Handling? && s.queue != [] ==>
              After(steps + [Handled, Looks]) == s.(
                reader := Looking, given := s.given + [s.queue[0]], queue := s.queue[1..])
  {
    AfterMore(steps, Looks);
    AfterMore(steps + [Looks], ReadsClient);
    assert steps + [Looks, ReadsClient] == steps + [Looks] + [ReadsClient];
    AfterMore(steps, Handled);
    AfterMore(steps + [Handled], Looks);
    assert steps + [Handled, Looks] == steps + [Handled] + [Looks];
  }

  lemma AfterMore<T>(steps: seq<Step<T>>, step: Step<T>)
    ensures After(steps + [step]) == Next(After(steps), step)
  {
    assert (steps + [step])[..|steps|] == steps;
  }
}
