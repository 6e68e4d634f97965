/** The dimension that a session records for its client, over every run of the two loops, and the dimension that
    the client is really in. */
module ProxyDimensions {
  import opened Common
  import opened ProxyPackets
  import opened StateTracker
  import opened ProxySession
  import opened ProxyRuns

  /** Where the packets it was sent have taken the client. */
  function ActualDimension(data: GameData, s: State): int { DimensionAfter(data.dimension, Packets(s.sh.shown)) }

  /** The packets of the backend that a step writes to the client. */
  ghost function ForwardedBy(s: State, step: Step): seq<Packet> {
    var shown := Next(s, step).sh.shown;
    if step.Forwards? && |shown| > |s.sh.shown| then [shown[|s.sh.shown|].pk] else []
  }

  ghost predicate TakesReset(s: State, step: Step) { step.Resets? && Next(s, step).server != s.server }

  /** The packets of the backend that the client got since the last transfer, or since the start. */
  ghost function SinceReset(s: State, steps: seq<Step>): seq<Packet> {
    if steps == [] then []
    else
      var pre, step := steps[..|steps| - 1], steps[|steps| - 1];
      if TakesReset(After(s, pre), step) then [] else SinceReset(s, pre) + ForwardedBy(After(s, pre), step)
  }

  /** The packets of a reset; the client is told in which order to forget, and where it is now. */
  ghost function ResetOf(s: State, clearing: seq<Packet>): seq<Packet>
    requires s.sh.current < |s.sh.conns|
  {
    clearing + Rewritten(s.sh.ids, ResetPackets(s.sh.dimension, s.sh.conns[s.sh.current].data))
  }

  /** What a reset does to a client in some dimension. */
  lemma ResetTakesClient(s: State, clearing: seq<Packet>, actual: int)
    requires Inv(s) && Clears(clearing, s.sh.tracked, s.sh.ids.clientRuntime)
    ensures var target := s.sh.conns[s.sh.current].data.dimension;
      && DimensionAfter(actual, ResetOf(s, clearing)) == target
      && (EveryChangeMoves(actual, ResetOf(s, clearing))
          <==> actual != if s.sh.dimension == target then FakeDimension(s.sh.dimension, target) else target)
  {
    hide Rewritten, ResetPackets, EveryChangeMoves, DimensionAfter, FakeDimension;
    var data := s.sh.conns[s.sh.current].data;
    forall pk | pk in clearing
      ensures !pk.ChangeDimension?
    {
      var i :| 0 <= i < |clearing| && clearing[i] == pk;
      assert TakesAway(clearing[i]);
    }
    NoMoves(actual, clearing);
    MovesConcat(actual, clearing, Rewritten(s.sh.ids, ResetPackets(s.sh.dimension, data)));
    ResetIsShown(s.sh.ids, s.sh.dimension, data);
    ResetMovesClient(s.sh.dimension, actual, data.(runtimeID := s.sh.ids.clientRuntime));
  }

  ghost predicate Recorded(data: GameData, s: State, since: seq<Packet>) {
    Telling(s.server) ==> ActualDimension(data, s) == DimensionAfter(s.sh.dimension, since)
  }

  lemma ResetRecords(data: GameData, s: State, step: Step)
    requires Inv(s) && step.Resets? && TakesReset(s, step)
    ensures Recorded(data, Next(s, step), [])
  {
    hide Rewritten, ResetPackets, DimensionAfter, Clears, Inv;
    var t := Next(s, step);
    if Telling(t.server) {
      CurrentExists(s);
      var reset := ResetOf(s, step.clearing);
      assert Packets(t.sh.shown) == Packets(s.sh.shown) + reset;
      MovesConcat(data.dimension, Packets(s.sh.shown), reset);
      ResetTakesClient(s, step.clearing, ActualDimension(data, s));
      NoMoves(t.sh.dimension, []);
    }
  }

  lemma CurrentExists(s: State)
    requires Inv(s)
    ensures s.sh.current < |s.sh.conns|
  {
  }

  lemma ForwardRecords(data: GameData, s: State, step: Step, since: seq<Packet>)
    requires Recorded(data, s, since) && step.Forwards?
    ensures Recorded(data, Next(s, step), since + ForwardedBy(s, step))
  {
    hide RewriteServer, Handled, DimensionAfter;
    var t, more := Next(s, step), ForwardedBy(s, step);
    if Telling(t.server) {
      assert Packets(t.sh.shown) == Packets(s.sh.shown) + more;
      MovesConcat(data.dimension, Packets(s.sh.shown), more);
      MovesConcat(s.sh.dimension, since, more);
    }
  }

  lemma OtherRecords(data: GameData, s: State, step: Step, since: seq<Packet>)
    requires Recorded(data, s, since) && !step.Forwards? && !TakesReset(s, step)
    ensures Recorded(data, Next(s, step), since)
  {
    hide RewriteClient, RewriteServer, Rewritten, ResetPackets, Clears, DimensionAfter, Packets;
  }

  /** In every run, as long as the client's connection works, the client is where the recorded dimension and the
      packets forwarded since the last transfer take it: transfers are recorded, forwarded changes are not. */
  lemma {:induction false} RecordedDimension(data: GameData, steps: seq<Step>)
    ensures Recorded(data, After(Started(data), steps), SinceReset(Started(data), steps))
  {
    hide Next, Recorded, ForwardedBy, TakesReset, Inv;
    if steps == [] {
      StartIsRecorded(data);
    } else {
      var pre, step := steps[..|steps| - 1], steps[|steps| - 1];
      var s, since := After(Started(data), pre), SinceReset(Started(data), pre);
      RecordedDimension(data, pre);
      StartedKeeps(data);
      RunKeeps(Started(data), pre);
      if TakesReset(s, step) {
        OnlyResets(s, step);
        ResetRecords(data, s, step);
      } else if step.Forwards? {
        ForwardRecords(data, s, step, since);
      } else {
        OtherRecords(data, s, step, since);
        NothingForwarded(s, step, since);
      }
    }
  }

  lemma StartIsRecorded(data: GameData)
    ensures Recorded(data, Started(data), [])
  {
  }

  lemma OnlyResets(s: State, step: Step)
    requires TakesReset(s, step)
    ensures step.Resets?
  {
  }

  lemma NothingForwarded(s: State, step: Step, since: seq<Packet>)
    requires !step.Forwards?
    ensures since + ForwardedBy(s, step) == since
  {
  }

  /** When a transfer resets the client, every dimension change moves it, if and only if the packets forwarded
      since the transfer before have not taken it to where the first change leads. */
  lemma ResetMovesIff(data: GameData, steps: seq<Step>, clearing: seq<Packet>)
    requires var s := After(Started(data), steps);
             In(s, Swapped) && Clears(clearing, s.sh.tracked, s.sh.ids.clientRuntime)
    ensures var s := After(Started(data), steps);
      var actual := DimensionAfter(s.sh.dimension, SinceReset(Started(data), steps));
      && s.sh.current < |s.sh.conns| && actual == ActualDimension(data, s)
      && (EveryChangeMoves(actual, ResetOf(s, clearing))
          <==> actual != (var target := s.sh.conns[s.sh.current].data.dimension;
                          if s.sh.dimension == target then FakeDimension(s.sh.dimension, target) else target))
  {
    hide After, Inv, Clears, SinceReset, DimensionAfter, EveryChangeMoves, FakeDimension, ResetOf;
    var s := After(Started(data), steps);
    RecordedDimension(data, steps);
    StartedKeeps(data);
    RunKeeps(Started(data), steps);
    CurrentExists(s);
    ResetTakesClient(s, clearing, ActualDimension(data, s));
  }

  /** In every run whose backends send no dimension change between transfers, the record is right and every reset
      moves the client. */
  lemma ResetMovesWithoutChanges(data: GameData, steps: seq<Step>, clearing: seq<Packet>)
    requires forall pk | pk in SinceReset(Started(data), steps) :: !pk.ChangeDimension?
    ensures var s := After(Started(data), steps);
      && (Telling(s.server) ==> ActualDimension(data, s) == s.sh.dimension)
      && (In(s, Swapped) && Clears(clearing, s.sh.tracked, s.sh.ids.clientRuntime) ==>
            s.sh.current < |s.sh.conns| && EveryChangeMoves(ActualDimension(data, s), ResetOf(s, clearing)))
  {
    hide After, Clears, SinceReset, DimensionAfter, EveryChangeMoves, ResetOf;
    var s := After(Started(data), steps);
    RecordedDimension(data, steps);
    NoMoves(s.sh.dimension, SinceReset(Started(data), steps));
    if In(s, Swapped) && Clears(clearing, s.sh.tracked, s.sh.ids.clientRuntime) {
      ResetMovesIff(data, steps, clearing);
    }
  }

  // ----- a run in which a reset does not move the client

  lemma {:induction false} AfterAll(steps: seq<Step>, states: seq<State>)
    requires |states| == |steps| + 1
    requires forall i | 0 <= i < |steps| :: states[i + 1] == Next(states[i], steps[i])
    ensures After(states[0], steps) == states[|steps|]
  {
    hide Next;
    if steps != [] { AfterAll(steps[..|steps| - 1], states[..|steps|]); }
  }

  lemma {:induction false} AfterConcat(s: State, first: seq<Step>, second: seq<Step>)
    ensures After(s, first + second) == After(After(s, first), second)
  {
    hide Next;
    if second == [] {
      assert first + second == first;
    } else {
      var n := |second| - 1;
      assert (first + second)[..|first + second| - 1] == first + second[..n];
      AfterConcat(s, first, second[..n]);
    }
  }

  /** The backend sends the client to the nether. */
  ghost function NetherSteps(): seq<Step> {
    [BackendFetches, BackendReads(Sends(ChangeDimension(NETHER))), BackendChecks, BackendLocks,
     Forwards((pk: Packet) => Some(pk), true), BackendUnlocks]
  }

  /** The backend transfers the client. */
  ghost function TransferSteps(): seq<Step> { [BackendFetches, BackendReads(Transfers), BackendChecks, BackendLocks] }

  /** The transfer to another backend is committed up to the reset of the client. */
  ghost function CommitSteps(target: GameData): seq<Step> {
    [Dials(Some(target)), ComparesHashes, Spawns(true), HandlerDecides(true), Swaps]
  }

  ghost function StaleRun(target: GameData): seq<Step> { NetherSteps() + TransferSteps() + CommitSteps(target) }

  function InNether(data: GameData): State {
    var start := Started(data);
    start.(sh := start.sh.(shown := [Shown(ChangeDimension(NETHER), 0, 0, 0, start.sh.ids)]))
  }

  lemma NetherStepsTell(data: GameData)
    ensures After(Started(data), NetherSteps()) == InNether(data)
  {
    var s0, steps := Started(data), NetherSteps();
    var s1 := s0.(server := ReadingBackend(0, 0));
    var s2 := s0.(server := Arrived(0, 0, Sends(ChangeDimension(NETHER))));
    var s3 := s0.(server := Deciding(0, 0, Sends(ChangeDimension(NETHER))));
    var s4 := s0.(lock := Some(BackendLoop), server := Forwarding(0, 0, ChangeDimension(NETHER)));
    var s5 := InNether(data).(lock := Some(BackendLoop), server := ReleasingBackend(true));
    AfterAll(steps, [s0, s1, s2, s3, s4, s5, InNether(data)]);
  }

  function TransferringFrom(data: GameData): State {
    var s := InNether(data);
    s.(lock := Some(BackendLoop), server := Transferring(Starting, false, s.sh))
  }

  lemma TransferStepsLock(data: GameData)
    ensures After(InNether(data), TransferSteps()) == TransferringFrom(data)
  {
    var s0, steps := InNether(data), TransferSteps();
    var s1 := s0.(server := ReadingBackend(0, 0));
    var s2 := s0.(server := Arrived(0, 0, Transfers));
    var s3 := s0.(server := Deciding(0, 0, Transfers));
    AfterAll(steps, [s0, s1, s2, s3, TransferringFrom(data)]);
  }

  lemma CommitStepsSwap(data: GameData, target: GameData)
    requires target.hashes == data.hashes
    ensures var s := After(TransferringFrom(data), CommitSteps(target));
      && In(s, Swapped) && s.sh.current < |s.sh.conns| && s.sh.conns[s.sh.current].data == target
      && s.sh.dimension == data.dimension && Packets(s.sh.shown) == [ChangeDimension(NETHER)]
      && s.sh.tracked == NOTHING
  {
    var s0, steps := TransferringFrom(data), CommitSteps(target);
    var dialled := s0.sh.(conns := s0.sh.conns + [Conn(target, true, [])]);
    var s1 := At(s0, Dialled(1)).(sh := dialled);
    var s2 := At(s1, Compatible(1));
    var s3 := At(s1, Spawned(1));
    var s4 := At(s1, Accepted(1)).(sh := dialled.(playerConn := 1));
    var s5 := At(s4, Swapped).(sh := SwappedTo(s4.sh, 1));
    AfterAll(steps, [s0, s1, s2, s3, s4, s5]);
  }

  /** The backend sends the client to the nether and then transfers it to a backend that starts it there. */
  lemma StaleRunSwaps(data: GameData, target: GameData)
    requires data.dimension == OVERWORLD && target.dimension == NETHER && target.hashes == data.hashes
    ensures var s := After(Started(data), StaleRun(target));
      && In(s, Swapped) && s.sh.current < |s.sh.conns| && s.sh.conns[s.sh.current].data == target
      && s.sh.dimension == OVERWORLD && Packets(s.sh.shown) == [ChangeDimension(NETHER)] && s.sh.tracked == NOTHING
  {
    hide After, NetherSteps, TransferSteps, CommitSteps, InNether, TransferringFrom;
    NetherStepsTell(data);
    TransferStepsLock(data);
    CommitStepsSwap(data, target);
    AfterConcat(Started(data), NetherSteps(), TransferSteps());
    AfterConcat(Started(data), NetherSteps() + TransferSteps(), CommitSteps(target));
  }

  /** A run in which the reset of a transfer does not move the client, whatever the clear packets. */
  lemma StaleDimensionDoesNotMove(data: GameData, target: GameData, clearing: seq<Packet>)
    requires data.dimension == OVERWORLD && target.dimension == NETHER && target.hashes == data.hashes
    requires var s := After(Started(data), StaleRun(target)); Clears(clearing, NOTHING, s.sh.ids.clientRuntime)
    ensures var s := After(Started(data), StaleRun(target));
      && In(s, Swapped) && s.sh.current < |s.sh.conns|
      && ActualDimension(data, s) == NETHER && !EveryChangeMoves(NETHER, ResetOf(s, clearing))
  {
    hide After, Clears, ResetOf;
    StaleRunSwaps(data, target);
    var s := After(Started(data), StaleRun(target));
    ResetMovesIff(data, StaleRun(target), clearing);
  }
}
