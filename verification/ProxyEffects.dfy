/** What the steps of a session add up to when nothing comes in between: a packet of the client, a packet of the
    backend, and a transfer, each from any state in which the loop can start. */
module ProxyEffects {
  import opened Common
  import opened ProxyPackets
  import opened StateTracker
  import opened ProxySession
  import opened ProxyRuns

  lemma {:induction false} AfterMore(s: State, a: seq<Step>, b: seq<Step>)
    ensures After(s, a + b) == After(After(s, a), b)
  {
    hide Next;
    if b == [] {
      assert a + b == a;
    } else {
      assert (a + b)[..|a + b| - 1] == a + b[..|b| - 1];
      AfterMore(s, a, b[..|b| - 1]);
    }
  }

  /** The first step and the others. */
  lemma FirstStep(s: State, steps: seq<Step>)
    requires steps != []
    ensures After(s, steps) == After(Next(s, steps[0]), steps[1..])
  {
    hide Next;
    var first := [steps[0]];
    assert steps == first + steps[1..] && first[..0] == [];
    AfterMore(s, first, steps[1..]);
  }

  // ----- one packet

  /** A packet of the client arrives at the current backend as the handler leaves it, about the entities of that
      backend, or nowhere; a request for another radius is remembered, and nothing else changes. */
  lemma ClientPacketArrives(s: State, pk: Packet, verdict: Packet -> Option<Packet>, works: bool)
    requires s.client == ReadingClient && s.lock == None && s.sh.current < |s.sh.conns|
    ensures var steps := [ClientReads(Some(pk)), ClientLocks, ClientHandles(verdict), ClientWrites(works),
                          ClientUnlocks];
            var t, at, conn := After(s, steps), s.sh.current, s.sh.conns[s.sh.current];
            match verdict(RewriteClient(s.sh.ids, pk))
            case None => t == s
            case Some(out) =>
              && t.sh == s.sh.(
                   chunkRadius := if out.RequestChunkRadius? then out.radius else s.sh.chunkRadius,
                   conns := if !works then s.sh.conns
                            else s.sh.conns[at := conn.(received := conn.received + [FromClient(out, s.sh.ids)])])
              && t.client == (if works then ReadingClient else ClientGone)
              && t.lock == None && t.server == s.server
  {
    hide RewriteClient;
    var s1 := ClientReadsStep(s, Some(pk));
    var s2 := ClientLocksStep(s1);
    var s3 := ClientHandlesStep(s2, verdict);
    var s4 := ClientWritesStep(s3, works);
    var s5 := ClientUnlocksStep(s4);
    Five(s, ClientReads(Some(pk)), ClientLocks, ClientHandles(verdict), ClientWrites(works), ClientUnlocks);
  }

  lemma Five(s: State, a: Step, b: Step, c: Step, d: Step, e: Step)
    ensures After(s, [a, b, c, d, e]) == Next(Next(Next(Next(Next(s, a), b), c), d), e)
  {
    hide Next;
    FirstStep(s, [a, b, c, d, e]);
    assert [a, b, c, d, e][1..] == [b, c, d, e];
    Four(Next(s, a), b, c, d, e);
  }

  lemma Four(s: State, a: Step, b: Step, c: Step, d: Step)
    ensures After(s, [a, b, c, d]) == Next(Next(Next(Next(s, a), b), c), d)
  {
    hide Next;
    FirstStep(s, [a, b, c, d]);
    assert [a, b, c, d][1..] == [b, c, d];
    FirstStep(Next(s, a), [b, c, d]);
    assert [b, c, d][1..] == [c, d];
    FirstStep(Next(Next(s, a), b), [c, d]);
    assert [c, d][1..] == [d] && [d][..0] == [];
  }

  /** Up to the lock: the backend loop sees the event of the current backend, unless the connection was rejected. */
  lemma BackendTakesLock(s: State, event: Event)
    requires s.server == Fetching && s.lock == None && !event.Rejects?
    ensures After(s, [BackendFetches, BackendReads(event), BackendChecks, BackendLocks])
         == s.(lock := Some(BackendLoop),
               server := if event.Sends? then Forwarding(s.sh.current, s.sh.generation, event.pk)
                         else Transferring(Starting, event.Breaks?, s.sh))
  {
    Four(s, BackendFetches, BackendReads(event), BackendChecks, BackendLocks);
    var s1 := BackendFetchesStep(s);
    var s2 := BackendReadsStep(s1, event);
    var s3 := BackendChecksStep(s2);
    var s4 := BackendLocksStep(s3);
  }

  /** A rejected login ends the backend loop; an event of a backend that was replaced meanwhile is dropped, whatever it
      was. */
  lemma EventsAreChecked(s: State)
    ensures s.server == Fetching ==> Next(Next(Next(s, BackendFetches), BackendReads(Rejects)), BackendChecks)
                                     == s.(server := BackendGone)
    ensures s.server.Arrived? && s.server.gen != s.sh.generation ==> Next(s, BackendChecks) == s.(server := Fetching)
  {
  }

  /** A packet of the current backend is shown as the handler leaves it, about the entities that the client knows, and
      recorded; the spawn of the client's own player and what the handler drops is neither. */
  lemma ServerPacketIsShown(s: State, pk: Packet, handle: Packet -> Option<Packet>, works: bool)
    requires s.server == Fetching && s.lock == None
    ensures var t := After(s, [BackendFetches, BackendReads(Sends(pk)), BackendChecks, BackendLocks]
                              + [Forwards(handle, works), BackendUnlocks]);
            var out := match handle(pk) case None => None case Some(handled) => RewriteServer(s.sh.ids, handled);
            match out
            case None => t == s
            case Some(shown) =>
              && t.sh == s.sh.(
                   tracked := Handled(s.sh.tracked, shown, s.sh.ids.clientRuntime),
                   shown := if !works then s.sh.shown
                            else s.sh.shown + [Shown(shown, s.sh.current, s.sh.generation, s.sh.generation, s.sh.ids)])
              && t.server == (if works then Fetching else BackendGone)
              && t.lock == None && t.client == s.client
  {
    hide RewriteServer, Handled;
    var first := [BackendFetches, BackendReads(Sends(pk)), BackendChecks, BackendLocks];
    AfterMore(s, first, [Forwards(handle, works), BackendUnlocks]);
    BackendTakesLock(s, Sends(pk));
    Two(After(s, first), Forwards(handle, works), BackendUnlocks);
    var s1 := ForwardsStep(After(s, first), handle, works);
    var s2 := BackendUnlocksStep(s1);
  }

  lemma Two(s: State, a: Step, b: Step)
    ensures After(s, [a, b]) == Next(Next(s, a), b)
  {
    hide Next;
    FirstStep(s, [a, b]);
    assert [a, b][1..] == [b] && [b][..0] == [];
  }

  // ----- a transfer

  const TAKES_LOCK := [BackendFetches, BackendReads(Transfers), BackendChecks, BackendLocks]

  /** The state of a session that another backend took over. */
  function TakenOver(sh: Shared, data: GameData, told: seq<Packet>, radius: Option<int>): Shared
    requires sh.current < |sh.conns|
  {
    var n, g := |sh.conns|, sh.generation + 1;
    var ids := Ids(sh.ids.clientRuntime, sh.ids.clientUnique, data.runtimeID, data.uniqueID);
    var asked := if radius.Some? then radius.value else sh.chunkRadius;
    Shared(sh.conns[sh.current := sh.conns[sh.current].(open := false)]
             + [Conn(data, true, [ChunkRequest(Clamped(asked))])],
           n, g, sh.routes + [n], ids, data.dimension, sh.chunkRadius, sh.hashes, NOTHING,
           sh.shown + seq(|told|, i requires 0 <= i < |told| => Shown(told[i], n, g, g, ids)), n)
  }

  /** A transfer in which everything works: the client is told to forget what it sees and to change its dimension, as
      the player it always was; the new backend is asked for chunks; the old connection is closed. */
  lemma TransferTakesOver(
    s: State, data: GameData, clearing: seq<Packet>, written: nat, radius: Option<int>)
    requires s.server == Fetching && s.lock == None && s.sh.current < |s.sh.conns| && data.hashes == s.sh.hashes
    requires Clears(clearing, s.sh.tracked, s.sh.ids.clientRuntime)
    requires written == |clearing| + |ResetPackets(s.sh.dimension, data)|
    ensures After(s, TAKES_LOCK + [Dials(Some(data)), ComparesHashes, Spawns(true), HandlerDecides(true)]
                     + [Swaps, Resets(clearing, written, radius, true), ClosesPrevious, BackendUnlocks])
         == s.(sh := TakenOver(s.sh, data,
                               clearing + ResetPackets(s.sh.dimension, data.(runtimeID := s.sh.ids.clientRuntime)),
                               radius))
  {
    hide Next, ResetPackets, Clears;
    var opening := [Dials(Some(data)), ComparesHashes, Spawns(true), HandlerDecides(true)];
    var closing := [Swaps, Resets(clearing, written, radius, true), ClosesPrevious, BackendUnlocks];
    AfterMore(s, TAKES_LOCK + opening, closing);
    AfterMore(s, TAKES_LOCK, opening);
    BackendTakesLock(s, Transfers);
    var locked := After(s, TAKES_LOCK);
    TransferOpens(locked, data);
    TransferCloses(s, After(locked, opening), data, clearing, written, radius);
  }

  /** The four steps up to the point where the handler has accepted the new connection. */
  lemma TransferOpens(s: State, data: GameData)
    requires s.server == Transferring(Starting, false, s.sh) && data.hashes == s.sh.hashes
    ensures After(s, [Dials(Some(data)), ComparesHashes, Spawns(true), HandlerDecides(true)])
         == At(s, Accepted(|s.sh.conns|)).(
              sh := s.sh.(conns := s.sh.conns + [Conn(data, true, [])], playerConn := |s.sh.conns|))
  {
    hide Next;
    Four(s, Dials(Some(data)), ComparesHashes, Spawns(true), HandlerDecides(true));
    var n, sh := |s.sh.conns|, s.sh.(conns := s.sh.conns + [Conn(data, true, [])]);
    NextDials(s, Some(data));
    NextCompares(At(s, Dialled(n)).(sh := sh));
    NextSpawns(At(s, Compatible(n)).(sh := sh), true);
    NextDecides(At(s, Spawned(n)).(sh := sh), true);
  }

  lemma NextDials(s: State, dial: Option<GameData>)
    requires In(s, Starting)
    ensures Next(s, Dials(dial))
         == match dial
            case None => At(s, Aborted)
            case Some(data) =>
              At(s, Dialled(|s.sh.conns|)).(sh := s.sh.(conns := s.sh.conns + [Conn(data, true, [])]))
  {
  }

  lemma NextCompares(s: State)
    requires s.server.Transferring? && s.server.phase.Dialled? && s.server.phase.next < |s.sh.conns|
    ensures var n := s.server.phase.next;
            Next(s, ComparesHashes) == if s.sh.conns[n].data.hashes == s.sh.hashes then At(s, Compatible(n))
                                       else At(s, Aborted).(sh := Closed(s.sh, n))
  {
  }

  lemma NextSpawns(s: State, works: bool)
    requires s.server.Transferring? && s.server.phase.Compatible?
    ensures var n := s.server.phase.next;
            Next(s, Spawns(works)) == if works then At(s, Spawned(n)) else At(s, Aborted).(sh := Closed(s.sh, n))
  {
  }

  lemma NextDecides(s: State, accepts: bool)
    requires s.server.Transferring? && s.server.phase.Spawned? && s.server.phase.next < |s.sh.conns|
    requires s.sh.conns[s.server.phase.next].data.hashes == s.sh.hashes
    ensures var n := s.server.phase.next;
            Next(s, HandlerDecides(accepts)) == if accepts then At(s, Accepted(n)).(sh := s.sh.(playerConn := n))
                                                else At(s, Aborted).(sh := Closed(s.sh, n))
  {
  }

  lemma NextSwaps(s: State)
    requires s.server.Transferring? && s.server.phase.Accepted? && s.server.phase.next < |s.sh.conns|
    ensures var n := s.server.phase.next; var data := s.sh.conns[n].data;
            Next(s, Swaps) == At(s, Swapped).(sh := s.sh.(
              current := n, generation := s.sh.generation + 1, routes := s.sh.routes + [n],
              ids := Ids(s.sh.ids.clientRuntime, s.sh.ids.clientUnique, data.runtimeID, data.uniqueID)))
  {
  }

  lemma NextResets(s: State, clearing: seq<Packet>, written: nat, radius: Option<int>)
    requires In(s, Swapped) && s.sh.current < |s.sh.conns| && Clears(clearing, s.sh.tracked, s.sh.ids.clientRuntime)
    requires s.sh.conns[s.sh.current].data.runtimeID == s.sh.ids.backendRuntime
    requires written == |clearing| + |ResetPackets(s.sh.dimension, s.sh.conns[s.sh.current].data)|
    ensures var at, conn := s.sh.current, s.sh.conns[s.sh.current]; var data := conn.data;
            var told := clearing + ResetPackets(s.sh.dimension, data.(runtimeID := s.sh.ids.clientRuntime));
            var asked := Clamped(if radius.Some? then radius.value else s.sh.chunkRadius);
            Next(s, Resets(clearing, written, radius, true)) == At(s, Synced(true)).(sh := s.sh.(
              tracked := NOTHING, shown := s.sh.shown + AsShown(s.sh, told), dimension := data.dimension,
              conns := s.sh.conns[at := conn.(received := conn.received + [ChunkRequest(asked)])]))
  {
    hide ResetPackets, Clears, Clamped, Rewritten, AsShown;
    var data := s.sh.conns[s.sh.current].data;
    ResetIsShown(s.sh.ids, s.sh.dimension, data);
    ResetLength(s.sh.dimension, data, s.sh.ids.clientRuntime);
  }

  lemma NextCloses(s: State)
    requires s.server.Transferring? && s.server.phase == Synced(true) && s.server.saved.current < |s.sh.conns|
    ensures var at := s.server.saved.current;
            Next(s, ClosesPrevious) == At(s, Committed(true)).(
              sh := s.sh.(conns := s.sh.conns[at := s.sh.conns[at].(open := false)]))
  {
  }

  lemma NextUnlocks(s: State)
    requires In(s, Committed(true))
    ensures Next(s, BackendUnlocks) == s.(lock := None, server := Fetching)
  {
  }

  lemma TransferCloses(before: State, s: State, data: GameData, clearing: seq<Packet>, written: nat,
                       radius: Option<int>)
    requires before.server == Fetching && before.lock == None && before.sh.current < |before.sh.conns|
    requires s.server == Transferring(Accepted(|before.sh.conns|), false, before.sh) && s.client == before.client
    requires s.sh == before.sh.(conns := before.sh.conns + [Conn(data, true, [])], playerConn := |before.sh.conns|)
    requires Clears(clearing, s.sh.tracked, s.sh.ids.clientRuntime)
    requires written == |clearing| + |ResetPackets(s.sh.dimension, data)|
    ensures After(s, [Swaps, Resets(clearing, written, radius, true), ClosesPrevious, BackendUnlocks])
         == before.(sh := TakenOver(before.sh, data,
              clearing + ResetPackets(s.sh.dimension, data.(runtimeID := s.sh.ids.clientRuntime)), radius))
  {
    hide Next, ResetPackets, Clears, Clamped;
    Four(s, Swaps, Resets(clearing, written, radius, true), ClosesPrevious, BackendUnlocks);
    NextSwaps(s);
    var s1 := Next(s, Swaps);
    NextResets(s1, clearing, written, radius);
    var s2 := Next(s1, Resets(clearing, written, radius, true));
    NextCloses(s2);
    var s3 := Next(s2, ClosesPrevious);
    NextUnlocks(s3);
    var told := clearing + ResetPackets(s.sh.dimension, data.(runtimeID := s.sh.ids.clientRuntime));
    var request := ChunkRequest(Clamped(if radius.Some? then radius.value else before.sh.chunkRadius));
    assert [] + [request] == [request];
    assert s3.sh.conns == TakenOver(before.sh, data, told, radius).conns;
    assert s3.sh.shown == TakenOver(before.sh, data, told, radius).shown;
  }

  lemma ResetLength(dimension: int, data: GameData, runtimeID: int)
    ensures |ResetPackets(dimension, data)| == |ResetPackets(dimension, data.(runtimeID := runtimeID))|
  {
  }

  /** A transfer that does not come about: nothing was dialled, the blocks are encoded otherwise, the spawn fails, or
      the handler refuses.  Nothing changes but the new connection, which is closed; without a connection to fall back
      to the loop ends. */
  lemma TransferIsAborted(s: State, dial: Option<GameData>, broken: bool, spawns: bool, accepts: bool)
    requires s.server == Fetching && s.lock == None
    requires dial.Some? && dial.value.hashes == s.sh.hashes && spawns ==> !accepts
    ensures var t := After(s,
              [BackendFetches, BackendReads(if broken then Breaks else Transfers), BackendChecks, BackendLocks]
              + [Dials(dial), ComparesHashes, Spawns(spawns), HandlerDecides(accepts)] + [BackendUnlocks]);
      && t.sh == s.sh.(conns := s.sh.conns + if dial.Some? then [Conn(dial.value, false, [])] else [])
      && t.server == (if broken then BackendGone else Fetching) && t.lock == None && t.client == s.client
  {
    hide Next;
    var event := if broken then Breaks else Transfers;
    var first := [BackendFetches, BackendReads(event), BackendChecks, BackendLocks];
    var then4 := [Dials(dial), ComparesHashes, Spawns(spawns), HandlerDecides(accepts)];
    AfterMore(s, first + then4, [BackendUnlocks]);
    AfterMore(s, first, then4);
    BackendTakesLock(s, event);
    var locked := After(s, first);
    OpeningAborts(locked, dial, spawns, accepts);
    var aborted := After(locked, then4);
    assert [BackendUnlocks][..0] == [];
    NextUnlocksAborted(aborted);
    assert s.sh.conns + [] == s.sh.conns;
  }

  lemma NextUnlocksAborted(s: State)
    requires In(s, Aborted)
    ensures After(s, [BackendUnlocks])
         == s.(lock := None, server := if s.server.fallback then BackendGone else Fetching)
  {
    assert [BackendUnlocks][..0] == [];
  }

  /** Further steps of the transfer change nothing once it is aborted. */
  lemma AbortedStays(s: State, step: Step)
    requires In(s, Aborted) && (step.ComparesHashes? || step.Spawns? || step.HandlerDecides?)
    ensures Next(s, step) == s
  {
  }

  lemma OpeningAborts(s: State, dial: Option<GameData>, spawns: bool, accepts: bool)
    requires In(s, Starting) && (dial.Some? && dial.value.hashes == s.sh.hashes && spawns ==> !accepts)
    ensures After(s, [Dials(dial), ComparesHashes, Spawns(spawns), HandlerDecides(accepts)])
         == At(s, Aborted).(
              sh := if dial.None? then s.sh else s.sh.(conns := s.sh.conns + [Conn(dial.value, false, [])]))
  {
    hide Next;
    Four(s, Dials(dial), ComparesHashes, Spawns(spawns), HandlerDecides(accepts));
    NextDials(s, dial);
    var s1 := Next(s, Dials(dial));
    if dial.None? {
      AbortedStays(s1, ComparesHashes);
      AbortedStays(s1, Spawns(spawns));
      AbortedStays(s1, HandlerDecides(accepts));
    } else {
      var n := |s.sh.conns|;
      assert Closed(s1.sh, n).conns == s.sh.conns + [Conn(dial.value, false, [])];
      NextCompares(s1);
      var s2 := Next(s1, ComparesHashes);
      if s2.server.phase.Aborted? {
        AbortedStays(s2, Spawns(spawns));
        AbortedStays(s2, HandlerDecides(accepts));
      } else {
        NextSpawns(s2, spawns);
        var s3 := Next(s2, Spawns(spawns));
        if s3.server.phase.Aborted? {
          AbortedStays(s3, HandlerDecides(accepts));
        } else {
          NextDecides(s3, accepts);
        }
      }
    }
  }

  /** A client that cannot be told everything, or a backend that cannot be asked for chunks, ends the session: the
      client has got the first packets, the old connection is closed, and the backend loop stops. */
  lemma TransferBreaksOff(s: State, clearing: seq<Packet>, written: nat, radius: Option<int>, works: bool)
    requires In(s, Swapped) && s.sh.current < |s.sh.conns| && Clears(clearing, s.sh.tracked, s.sh.ids.clientRuntime)
    requires s.sh.conns[s.sh.current].data.runtimeID == s.sh.ids.backendRuntime
    requires s.server.saved.current < |s.sh.conns|
    requires written < |clearing| + |ResetPackets(s.sh.dimension, s.sh.conns[s.sh.current].data)| || !works
    ensures var data, at := s.sh.conns[s.sh.current].data, s.server.saved.current;
            var told := clearing + ResetPackets(s.sh.dimension, data.(runtimeID := s.sh.ids.clientRuntime));
            After(s, [Resets(clearing, written, radius, works), ClosesPrevious, BackendUnlocks]) == s.(
              lock := None, server := BackendGone, sh := s.sh.(
              tracked := NOTHING,
              shown := s.sh.shown + AsShown(s.sh, if written < |told| then told[..written] else told),
              dimension := if written < |told| then s.sh.dimension else data.dimension,
              conns := s.sh.conns[at := s.sh.conns[at].(open := false)]))
  {
    hide ResetPackets, Clears, Clamped, Rewritten, AsShown, Next;
    var data := s.sh.conns[s.sh.current].data;
    ResetLength(s.sh.dimension, data, s.sh.ids.clientRuntime);
    ResetFails(s, clearing, written, radius, works);
    var s1 := Next(s, Resets(clearing, written, radius, works));
    FirstStep(s, [Resets(clearing, written, radius, works), ClosesPrevious, BackendUnlocks]);
    assert [Resets(clearing, written, radius, works), ClosesPrevious, BackendUnlocks][1..]
        == [ClosesPrevious, BackendUnlocks];
    Two(s1, ClosesPrevious, BackendUnlocks);
    EndsFailed(s1);
  }

  lemma ResetFails(s: State, clearing: seq<Packet>, written: nat, radius: Option<int>, works: bool)
    requires In(s, Swapped) && s.sh.current < |s.sh.conns| && Clears(clearing, s.sh.tracked, s.sh.ids.clientRuntime)
    requires s.sh.conns[s.sh.current].data.runtimeID == s.sh.ids.backendRuntime
    requires written < |clearing| + |ResetPackets(s.sh.dimension, s.sh.conns[s.sh.current].data)| || !works
    ensures var data := s.sh.conns[s.sh.current].data;
            var told := clearing + ResetPackets(s.sh.dimension, data.(runtimeID := s.sh.ids.clientRuntime));
            Next(s, Resets(clearing, written, radius, works)) == At(s, Synced(false)).(sh := s.sh.(
              tracked := NOTHING,
              shown := s.sh.shown + AsShown(s.sh, if written < |told| then told[..written] else told),
              dimension := if written < |told| then s.sh.dimension else data.dimension))
  {
    hide ResetPackets, Clears, Clamped, Rewritten, AsShown;
    var data := s.sh.conns[s.sh.current].data;
    ResetIsShown(s.sh.ids, s.sh.dimension, data);
    ResetLength(s.sh.dimension, data, s.sh.ids.clientRuntime);
  }

  lemma EndsFailed(s: State)
    requires s.server.Transferring? && s.server.phase == Synced(false) && s.server.saved.current < |s.sh.conns|
    ensures var at := s.server.saved.current;
            Next(Next(s, ClosesPrevious), BackendUnlocks) == s.(lock := None, server := BackendGone,
              sh := s.sh.(conns := s.sh.conns[at := s.sh.conns[at].(open := false)]))
  {
  }
}
