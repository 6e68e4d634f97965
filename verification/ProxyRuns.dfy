/** Every interleaving of a session's two loops.  The client loop and the backend loop share the routing lock; what
    one loop does between two operations on shared state is one step, and a schedule is any list of steps. */
module ProxyRuns {
  import opened Common
  import opened ProxyPackets
  import opened StateTracker
  import opened ProxySession

  /** A client packet as a backend got it, with the IDs it was rewritten with, or the request for chunks. */
  datatype Delivery = FromClient(pk: Packet, ids: Ids) | ChunkRequest(radius: int)

  datatype Conn = Conn(data: GameData, open: bool, received: seq<Delivery>)

  /** A packet the client got: the connection and generation it was read from, the generation it was written in. */
  datatype Shown = Shown(pk: Packet, conn: nat, readAt: nat, shownAt: nat, ids: Ids)

  /** Everything the loops share.  The connection of generation g is routes[g]. */
  datatype Shared = Shared(
    conns: seq<Conn>, current: nat, generation: nat, routes: seq<nat>, ids: Ids, dimension: int, chunkRadius: int,
    hashes: bool, tracked: Tracked, shown: seq<Shown>, playerConn: nat)

  datatype Loop = ClientLoop | BackendLoop

  datatype ClientAt =
    | ReadingClient | HasPacket(pk: Packet) | Holding(pk: Packet) | Ready(pk: Packet, ids: Ids)
    | ReleasingClient(ok: bool) | ClientGone

  datatype Event = Sends(pk: Packet) | Transfers | Breaks | Rejects

  datatype Phase =
    | Starting | Dialled(next: nat) | Compatible(next: nat) | Spawned(next: nat) | Accepted(next: nat)
    | Swapped | Synced(ok: bool) | Committed(ok: bool) | Aborted

  datatype BackendAt =
    | Fetching | ReadingBackend(conn: nat, gen: nat) | Arrived(conn: nat, gen: nat, event: Event)
    | Deciding(conn: nat, gen: nat, event: Event) | Forwarding(conn: nat, gen: nat, pk: Packet)
    | ReleasingBackend(ok: bool) | Transferring(phase: Phase, fallback: bool, saved: Shared) | BackendGone

  datatype State = State(sh: Shared, lock: Option<Loop>, client: ClientAt, server: BackendAt)

  datatype Step =
    | ClientReads(input: Option<Packet>) | ClientLocks | ClientHandles(verdict: Packet -> Option<Packet>)
    | ClientWrites(works: bool) | ClientUnlocks
    | BackendFetches | BackendReads(event: Event) | BackendChecks | BackendLocks
    | Forwards(handle: Packet -> Option<Packet>, works: bool) | BackendUnlocks
    | Dials(dial: Option<GameData>) | ComparesHashes | Spawns(works: bool) | HandlerDecides(accepts: bool) | Swaps
    | Resets(clearing: seq<Packet>, written: nat, radius: Option<int>, works: bool) | ClosesPrevious

  function IdsFor(ids: Ids, data: GameData): Ids {
    ids.(backendRuntime := data.runtimeID, backendUnique := data.uniqueID)
  }

  // ----- the client loop

  function ClientReadsStep(s: State, input: Option<Packet>): State {
    if s.client != ReadingClient then s
    else s.(client := match input case Some(pk) => HasPacket(pk) case None => ClientGone)
  }

  function ClientLocksStep(s: State): State {
    if !s.client.HasPacket? || s.lock.Some? then s
    else s.(lock := Some(ClientLoop), client := Holding(s.client.pk))
  }

  function ClientHandlesStep(s: State, verdict: Packet -> Option<Packet>): State {
    if !s.client.Holding? then s
    else
      match verdict(RewriteClient(s.sh.ids, s.client.pk))
      case None => s.(client := ReleasingClient(true))
      case Some(pk) =>
        s.(client := Ready(pk, s.sh.ids),
           sh := if pk.RequestChunkRadius? then s.sh.(chunkRadius := pk.radius) else s.sh)
  }

  function Delivered(sh: Shared, delivery: Delivery): Shared
    requires sh.current < |sh.conns|
  {
    var conn := sh.conns[sh.current];
    sh.(conns := sh.conns[sh.current := conn.(received := conn.received + [delivery])])
  }

  function ClientWritesStep(s: State, works: bool): State {
    if !s.client.Ready? || s.sh.current >= |s.sh.conns| then s
    else if !works then s.(client := ReleasingClient(false))
    else s.(client := ReleasingClient(true), sh := Delivered(s.sh, FromClient(s.client.pk, s.client.ids)))
  }

  function ClientUnlocksStep(s: State): State {
    if !s.client.ReleasingClient? then s
    else s.(lock := None, client := if s.client.ok then ReadingClient else ClientGone)
  }

  // ----- the backend loop

  function BackendFetchesStep(s: State): State {
    if s.server != Fetching then s else s.(server := ReadingBackend(s.sh.current, s.sh.generation))
  }

  function BackendReadsStep(s: State, event: Event): State {
    if !s.server.ReadingBackend? then s else s.(server := Arrived(s.server.conn, s.server.gen, event))
  }

  function BackendChecksStep(s: State): State {
    if !s.server.Arrived? then s
    else if s.server.gen != s.sh.generation then s.(server := Fetching)
    else if s.server.event.Rejects? then s.(server := BackendGone)
    else s.(server := Deciding(s.server.conn, s.server.gen, s.server.event))
  }

  function BackendLocksStep(s: State): State {
    if !s.server.Deciding? || s.lock.Some? then s
    else
      s.(lock := Some(BackendLoop),
         server := if s.server.event.Sends? then Forwarding(s.server.conn, s.server.gen, s.server.event.pk)
                   else Transferring(Starting, s.server.event.Breaks?, s.sh))
  }

  function ForwardsStep(s: State, handle: Packet -> Option<Packet>, works: bool): State {
    if !s.server.Forwarding? then s
    else
      match handle(s.server.pk)
      case None => s.(server := ReleasingBackend(true))
      case Some(handled) =>
        match RewriteServer(s.sh.ids, handled)
        case None => s.(server := ReleasingBackend(true))
        case Some(pk) =>
          var tracked := Handled(s.sh.tracked, pk, s.sh.ids.clientRuntime);
          if works then
            var shown := Shown(pk, s.server.conn, s.server.gen, s.sh.generation, s.sh.ids);
            s.(sh := s.sh.(tracked := tracked, shown := s.sh.shown + [shown]), server := ReleasingBackend(true))
          else s.(sh := s.sh.(tracked := tracked), server := ReleasingBackend(false))
  }

  function BackendUnlocksStep(s: State): State {
    match s.server
    case ReleasingBackend(ok) => s.(lock := None, server := if ok then Fetching else BackendGone)
    case Transferring(Aborted, fallback, _) => s.(lock := None, server := if fallback then BackendGone else Fetching)
    case Transferring(Committed(ok), _, _) => s.(lock := None, server := if ok then Fetching else BackendGone)
    case _ => s
  }

  // ----- a transfer, while the routing lock is held

  function At(s: State, phase: Phase): State
    requires s.server.Transferring?
  {
    s.(server := s.server.(phase := phase))
  }

  predicate In(s: State, phase: Phase) { s.server.Transferring? && s.server.phase == phase }

  function DialsStep(s: State, dial: Option<GameData>): State {
    if !In(s, Starting) then s
    else
      match dial
      case None => At(s, Aborted)
      case Some(data) =>
        At(s, Dialled(|s.sh.conns|)).(sh := s.sh.(conns := s.sh.conns + [Conn(data, true, [])]))
  }

  function Closed(sh: Shared, conn: nat): Shared {
    if conn < |sh.conns| then sh.(conns := sh.conns[conn := sh.conns[conn].(open := false)]) else sh
  }

  function AbortedWith(s: State, next: nat): State
    requires s.server.Transferring?
  {
    At(s, Aborted).(sh := Closed(s.sh, next))
  }

  function ComparesHashesStep(s: State): State {
    match s.server
    case Transferring(Dialled(next), _, _) =>
      if next < |s.sh.conns| && s.sh.conns[next].data.hashes == s.sh.hashes then At(s, Compatible(next))
      else AbortedWith(s, next)
    case _ => s
  }

  function SpawnsStep(s: State, works: bool): State {
    match s.server
    case Transferring(Compatible(next), _, _) => if works then At(s, Spawned(next)) else AbortedWith(s, next)
    case _ => s
  }

  /** A handler may refuse for a reason of its own, and the player refuses another block encoding. */
  function HandlerDecidesStep(s: State, accepts: bool): State {
    match s.server
    case Transferring(Spawned(next), _, _) =>
      if accepts && next < |s.sh.conns| && s.sh.conns[next].data.hashes == s.sh.hashes then
        At(s, Accepted(next)).(sh := s.sh.(playerConn := next))
      else AbortedWith(s, next)
    case _ => s
  }

  function SwappedTo(sh: Shared, next: nat): Shared
    requires next < |sh.conns|
  {
    sh.(current := next, generation := sh.generation + 1, routes := sh.routes + [next],
        ids := IdsFor(sh.ids, sh.conns[next].data))
  }

  function SwapsStep(s: State): State {
    match s.server
    case Transferring(Accepted(next), _, _) =>
      if next < |s.sh.conns| then At(s, Swapped).(sh := SwappedTo(s.sh, next)) else s
    case _ => s
  }

  /** The packets of a reset as entries of the client's log. */
  function AsShown(sh: Shared, packets: seq<Packet>): seq<Shown> {
    seq(|packets|, i requires 0 <= i < |packets| => Shown(packets[i], sh.current, sh.generation, sh.generation, sh.ids))
  }

  /** `clearing` must be what the tracker produces; `written` packets arrive before the client's connection fails,
      if that happens at all. */
  ghost function ResetsStep(s: State, clearing: seq<Packet>, written: nat, radius: Option<int>, works: bool): State {
    if !In(s, Swapped) || s.sh.current >= |s.sh.conns| || !Clears(clearing, s.sh.tracked, s.sh.ids.clientRuntime) then s
    else
      var data := s.sh.conns[s.sh.current].data;
      var all := clearing + Rewritten(s.sh.ids, ResetPackets(s.sh.dimension, data));
      var arrived := if written < |all| then all[..written] else all;
      var told := s.sh.(tracked := NOTHING, shown := s.sh.shown + AsShown(s.sh, arrived));
      if written < |all| then At(s, Synced(false)).(sh := told)
      else
        var moved := told.(dimension := data.dimension);
        if !works then At(s, Synced(false)).(sh := moved)
        else
          var request := ChunkRequest(Clamped(if radius.Some? then radius.value else s.sh.chunkRadius));
          At(s, Synced(true)).(sh := Delivered(moved, request))
  }

  function ClosesPreviousStep(s: State): State {
    match s.server
    case Transferring(Synced(ok), _, saved) => At(s, Committed(ok)).(sh := Closed(s.sh, saved.current))
    case _ => s
  }

  /** One step; a step that its loop cannot take now changes nothing. */
  ghost function Next(s: State, step: Step): State {
    match step
    case ClientReads(input) => ClientReadsStep(s, input)
    case ClientLocks => ClientLocksStep(s)
    case ClientHandles(verdict) => ClientHandlesStep(s, verdict)
    case ClientWrites(works) => ClientWritesStep(s, works)
    case ClientUnlocks => ClientUnlocksStep(s)
    case BackendFetches => BackendFetchesStep(s)
    case BackendReads(event) => BackendReadsStep(s, event)
    case BackendChecks => BackendChecksStep(s)
    case BackendLocks => BackendLocksStep(s)
    case Forwards(handle, works) => ForwardsStep(s, handle, works)
    case BackendUnlocks => BackendUnlocksStep(s)
    case Dials(dial) => DialsStep(s, dial)
    case ComparesHashes => ComparesHashesStep(s)
    case Spawns(works) => SpawnsStep(s, works)
    case HandlerDecides(accepts) => HandlerDecidesStep(s, accepts)
    case Swaps => SwapsStep(s)
    case Resets(clearing, written, radius, works) => ResetsStep(s, clearing, written, radius, works)
    case ClosesPrevious => ClosesPreviousStep(s)
  }

  ghost function After(s: State, steps: seq<Step>): State {
    if steps == [] then s else Next(After(s, steps[..|steps| - 1]), steps[|steps| - 1])
  }

  /** A session whose first backend was started. */
  function Started(data: GameData): State {
    var ids := Ids(data.runtimeID, data.uniqueID, data.runtimeID, data.uniqueID);
    State(Shared([Conn(data, true, [])], 0, 0, [0], ids, data.dimension, data.chunkRadius, data.hashes, NOTHING, [], 0),
          None, ReadingClient, Fetching)
  }

  // ----- what every step keeps

  predicate ClientHolds(at: ClientAt) { at.Holding? || at.Ready? || at.ReleasingClient? }

  predicate BackendHolds(at: BackendAt) { at.Forwarding? || at.ReleasingBackend? || at.Transferring? }

  predicate Exclusive(s: State) {
    && (ClientHolds(s.client) <==> s.lock == Some(ClientLoop))
    && (BackendHolds(s.server) <==> s.lock == Some(BackendLoop))
  }

  /** Every client packet was rewritten with the IDs of the backend that got it. */
  predicate DeliveredRight(sh: Shared) {
    forall c, i | 0 <= c < |sh.conns| && 0 <= i < |sh.conns[c].received| && sh.conns[c].received[i].FromClient? ::
      sh.conns[c].received[i].ids == IdsFor(sh.ids, sh.conns[c].data)
  }

  predicate RoutedRight(sh: Shared, e: Shown) {
    && e.readAt == e.shownAt <= sh.generation && |sh.routes| == sh.generation + 1
    && e.conn == sh.routes[e.readAt] < |sh.conns|
    && e.ids == IdsFor(sh.ids, sh.conns[e.conn].data)
  }

  /** Every packet the client got came from the backend of the generation it was written in, rewritten with the
      IDs of that backend, and generations never go back. */
  predicate ShownRight(sh: Shared) {
    && (forall i | 0 <= i < |sh.shown| :: RoutedRight(sh, sh.shown[i]))
    && (forall i, j | 0 <= i < j < |sh.shown| :: sh.shown[i].shownAt <= sh.shown[j].shownAt)
  }

  predicate Routed(sh: Shared) {
    && |sh.routes| == sh.generation + 1 && sh.routes[sh.generation] == sh.current < |sh.conns|
    && (forall g | 0 <= g < |sh.routes| :: sh.routes[g] < |sh.conns|)
    && sh.ids == IdsFor(sh.ids, sh.conns[sh.current].data)
  }

  predicate SharedRight(sh: Shared) { Routed(sh) && DeliveredRight(sh) && ShownRight(sh) }

  /** The connection a loop works on is the current one. */
  predicate LoopsRight(s: State) {
    && (s.client.Ready? ==> s.client.ids == s.sh.ids)
    && (s.server.ReadingBackend? || s.server.Arrived? || s.server.Deciding? || s.server.Forwarding? ==>
          s.server.conn == s.sh.current && s.server.gen == s.sh.generation)
  }

  /** The connection that a running transfer has not disposed of yet, besides the current one. */
  function Pending(at: BackendAt): set<nat> {
    if !at.Transferring? then {}
    else
      match at.phase
      case Dialled(next) => {next}
      case Compatible(next) => {next}
      case Spawned(next) => {next}
      case Accepted(next) => {next}
      case Swapped => {at.saved.current}
      case Synced(_) => {at.saved.current}
      case _ => {}
  }

  predicate OpenRight(s: State) {
    && s.sh.current < |s.sh.conns| && s.sh.conns[s.sh.current].open
    && (forall c | 0 <= c < |s.sh.conns| && s.sh.conns[c].open :: c == s.sh.current || c in Pending(s.server))
  }

  /** Nothing but closed connections was added. */
  predicate Untouched(sh: Shared, saved: Shared) {
    && |saved.conns| <= |sh.conns| && sh.conns[..|saved.conns|] == saved.conns
    && sh == saved.(conns := sh.conns)
    && (forall c | |saved.conns| <= c < |sh.conns| :: !sh.conns[c].open)
  }

  /** Only an open new connection was added. */
  predicate Extended(sh: Shared, saved: Shared, next: nat) {
    && next == |saved.conns| && |sh.conns| == next + 1 && sh.conns[next] == Conn(sh.conns[next].data, true, [])
    && sh == saved.(conns := saved.conns + [sh.conns[next]])
  }

  /** Where a transfer stands, compared with the state in which it took the lock. */
  predicate TransferRight(sh: Shared, phase: Phase, saved: Shared) {
    match phase
    case Starting => sh == saved
    case Dialled(next) => Extended(sh, saved, next)
    case Compatible(next) => Extended(sh, saved, next) && sh.conns[next].data.hashes == sh.hashes
    case Spawned(next) => Extended(sh, saved, next) && sh.conns[next].data.hashes == sh.hashes
    case Accepted(next) => sh.playerConn == next && Extended(sh.(playerConn := saved.playerConn), saved, next)
    case Aborted => Untouched(sh, saved)
    case _ => Replaced(sh, saved, phase)
  }

  /** The new connection took over, and the client was told unless its connection failed. */
  predicate Replaced(sh: Shared, saved: Shared, phase: Phase) {
    && sh.current == sh.playerConn == |saved.conns| && |sh.conns| == |saved.conns| + 1
    && saved.current < |saved.conns| && sh.generation == saved.generation + 1
    && (phase.Committed? ==> !sh.conns[saved.current].open)
    && (phase.Swapped? ==> sh.tracked == saved.tracked && sh.shown == saved.shown)
    && (!phase.Swapped? ==> sh.tracked == NOTHING)
    && (phase == Synced(true) || phase == Committed(true) ==> sh.dimension == sh.conns[sh.current].data.dimension)
  }

  predicate PlayerRight(s: State) {
    if s.server.Transferring? then
      && TransferRight(s.sh, s.server.phase, s.server.saved)
      && s.server.saved.playerConn == s.server.saved.current < |s.server.saved.conns|
    else s.sh.playerConn == s.sh.current
  }

  predicate Inv(s: State) {
    Exclusive(s) && SharedRight(s.sh) && LoopsRight(s) && OpenRight(s) && PlayerRight(s)
  }

  lemma StartedKeeps(data: GameData)
    ensures Inv(Started(data))
  {
  }

  // ----- the client loop keeps it

  lemma DeliveredKeeps(sh: Shared, delivery: Delivery)
    requires SharedRight(sh) && (delivery.FromClient? ==> delivery.ids == sh.ids)
    ensures SharedRight(Delivered(sh, delivery))
  {
    var after := Delivered(sh, delivery);
    forall c, i | 0 <= c < |after.conns| && 0 <= i < |after.conns[c].received| && after.conns[c].received[i].FromClient?
      ensures after.conns[c].received[i].ids == IdsFor(after.ids, after.conns[c].data)
    {
      assert i < |sh.conns[c].received| ==> after.conns[c].received[i] == sh.conns[c].received[i];
    }
    forall i | 0 <= i < |after.shown|
      ensures RoutedRight(after, after.shown[i])
    {
      assert RoutedRight(sh, sh.shown[i]);
    }
  }

  lemma ClientKeeps(s: State, step: Step)
    requires Inv(s)
    requires step.ClientReads? || step.ClientLocks? || step.ClientHandles? || step.ClientWrites? || step.ClientUnlocks?
    ensures Inv(Next(s, step))
  {
    hide SharedRight, RewriteClient;
    var t := Next(s, step);
    if step.ClientHandles? && t.sh != s.sh {
      RadiusKeeps(s.sh, t.sh.chunkRadius);
    }
    if step.ClientWrites? && t.sh != s.sh {
      DeliveredKeeps(s.sh, FromClient(s.client.pk, s.client.ids));
    }
  }

  lemma RadiusKeeps(sh: Shared, radius: int)
    requires SharedRight(sh)
    ensures SharedRight(sh.(chunkRadius := radius))
  {
    var after := sh.(chunkRadius := radius);
    forall i | 0 <= i < |after.shown|
      ensures RoutedRight(after, after.shown[i])
    {
      assert RoutedRight(sh, sh.shown[i]);
    }
  }

  // ----- the backend loop keeps it

  lemma ShownKeeps(sh: Shared, tracked: Tracked, more: seq<Shown>)
    requires SharedRight(sh)
    requires forall e | e in more :: e.readAt == e.shownAt == sh.generation && e.conn == sh.current && e.ids == sh.ids
    ensures SharedRight(sh.(tracked := tracked, shown := sh.shown + more))
  {
    var after := sh.(tracked := tracked, shown := sh.shown + more);
    forall i | 0 <= i < |after.shown|
      ensures RoutedRight(after, after.shown[i])
    {
      if i < |sh.shown| {
        assert RoutedRight(sh, sh.shown[i]);
      } else {
        assert after.shown[i] in more;
      }
    }
    forall i, j | 0 <= i < j < |after.shown|
      ensures after.shown[i].shownAt <= after.shown[j].shownAt
    {
      if j >= |sh.shown| { assert after.shown[j] in more; }
      assert RoutedRight(after, after.shown[i]);
    }
  }

  lemma LoopKeeps(s: State, step: Step)
    requires Inv(s)
    requires step.BackendFetches? || step.BackendReads? || step.BackendChecks? || step.BackendLocks?
             || step.BackendUnlocks?
    ensures Inv(Next(s, step))
  {
    hide SharedRight;
  }

  lemma ForwardsKeeps(s: State, handle: Packet -> Option<Packet>, works: bool)
    requires Inv(s)
    ensures Inv(ForwardsStep(s, handle, works))
  {
    hide SharedRight, RewriteServer, Handled;
    var t := ForwardsStep(s, handle, works);
    if t.sh.shown != s.sh.shown {
      ShownKeeps(s.sh, t.sh.tracked, [t.sh.shown[|s.sh.shown|]]);
    } else if t.sh != s.sh {
      ShownKeeps(s.sh, t.sh.tracked, []);
      assert s.sh.shown + [] == s.sh.shown;
    }
  }

  // ----- a transfer keeps it

  lemma DialKeeps(sh: Shared, data: GameData)
    requires SharedRight(sh)
    ensures SharedRight(sh.(conns := sh.conns + [Conn(data, true, [])]))
  {
    var after := sh.(conns := sh.conns + [Conn(data, true, [])]);
    forall i | 0 <= i < |after.shown|
      ensures RoutedRight(after, after.shown[i])
    {
      assert RoutedRight(sh, sh.shown[i]);
    }
    forall c, i | 0 <= c < |after.conns| && 0 <= i < |after.conns[c].received| && after.conns[c].received[i].FromClient?
      ensures after.conns[c].received[i].ids == IdsFor(after.ids, after.conns[c].data)
    {
      assert c < |sh.conns| ==> after.conns[c] == sh.conns[c];
    }
  }

  lemma ClosedKeeps(sh: Shared, conn: nat)
    requires SharedRight(sh)
    ensures SharedRight(Closed(sh, conn))
  {
    var after := Closed(sh, conn);
    forall i | 0 <= i < |after.shown|
      ensures RoutedRight(after, after.shown[i])
    {
      assert RoutedRight(sh, sh.shown[i]);
    }
    forall c, i | 0 <= c < |after.conns| && 0 <= i < |after.conns[c].received| && after.conns[c].received[i].FromClient?
      ensures after.conns[c].received[i].ids == IdsFor(after.ids, after.conns[c].data)
    {
      assert after.conns[c].received == sh.conns[c].received && after.conns[c].data == sh.conns[c].data;
    }
  }

  lemma SwapKeeps(sh: Shared, next: nat)
    requires SharedRight(sh) && next < |sh.conns|
    ensures SharedRight(SwappedTo(sh, next))
  {
    var after := SwappedTo(sh, next);
    forall i | 0 <= i < |after.shown|
      ensures RoutedRight(after, after.shown[i])
    {
      assert RoutedRight(sh, sh.shown[i]);
    }
    forall c, i | 0 <= c < |after.conns| && 0 <= i < |after.conns[c].received| && after.conns[c].received[i].FromClient?
      ensures after.conns[c].received[i].ids == IdsFor(after.ids, after.conns[c].data)
    {
      assert after.conns[c] == sh.conns[c];
    }
  }

  lemma AbortKeeps(s: State, next: nat)
    requires Inv(s) && s.server.Transferring? && Extended(s.sh, s.server.saved, next)
    requires s.server.phase.Dialled? || s.server.phase.Compatible? || s.server.phase.Spawned?
    requires s.server.phase.next == next
    ensures Inv(AbortedWith(s, next))
  {
    hide SharedRight;
    ClosedKeeps(s.sh, next);
    var t := AbortedWith(s, next);
    assert t.sh.conns[..|s.server.saved.conns|] == s.server.saved.conns;
  }

  lemma OpeningKeeps(s: State, step: Step)
    requires Inv(s) && (step.Dials? || step.ComparesHashes? || step.Spawns? || step.HandlerDecides?)
    ensures Inv(Next(s, step))
  {
    hide SharedRight, AbortedWith;
    if step.Dials? && In(s, Starting) && step.dial.Some? {
      DialKeeps(s.sh, step.dial.value);
    }
    if s.server.Transferring? && (s.server.phase.Dialled? || s.server.phase.Compatible? || s.server.phase.Spawned?) {
      AbortKeeps(s, s.server.phase.next);
    }
    if step.HandlerDecides? && Next(s, step).sh != s.sh {
      PlayerKeeps(s.sh, Next(s, step).sh.playerConn);
    }
  }

  lemma PlayerKeeps(sh: Shared, conn: nat)
    requires SharedRight(sh)
    ensures SharedRight(sh.(playerConn := conn))
  {
    forall i | 0 <= i < |sh.shown|
      ensures RoutedRight(sh.(playerConn := conn), sh.shown[i])
    {
      assert RoutedRight(sh, sh.shown[i]);
    }
  }

  lemma SwapsKeeps(s: State)
    requires Inv(s)
    ensures Inv(SwapsStep(s))
  {
    hide SharedRight;
    var t := SwapsStep(s);
    if t.sh != s.sh { SwapKeeps(s.sh, s.server.phase.next); }
  }

  lemma ClosesKeeps(s: State)
    requires Inv(s)
    ensures Inv(ClosesPreviousStep(s))
  {
    hide SharedRight;
    if s.server.Transferring? { ClosedKeeps(s.sh, s.server.saved.current); }
  }

  lemma ResetsKeepsShared(s: State, clearing: seq<Packet>, written: nat, radius: Option<int>, works: bool)
    requires SharedRight(s.sh)
    ensures SharedRight(ResetsStep(s, clearing, written, radius, works).sh)
  {
    hide SharedRight, Clears, Rewritten, ResetPackets;
    var t := ResetsStep(s, clearing, written, radius, works);
    if t != s {
      var more := t.sh.shown[|s.sh.shown|..];
      ShownKeeps(s.sh, NOTHING, more);
      var told := s.sh.(tracked := NOTHING, shown := s.sh.shown + more);
      DimensionKeeps(told, t.sh.dimension);
      if t.sh.conns != s.sh.conns {
        DeliveredKeeps(told.(dimension := t.sh.dimension),
          ChunkRequest(Clamped(if radius.Some? then radius.value else s.sh.chunkRadius)));
      }
    }
  }

  lemma ResetsKeeps(s: State, clearing: seq<Packet>, written: nat, radius: Option<int>, works: bool)
    requires Inv(s)
    ensures Inv(ResetsStep(s, clearing, written, radius, works))
  {
    hide SharedRight, Clears, Rewritten, ResetPackets, AsShown;
    ResetsKeepsShared(s, clearing, written, radius, works);
  }

  lemma DimensionKeeps(sh: Shared, dimension: int)
    requires SharedRight(sh)
    ensures SharedRight(sh.(dimension := dimension))
  {
    forall i | 0 <= i < |sh.shown|
      ensures RoutedRight(sh.(dimension := dimension), sh.shown[i])
    {
      assert RoutedRight(sh, sh.shown[i]);
    }
  }

  lemma StepKeeps(s: State, step: Step)
    requires Inv(s)
    ensures Inv(Next(s, step))
  {
    hide Inv;
    match step
    case BackendFetches => LoopKeeps(s, step);
    case BackendReads(_) => LoopKeeps(s, step);
    case BackendChecks => LoopKeeps(s, step);
    case BackendLocks => LoopKeeps(s, step);
    case BackendUnlocks => LoopKeeps(s, step);
    case Forwards(handle, works) => ForwardsKeeps(s, handle, works);
    case Dials(_) => OpeningKeeps(s, step);
    case ComparesHashes => OpeningKeeps(s, step);
    case Spawns(_) => OpeningKeeps(s, step);
    case HandlerDecides(_) => OpeningKeeps(s, step);
    case Swaps => SwapsKeeps(s);
    case Resets(clearing, written, radius, works) => ResetsKeeps(s, clearing, written, radius, works);
    case ClosesPrevious => ClosesKeeps(s);
    case _ => ClientKeeps(s, step);
  }

  lemma {:induction false} RunKeeps(s: State, steps: seq<Step>)
    requires Inv(s)
    ensures Inv(After(s, steps))
  {
    hide Inv, Next;
    if steps != [] {
      RunKeeps(s, steps[..|steps| - 1]);
      StepKeeps(After(s, steps[..|steps| - 1]), steps[|steps| - 1]);
    }
  }

  // ----- what holds in every run

  /** Whatever the loops do, a client packet is written to the backend whose IDs it was rewritten with. */
  lemma ClientPacketsReachTheirBackend(data: GameData, steps: seq<Step>, c: nat, i: nat)
    requires var sh := After(Started(data), steps).sh;
             c < |sh.conns| && i < |sh.conns[c].received| && sh.conns[c].received[i].FromClient?
    ensures var sh := After(Started(data), steps).sh;
            sh.conns[c].received[i].ids
              == Ids(data.runtimeID, data.uniqueID, sh.conns[c].data.runtimeID, sh.conns[c].data.uniqueID)
  {
    StartedKeeps(data);
    RunKeeps(Started(data), steps);
    ClientIdsStay(data, steps);
  }

  lemma {:induction false} ClientIdsStay(data: GameData, steps: seq<Step>)
    ensures var ids := After(Started(data), steps).sh.ids;
            ids.clientRuntime == data.runtimeID && ids.clientUnique == data.uniqueID
  {
    hide RewriteClient, RewriteServer, Handled, Rewritten, ResetPackets, Clears;
    if steps != [] { ClientIdsStay(data, steps[..|steps| - 1]); }
  }

  /** A server packet is forwarded in the generation in which it was read, rewritten with the IDs of the backend
      it was read from, and no packet of an earlier backend follows one of a later backend. */
  lemma ServerPacketsAreCurrent(data: GameData, steps: seq<Step>)
    ensures ShownRight(After(Started(data), steps).sh)
  {
    StartedKeeps(data);
    RunKeeps(Started(data), steps);
  }

  /** Every connection ever dialled is the current one, closed, or the one the running transfer still has to
      dispose of; the current one is open, and outside transfers the player is served by it. */
  lemma NoConnectionLeaks(data: GameData, steps: seq<Step>)
    ensures var s := After(Started(data), steps);
      && OpenRight(s)
      && (!s.server.Transferring? ==> s.sh.playerConn == s.sh.current)
  {
    StartedKeeps(data);
    RunKeeps(Started(data), steps);
  }

  /** The backend loop is the only one to swap, so the connection it reads from never goes stale. */
  lemma FetchedIsCurrent(data: GameData, steps: seq<Step>)
    ensures var s := After(Started(data), steps);
            s.server.Arrived? && !s.server.event.Rejects? ==> Next(s, BackendChecks).server.Deciding?
  {
    StartedKeeps(data);
    RunKeeps(Started(data), steps);
  }

  /** While a transfer runs, no step of the client loop changes anything shared: client packets wait. */
  lemma TransferHoldsClientBack(data: GameData, steps: seq<Step>, step: Step)
    requires After(Started(data), steps).server.Transferring?
    requires step.ClientReads? || step.ClientLocks? || step.ClientHandles? || step.ClientWrites? || step.ClientUnlocks?
    ensures var s := After(Started(data), steps); Next(s, step).sh == s.sh && Next(s, step).lock == s.lock
  {
    StartedKeeps(data);
    RunKeeps(Started(data), steps);
  }

  /** The state saved by a transfer is the one in which it took the lock. */
  lemma {:induction false} SavedAtLock(s: State, steps: seq<Step>) returns (k: nat)
    requires !s.server.Transferring?
    requires After(s, steps).server.Transferring?
    ensures k <= |steps|
    ensures var before := After(s, steps[..k]);
            before.server.Deciding? && before.lock == None && before.sh == After(s, steps).server.saved
  {
    hide RewriteClient, RewriteServer, Handled, Rewritten, ResetPackets, Clears;
    var pre := steps[..|steps| - 1];
    if After(s, pre).server.Transferring? {
      k := SavedAtLock(s, pre);
      assert steps[..k] == pre[..k];
      assert After(s, pre).server.saved == After(s, steps).server.saved;
    } else {
      k := |steps| - 1;
    }
  }

  /** A transfer that is not committed leaves everything as it was when it took the lock: backend, generation,
      IDs, dimension, tracker, player, what the client was sent and what every backend was sent.  If it dialled,
      the new connection is closed. */
  lemma AbortedTransferChangesNothing(data: GameData, steps: seq<Step>) returns (k: nat)
    requires In(After(Started(data), steps), Aborted)
    ensures k <= |steps|
    ensures var before := After(Started(data), steps[..k]);
            before.server.Deciding? && before.lock == None && Untouched(After(Started(data), steps).sh, before.sh)
  {
    StartedKeeps(data);
    RunKeeps(Started(data), steps);
    k := SavedAtLock(Started(data), steps);
  }

  /** A committed transfer put the new connection in place of the old one, closed the old one, and forgot what the
      old backend had shown. */
  lemma CommittedTransferReplacesBackend(data: GameData, steps: seq<Step>, ok: bool) returns (k: nat)
    requires In(After(Started(data), steps), Committed(ok))
    ensures k <= |steps|
    ensures var before := After(Started(data), steps[..k]);
            before.server.Deciding? && before.lock == None
            && Replaced(After(Started(data), steps).sh, before.sh, Committed(ok))
  {
    StartedKeeps(data);
    RunKeeps(Started(data), steps);
    k := SavedAtLock(Started(data), steps);
  }

  // ----- the tracker over whole sessions

  function Packets(shown: seq<Shown>): seq<Packet> { seq(|shown|, i requires 0 <= i < |shown| => shown[i].pk) }

  /** The client's connection has not failed a write. */
  predicate Telling(at: BackendAt) {
    && !at.BackendGone? && at != ReleasingBackend(false)
    && (at.Transferring? ==> at.phase != Synced(false) && at.phase != Committed(false))
  }

  ghost predicate MirrorRight(s: State) {
    Telling(s.server) ==> Mirrors(s.sh.tracked, Packets(s.sh.shown), s.sh.ids.clientRuntime)
  }

  lemma ResetSaysNothing(ids: Ids, dimension: int, data: GameData, pk: Packet, thing: Thing, player: int)
    requires ids.backendRuntime == data.runtimeID && pk in Rewritten(ids, ResetPackets(dimension, data))
    ensures Says(pk, thing, player) == None
  {
    ResetIsShown(ids, dimension, data);
  }

  lemma ResetMirrors(s: State, clearing: seq<Packet>, written: nat, radius: Option<int>, works: bool)
    requires Inv(s) && MirrorRight(s)
    ensures MirrorRight(ResetsStep(s, clearing, written, radius, works))
  {
    hide Clears, Rewritten, ResetPackets, Mirrors, Says;
    var t := ResetsStep(s, clearing, written, radius, works);
    if t != s && Telling(t.server) {
      var player, data := s.sh.ids.clientRuntime, s.sh.conns[s.sh.current].data;
      var history, reset := Packets(s.sh.shown), Rewritten(s.sh.ids, ResetPackets(s.sh.dimension, data));
      ClearingEmptiesClient(s.sh.tracked, history, clearing, player);
      forall pk, thing | pk in reset
        ensures Says(pk, thing, player) == None
      {
        ResetSaysNothing(s.sh.ids, s.sh.dimension, data, pk, thing, player);
      }
      MirrorsMore(NOTHING, history + clearing, reset, player);
      assert Packets(t.sh.shown) == history + clearing + reset;
    }
  }

  lemma ForwardMirrors(s: State, handle: Packet -> Option<Packet>, works: bool)
    requires MirrorRight(s)
    ensures MirrorRight(ForwardsStep(s, handle, works))
  {
    hide RewriteServer, Handled, Mirrors;
    var t := ForwardsStep(s, handle, works);
    if t.sh.shown != s.sh.shown {
      var pk := t.sh.shown[|s.sh.shown|].pk;
      MirrorsOneMore(s.sh.tracked, Packets(s.sh.shown), pk, s.sh.ids.clientRuntime);
      assert Packets(t.sh.shown) == Packets(s.sh.shown) + [pk];
    }
  }

  lemma StepMirrors(s: State, step: Step)
    requires Inv(s) && MirrorRight(s)
    ensures MirrorRight(Next(s, step))
  {
    hide RewriteClient, RewriteServer, Handled, Rewritten, ResetPackets, Clears, Mirrors, ResetsStep, ForwardsStep,
        Packets, SharedRight;
    match step
    case Forwards(handle, works) => ForwardMirrors(s, handle, works);
    case Resets(clearing, written, radius, works) => ResetMirrors(s, clearing, written, radius, works);
    case _ =>
  }

  /** Over a whole session with any number of transfers, as long as the client's connection works, the tracker
      holds exactly what the client sees; so right after a transfer the client sees nothing of the old backend. */
  lemma {:induction false} TrackerMirrorsSession(data: GameData, steps: seq<Step>)
    ensures MirrorRight(After(Started(data), steps))
    ensures In(After(Started(data), steps), Committed(true)) ==>
              forall thing :: !Visible(Packets(After(Started(data), steps).sh.shown), thing, data.runtimeID)
  {
    StartedKeeps(data);
    RunKeeps(Started(data), steps);
    ClientIdsStay(data, steps);
    if steps != [] {
      var pre := steps[..|steps| - 1];
      TrackerMirrorsSession(data, pre);
      RunKeeps(Started(data), pre);
      StepMirrors(After(Started(data), pre), steps[|steps| - 1]);
    }
    var s := After(Started(data), steps);
    assert MirrorRight(s);
    if In(s, Committed(true)) {
      assert s.sh.tracked == NOTHING;
      forall thing
        ensures !Visible(Packets(s.sh.shown), thing, data.runtimeID)
      {
        assert !Holds(NOTHING, thing);
      }
    }
  }
}
