/** One client, connected to one backend after the other: packets are rewritten between the IDs of the client and
    those of the backend, and a transfer either replaces the backend completely or changes nothing. */
module ProxySession {
  import opened Common
  import opened ProxyPackets
  import opened StateTracker

  datatype GameData = GameData(runtimeID: int, uniqueID: int, dimension: int, hashes: bool, chunkRadius: int)

  // ----- the packets that make the client forget its world

  const OVERWORLD := 0
  const NETHER := 1
  const END := 2

  function FakeDimension(current: int, target: int): int {
    if OVERWORLD != current && OVERWORLD != target then OVERWORLD
    else if NETHER != current && NETHER != target then NETHER
    else END
  }

  function Arrival(dimension: int, runtimeID: int): seq<Packet> {
    [ChangeDimension(dimension), OtherPacket(PlayerSpawned), WithRuntimeID(PlayerAction, runtimeID)]
  }

  function ResetPackets(current: int, data: GameData): seq<Packet> {
    [OtherPacket(StopSound), OtherPacket(StopRaining), OtherPacket(StopThunderstorm)]
    + (if current == data.dimension then Arrival(FakeDimension(current, data.dimension), data.runtimeID) else [])
    + Arrival(data.dimension, data.runtimeID)
    + [OtherPacket(SetPlayerGameType), OtherPacket(SetDifficulty), OtherPacket(GameRulesChanged),
       WithRuntimeID(MovePlayer, data.runtimeID)]
  }

  method TransferResetPackets(current: int, data: GameData) returns (packets: seq<Packet>)
    ensures packets == ResetPackets(current, data)
  {
    var fake := OVERWORLD;
    var candidates := [OVERWORLD, NETHER, END];
    var i := 0;
    while i < |candidates|
      invariant 0 <= i <= |candidates| && fake == OVERWORLD
      invariant forall k | 0 <= k < i :: candidates[k] == current || candidates[k] == data.dimension
    {
      if candidates[i] != current && candidates[i] != data.dimension {
        fake := candidates[i];
        break;
      }
      i := i + 1;
    }
    assert i > 0 ==> candidates[0] == current || candidates[0] == data.dimension;
    assert i > 1 ==> candidates[1] == current || candidates[1] == data.dimension;
    packets := [OtherPacket(StopSound), OtherPacket(StopRaining), OtherPacket(StopThunderstorm)];
    if current == data.dimension {
      packets := packets + [ChangeDimension(fake), OtherPacket(PlayerSpawned),
        WithRuntimeID(PlayerAction, data.runtimeID)];
    }
    packets := packets
      + [ChangeDimension(data.dimension), OtherPacket(PlayerSpawned), WithRuntimeID(PlayerAction, data.runtimeID)]
      + [OtherPacket(SetPlayerGameType), OtherPacket(SetDifficulty), OtherPacket(GameRulesChanged),
         WithRuntimeID(MovePlayer, data.runtimeID)];
  }

  /** The dimension of a client after some packets. */
  function DimensionAfter(dimension: int, packets: seq<Packet>): int {
    if packets == [] then dimension
    else
      var last := packets[|packets| - 1];
      if last.ChangeDimension? then last.dimension else DimensionAfter(dimension, packets[..|packets| - 1])
  }

  /** Every dimension change takes the client somewhere else, as it must for the client to drop its world. */
  predicate EveryChangeMoves(dimension: int, packets: seq<Packet>) {
    packets == [] ||
    (var n := |packets| - 1;
     EveryChangeMoves(dimension, packets[..n]) &&
     (packets[n].ChangeDimension? ==> packets[n].dimension != DimensionAfter(dimension, packets[..n])))
  }

  lemma {:induction false} MovesConcat(dimension: int, a: seq<Packet>, b: seq<Packet>)
    ensures DimensionAfter(dimension, a + b) == DimensionAfter(DimensionAfter(dimension, a), b)
    ensures EveryChangeMoves(dimension, a + b)
       <==> EveryChangeMoves(dimension, a) && EveryChangeMoves(DimensionAfter(dimension, a), b)
  {
    if b == [] {
      assert a + b == a;
    } else {
      assert (a + b)[..|a + b| - 1] == a + b[..|b| - 1];
      MovesConcat(dimension, a, b[..|b| - 1]);
    }
  }

  lemma {:induction false} NoMoves(dimension: int, packets: seq<Packet>)
    requires forall pk | pk in packets :: !pk.ChangeDimension?
    ensures DimensionAfter(dimension, packets) == dimension && EveryChangeMoves(dimension, packets)
  {
    if packets != [] { NoMoves(dimension, packets[..|packets| - 1]); }
  }

  lemma ArrivalMoves(from: int, dimension: int, runtimeID: int)
    ensures DimensionAfter(from, Arrival(dimension, runtimeID)) == dimension
    ensures EveryChangeMoves(from, Arrival(dimension, runtimeID)) <==> dimension != from
  {
    var packets := Arrival(dimension, runtimeID);
    assert packets == [packets[0]] + packets[1..];
    MovesConcat(from, [packets[0]], packets[1..]);
    NoMoves(dimension, packets[1..]);
    assert [packets[0]][..0] == [];
  }

  /** The reset always leaves the client in the dimension of the new backend.  It moves the client on every step
      exactly when the recorded dimension tells enough about the real one: the detour (or, without a detour, the
      target) is not where the client already is. */
  lemma ResetMovesClient(recorded: int, actual: int, data: GameData)
    ensures DimensionAfter(actual, ResetPackets(recorded, data)) == data.dimension
    ensures EveryChangeMoves(actual, ResetPackets(recorded, data))
       <==> actual != (if recorded == data.dimension then FakeDimension(recorded, data.dimension) else data.dimension)
  {
    hide EveryChangeMoves, DimensionAfter, Arrival;
    var quiet := [OtherPacket(StopSound), OtherPacket(StopRaining), OtherPacket(StopThunderstorm)];
    var detour := if recorded == data.dimension then Arrival(FakeDimension(recorded, data.dimension), data.runtimeID)
      else [];
    var arrival := Arrival(data.dimension, data.runtimeID);
    var rest := [OtherPacket(SetPlayerGameType), OtherPacket(SetDifficulty), OtherPacket(GameRulesChanged),
                 WithRuntimeID(MovePlayer, data.runtimeID)];
    NoMoves(actual, quiet);
    NoMoves(actual, []);
    NoMoves(data.dimension, rest);
    ArrivalMoves(actual, FakeDimension(recorded, data.dimension), data.runtimeID);
    var via := DimensionAfter(actual, detour);
    ArrivalMoves(via, data.dimension, data.runtimeID);
    MovesConcat(actual, quiet, detour);
    MovesConcat(actual, quiet + detour, arrival);
    MovesConcat(actual, quiet + detour + arrival, rest);
  }

  /** A recorded dimension that is the real one is enough. */
  lemma ResetMovesTrackedClient(dimension: int, data: GameData)
    ensures EveryChangeMoves(dimension, ResetPackets(dimension, data))
  {
    ResetMovesClient(dimension, dimension, data);
  }

  // ----- rewriting a whole list

  /** What the client is sent for a list of packets of the backend. */
  function Rewritten(ids: Ids, packets: seq<Packet>): (r: seq<Packet>)
    ensures |r| <= |packets|
  {
    if packets == [] then []
    else
      Rewritten(ids, packets[..|packets| - 1])
      + match RewriteServer(ids, packets[|packets| - 1]) case Some(pk) => [pk] case None => []
  }

  lemma RewrittenNone(ids: Ids)
    ensures Rewritten(ids, []) == []
  {
  }

  lemma {:induction false} RewrittenConcat(ids: Ids, a: seq<Packet>, b: seq<Packet>)
    ensures Rewritten(ids, a + b) == Rewritten(ids, a) + Rewritten(ids, b)
  {
    if b == [] {
      assert a + b == a;
    } else {
      assert (a + b)[..|a + b| - 1] == a + b[..|b| - 1];
      RewrittenConcat(ids, a, b[..|b| - 1]);
    }
  }

  lemma RewrittenOne(ids: Ids, pk: Packet)
    ensures Rewritten(ids, [pk]) == match RewriteServer(ids, pk) case Some(shown) => [shown] case None => []
  {
    assert [pk][..0] == [];
  }

  lemma {:induction false} RewrittenIs(ids: Ids, packets: seq<Packet>, shown: seq<Packet>)
    requires |packets| == |shown| && forall i | 0 <= i < |packets| :: RewriteServer(ids, packets[i]) == Some(shown[i])
    ensures Rewritten(ids, packets) == shown
  {
    hide RewriteServer;
    if packets != [] { RewrittenIs(ids, packets[..|packets| - 1], shown[..|shown| - 1]); }
  }

  /** All of the reset arrives, addressed to the player as the client knows it. */
  lemma ResetIsShown(ids: Ids, current: int, data: GameData)
    requires ids.backendRuntime == data.runtimeID
    ensures Rewritten(ids, ResetPackets(current, data)) == ResetPackets(current, data.(runtimeID := ids.clientRuntime))
  {
    RewrittenIs(ids, ResetPackets(current, data), ResetPackets(current, data.(runtimeID := ids.clientRuntime)));
  }

  function Clamped(radius: int): int { if radius < 1 then 1 else if radius > 255 then 255 else radius }

  /** It lies in the range, and between the radius and everything else in the range. */
  lemma ClampedIsNearest(radius: int, other: int)
    requires 1 <= other <= 255
    ensures 1 <= Clamped(radius) <= 255
    ensures other <= Clamped(radius) <= radius || radius <= Clamped(radius) <= other
  {
  }

  /** The detour goes to the first dimension that is neither of the two. */
  lemma DetourIsElsewhere(current: int, target: int)
    ensures var fake := FakeDimension(current, target);
      && 0 <= fake <= 2 && fake != current && fake != target
      && (fake > 0 ==> current == 0 || target == 0) && (fake > 1 ==> current == 1 || target == 1)
  {
  }

  /** Sounds and weather of the old backend end first.  Every dimension change is followed by the spawn and the
      acknowledgement of the player; there is a detour only if the dimension stays the same.  What the new backend
      set for the player comes last. */
  lemma ResetInOrder(current: int, data: GameData)
    ensures var p := ResetPackets(current, data); var n := |p|;
      && n == (if current == data.dimension then 13 else 10)
      && p[..3] == [OtherPacket(StopSound), OtherPacket(StopRaining), OtherPacket(StopThunderstorm)]
      && p[n - 4..] == [OtherPacket(SetPlayerGameType), OtherPacket(SetDifficulty), OtherPacket(GameRulesChanged),
                        WithRuntimeID(MovePlayer, data.runtimeID)]
      && (forall i | 3 <= i < n - 4 && i % 3 == 0 :: p[i].ChangeDimension? && p[i + 1] == OtherPacket(PlayerSpawned)
                                                     && p[i + 2] == WithRuntimeID(PlayerAction, data.runtimeID))
      && p[n - 7].dimension == data.dimension && p[3].dimension in {0, 1, 2, data.dimension}
  {
    DetourIsElsewhere(current, data.dimension);
  }

  // ----- connections

  /** The client's connection: it fails for good after some number of packets. */
  class ClientConn {
    var received: seq<Packet>
    var room: nat

    method WritePacket(pk: Packet) returns (ok: bool)
      modifies this
      ensures ok == (old(room) > 0) && room == (if ok then old(room) - 1 else 0)
      ensures received == if ok then old(received) + [pk] else old(received)
    {
      ok := room > 0;
      if ok { received, room := received + [pk], room - 1; }
    }
  }

  class Backend {
    const data: GameData
    var received: seq<Packet>
    var room: nat
    var open: bool

    constructor (data: GameData, room: nat)
      ensures this.data == data && this.room == room && received == [] && open
    {
      this.data, this.room, received, open := data, room, [], true;
    }

    method WritePacket(pk: Packet) returns (ok: bool)
      modifies this
      ensures ok == (old(room) > 0) && room == (if ok then old(room) - 1 else 0) && open == old(open)
      ensures received == if ok then old(received) + [pk] else old(received)
    {
      ok := room > 0;
      if ok { received, room := received + [pk], room - 1; }
    }

    method Flush() returns (ok: bool)
      ensures ok == (room > 0)
    {
      ok := room > 0;
    }

    method Close()
      modifies this`open
      ensures !open
    {
      open := false;
    }
  }

  /** The part of the player that a transfer replaces. */
  class Player {
    var serverConn: Backend
    var runtimeID: int
    var uniqueID: int
    const hashes: bool

    /** A player that was started on a backend. */
    constructor (conn: Backend)
      ensures Serves(conn) && hashes == conn.data.hashes
    {
      serverConn, runtimeID, uniqueID, hashes := conn, conn.data.runtimeID, conn.data.uniqueID, conn.data.hashes;
    }

    ghost predicate Serves(backend: Backend) reads this {
      serverConn == backend && runtimeID == backend.data.runtimeID && uniqueID == backend.data.uniqueID
    }

    method TransferServerConn(conn: Backend) returns (ok: bool)
      modifies this
      ensures ok == (conn.data.hashes == hashes)
      ensures ok ==> Serves(conn)
      ensures !ok ==> serverConn == old(serverConn) && runtimeID == old(runtimeID) && uniqueID == old(uniqueID)
    {
      if conn.data.hashes != hashes { return false; }
      serverConn, runtimeID, uniqueID := conn, conn.data.runtimeID, conn.data.uniqueID;
      ok := true;
    }
  }

  class Session {
    const client: ClientConn
    const player: Player
    const state: BackendStateTracker
    var backend: Backend
    var generation: nat
    const clientRuntimeID: int
    const clientUniqueID: int
    var clientDimension: int
    const blockNetworkIDHashes: bool
    var backendRuntimeID: int
    var backendUniqueID: int
    var chunkRadius: int

    function CurrentIds(): Ids reads this { Ids(clientRuntimeID, clientUniqueID, backendRuntimeID, backendUniqueID) }

    /** The session rewrites for the backend it writes to, and the player is served by it. */
    ghost predicate Valid()
      reads this, player
    {
      && backendRuntimeID == backend.data.runtimeID && backendUniqueID == backend.data.uniqueID
      && player.Serves(backend) && player.hashes == blockNetworkIDHashes
    }

    /** A session whose first backend was started: the client uses the IDs of that backend from now on. */
    constructor (client: ClientConn, player: Player, backend: Backend)
      requires player.Serves(backend) && player.hashes == backend.data.hashes
      ensures Valid() && fresh(state) && state.Model() == NOTHING
      ensures this.client == client && this.player == player && this.backend == backend && generation == 0
      ensures CurrentIds() == Ids(backend.data.runtimeID, backend.data.uniqueID, backend.data.runtimeID,
          backend.data.uniqueID)
      ensures clientDimension == backend.data.dimension && chunkRadius == backend.data.chunkRadius
    {
      this.client, this.player, this.backend, generation := client, player, backend, 0;
      clientRuntimeID, clientUniqueID := backend.data.runtimeID, backend.data.uniqueID;
      backendRuntimeID, backendUniqueID := backend.data.runtimeID, backend.data.uniqueID;
      clientDimension, blockNetworkIDHashes, chunkRadius :=
        backend.data.dimension, backend.data.hashes, backend.data.chunkRadius;
      state := new BackendStateTracker();
    }

    method SwapBackend(replacement: Backend) returns (previous: Backend)
      modifies this`backend, this`generation, this`backendRuntimeID, this`backendUniqueID
      ensures previous == old(backend) && backend == replacement && generation == old(generation) + 1
      ensures backendRuntimeID == replacement.data.runtimeID && backendUniqueID == replacement.data.uniqueID
    {
      previous := backend;
      backend := replacement;
      backendRuntimeID, backendUniqueID := replacement.data.runtimeID, replacement.data.uniqueID;
      generation := generation + 1;
    }

    /** One iteration of the client loop after the packet was read; the handler may change or drop it. */
    method ForwardClientPacket(pk: Packet, handle: Packet -> Option<Packet>) returns (ok: bool)
      requires Valid()
      modifies this`chunkRadius, backend
      ensures Valid() && backend.open == old(backend.open)
      ensures var handled := handle(RewriteClient(CurrentIds(), pk));
        && (handled.Some? && ok ==> backend.received == old(backend.received) + [handled.value])
        && (handled.None? || !ok ==> backend.received == old(backend.received))
        && (handled.None? ==> ok)
        && chunkRadius == (if handled.Some? && handled.value.RequestChunkRadius? then handled.value.radius
             else old(chunkRadius))
    {
      ok := true;
      var rewritten := RewriteClient(CurrentIds(), pk);
      var handled := handle(rewritten);
      if handled.Some? {
        if handled.value.RequestChunkRadius? { chunkRadius := handled.value.radius; }
        ok := backend.WritePacket(handled.value);
      }
    }

    /** One iteration of the backend loop for a packet of the current backend that is not a transfer. */
    method ForwardServerPacket(pk: Packet, handle: Packet -> Option<Packet>) returns (ok: bool)
      modifies client, state
      ensures var shown :=
          match handle(pk) { case Some(handled) => RewriteServer(CurrentIds(), handled) case None => None };
        && state.Model() == (if shown.Some? then Handled(old(state.Model()), shown.value, clientRuntimeID)
             else old(state.Model()))
        && client.received == (if shown.Some? && ok then old(client.received) + [shown.value] else old(client.received))
        && (shown.None? ==> ok)
    {
      ok := true;
      match handle(pk)
      case None =>
      case Some(handled) =>
        match RewriteServer(CurrentIds(), handled)
        case None =>
        case Some(shown) =>
          state.Handle(shown, clientRuntimeID);
          ok := client.WritePacket(shown);
    }

    /** Writes until the client's connection fails. */
    method SendAll(packets: seq<Packet>) returns (ok: bool)
      modifies client
      ensures old(client.received) <= client.received
      ensures ok ==> client.received == old(client.received) + packets
    {
      for i := 0 to |packets|
        invariant client.received == old(client.received) + packets[..i]
      {
        assert packets[..i] + [packets[i]] == packets[..i + 1];
        ok := client.WritePacket(packets[i]);
        if !ok { return; }
      }
      assert packets[..|packets|] == packets;
      ok := true;
    }

    method SendRewritten(packets: seq<Packet>) returns (ok: bool)
      modifies client
      ensures old(client.received) <= client.received
      ensures ok ==> client.received == old(client.received) + Rewritten(CurrentIds(), packets)
    {
      hide RewriteServer, Rewritten;
      RewrittenNone(CurrentIds());
      for i := 0 to |packets|
        invariant client.received == old(client.received) + Rewritten(CurrentIds(), packets[..i])
      {
        RewrittenConcat(CurrentIds(), packets[..i], [packets[i]]);
        assert packets[..i] + [packets[i]] == packets[..i + 1];
        RewrittenOne(CurrentIds(), packets[i]);
        match RewriteServer(CurrentIds(), packets[i]) {
          case None =>
          case Some(pk) =>
            ok := client.WritePacket(pk);
            if !ok { return; }
        }
      }
      assert packets[..|packets|] == packets;
      ok := true;
    }

    /** Takes the client out of the old backend's world and asks the new backend for chunks. */
    method ResetTransferState(handlerRadius: Option<int>) returns (ok: bool, ghost clearing: seq<Packet>)
      requires Valid()
      modifies this`clientDimension, client, state, backend
      ensures Valid() && state.Model() == NOTHING && backend.open == old(backend.open)
      ensures Clears(clearing, old(state.Model()), clientRuntimeID) && old(client.received) <= client.received
      ensures ok ==> client.received == old(client.received) + clearing
                     + Rewritten(CurrentIds(), ResetPackets(old(clientDimension), backend.data))
      ensures ok ==> clientDimension == backend.data.dimension
      ensures ok ==> backend.received == old(backend.received)
                     + [RequestChunkRadius(Clamped(if handlerRadius.Some? then handlerRadius.value else chunkRadius))]
    {
      hide Clears, Rewritten, ResetPackets;
      var packets := state.ClearPackets(clientRuntimeID);
      clearing := packets;
      ok := SendAll(packets);
      if !ok { return; }
      packets := TransferResetPackets(clientDimension, backend.data);
      ok := SendRewritten(packets);
      if !ok { return; }
      clientDimension := backend.data.dimension;
      var radius := if handlerRadius.Some? then handlerRadius.value else chunkRadius;
      ok := backend.WritePacket(RequestChunkRadius(Clamped(radius)));
      if ok { ok := backend.Flush(); }
    }

    /** Connects the client to another backend.  Either everything changes over and the old connection is closed,
        or nothing changes and the new connection, if there was one, is closed. */
    method TransferLocked(
      cancelled: bool, dial: Option<Backend>, spawns: bool, handlerAccepts: bool, handlerRadius: Option<int>)
      returns (committed: bool, ok: bool)
      requires Valid() && backend.open
      requires dial.Some? ==> dial.value != backend && dial.value.open
      modifies this`backend, this`generation, this`backendRuntimeID, this`backendUniqueID, this`clientDimension
      modifies client, player, state, backend`open
      modifies if dial.Some? then {dial.value} else {}
      ensures Valid() && backend.open
      ensures committed <==> && !cancelled && dial.Some? && dial.value.data.hashes == blockNetworkIDHashes && spawns
                             && handlerAccepts
      ensures ok ==> committed
      ensures !committed ==> !cancelled && dial.Some? ==> !dial.value.open
      ensures !committed ==>
                && backend == old(backend) && generation == old(generation) && CurrentIds() == old(CurrentIds())
                && clientDimension == old(clientDimension) && state.Model() == old(state.Model())
                && client.received == old(client.received) && player.serverConn == old(player.serverConn)
      ensures committed ==>
                && backend == dial.value && generation == old(generation) + 1 && !old(backend).open
                && state.Model() == NOTHING && (ok ==> clientDimension == backend.data.dimension)
      ensures committed && ok ==> exists clearing |
                Clears(clearing, old(state.Model()), clientRuntimeID) ::
                client.received == old(client.received) + clearing
                  + Rewritten(CurrentIds(), ResetPackets(old(clientDimension), backend.data))
    {
      hide Clears, Rewritten, ResetPackets;
      if cancelled || dial.None? { return false, false; }
      var replacement := dial.value;
      if replacement.data.hashes != blockNetworkIDHashes {
        replacement.Close();
        return false, false;
      }
      if !spawns {
        replacement.Close();
        return false, false;
      }
      if !handlerAccepts {
        replacement.Close();
        return false, false;
      }
      var accepted := player.TransferServerConn(replacement);
      if !accepted {
        assert false;
      }
      var previous := SwapBackend(replacement);
      ghost var clearing;
      ok, clearing := ResetTransferState(handlerRadius);
      previous.Close();
      committed := true;
    }
  }
}
