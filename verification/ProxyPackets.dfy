/** The packets that a proxy session looks into, and the translation of entity IDs between the client and the
    backend it is connected to.  The client keeps the IDs of its first backend for the whole session. */
module ProxyPackets {
  import opened Common

  /** Marks an entity of the backend whose ID is the one the client uses for itself. */
  const SENTINEL := 0x7fff_ffff_ffff_ffff

  datatype SpawnKind = Player | Actor | ItemActor | Painting

  /** Packets that carry one runtime ID. */
  datatype RuntimeKind =
    | MoveActorAbsolute | MovePlayer | MobEquipment | Animate | ActorEvent | PlayerAction | SetActorData
    | SetActorMotion | UpdateAttributes | Respawn | MobArmourEquipment

  datatype EffectOperation = EffectAdd | EffectModify | EffectRemove | EffectUnknown

  datatype ListEntry = ListEntry(uuid: int, add: bool)

  datatype Packet =
    | Spawn(kind: SpawnKind, runtimeID: int, uniqueID: int)
    | WithRuntimeID(packet: RuntimeKind, runtimeID: int)
    | MobEffect(runtimeID: int, effect: int, operation: EffectOperation)
    | Target(onItemUse: bool, target: int)  // Interact, or an item used on an entity
    | RemoveActor(uniqueID: int)
    | UpdateAbilities(uniqueID: int)
    | ContainerOpen(uniqueID: int)
    | BossEvent(bossID: int, hidden: bool)
    | PlayerList(entries: seq<ListEntry>)
    | SetDisplayObjective(objective: string)
    | RemoveObjective(objective: string)
    | ChangeDimension(dimension: int)
    | RequestChunkRadius(radius: int)
    | OtherPacket(content: Content)

  /** Packets without an ID that the session sends itself, and everything it never looks into. */
  datatype Content =
    | StopSound | StopRaining | StopThunderstorm | PlayerSpawned | SetPlayerGameType | SetDifficulty
    | GameRulesChanged | Payload(content: int)

  datatype Ids = Ids(clientRuntime: int, clientUnique: int, backendRuntime: int, backendUnique: int)

  // ----- backend to client

  function ToClient(id: int, backend: int, client: int): int {
    if id == backend then client
    else if backend != client && id == client then SENTINEL
    else id
  }

  /** The rewritten packet, or nothing for the backend's spawn of the client's own player. */
  function RewriteServer(ids: Ids, pk: Packet): Option<Packet> {
    var runtime := (id: int) => ToClient(id, ids.backendRuntime, ids.clientRuntime);
    var unique := (id: int) => ToClient(id, ids.backendUnique, ids.clientUnique);
    match pk
    case Spawn(kind, r, u) =>
      if (kind.Player? || kind.Actor?) && r == ids.backendRuntime then None
      else Some(Spawn(kind, runtime(r), unique(u)))
    case WithRuntimeID(p, r) => Some(WithRuntimeID(p, runtime(r)))
    case MobEffect(r, e, op) => Some(MobEffect(runtime(r), e, op))
    case RemoveActor(u) => Some(RemoveActor(unique(u)))
    case UpdateAbilities(u) => Some(UpdateAbilities(unique(u)))
    case ContainerOpen(u) => Some(ContainerOpen(unique(u)))
    case _ => Some(pk)
  }

  // ----- client to backend

  function ToBackend(id: int, client: int, backend: int): int { if id == client then backend else id }

  /** Targets additionally turn the sentinel back into the ID it stands for. */
  function TargetToBackend(id: int, client: int, backend: int): int {
    if id == SENTINEL then client else ToBackend(id, client, backend)
  }

  predicate FromClient(p: RuntimeKind) {
    p.MovePlayer? || p.MobEquipment? || p.Animate? || p.PlayerAction? || p.Respawn?
  }

  function RewriteClient(ids: Ids, pk: Packet): Packet {
    match pk
    case WithRuntimeID(p, r) =>
      if FromClient(p) then WithRuntimeID(p, ToBackend(r, ids.clientRuntime, ids.backendRuntime)) else pk
    case Target(onItemUse, t) => Target(onItemUse, TargetToBackend(t, ids.clientRuntime, ids.backendRuntime))
    case ContainerOpen(u) => ContainerOpen(ToBackend(u, ids.clientUnique, ids.backendUnique))
    case _ => pk
  }

  /** There and back.  An entity the client targets by the ID it was shown is the entity of the backend, for
      every ID the backend can use except: the sentinel itself (unless it is the player's ID on either side),
      and the player, if the client's own ID is the sentinel and differs from the backend's. */
  lemma TargetRoundTrip(id: int, client: int, backend: int)
    ensures TargetToBackend(ToClient(id, backend, client), client, backend) == id
        <==> (id == SENTINEL ==> id == backend || id == client)
             && (client == SENTINEL && id == backend ==> backend == client)
  {
  }

  /** With no sentinel in play the round trip is the identity, and no two entities share an ID at the client. */
  lemma TargetsAreKept(a: int, b: int, client: int, backend: int)
    requires a != SENTINEL && b != SENTINEL && client != SENTINEL
    ensures TargetToBackend(ToClient(a, backend, client), client, backend) == a
    ensures ToClient(a, backend, client) == ToClient(b, backend, client) ==> a == b
  {
    TargetRoundTrip(a, client, backend);
    TargetRoundTrip(b, client, backend);
  }

  /** Container IDs have no sentinel on the way back: the entity whose ID collides with the client's own one
      is the one that gets lost. */
  lemma ContainerRoundTrip(id: int, client: int, backend: int)
    ensures ToBackend(ToClient(id, backend, client), client, backend) == id
       <==> (id == client ==> backend == client)
  {
  }

  // ----- whole packets

  /** The runtime ID that a packet of a backend carries. */
  function RuntimeID(pk: Packet): Option<int> {
    if pk.Spawn? || pk.WithRuntimeID? || pk.MobEffect? then Some(pk.runtimeID) else None
  }

  function UniqueID(pk: Packet): Option<int> {
    if pk.Spawn? || pk.RemoveActor? || pk.UpdateAbilities? || pk.ContainerOpen? then Some(pk.uniqueID) else None
  }

  /** The same packet about other entities. */
  function WithIDs(pk: Packet, runtime: Option<int>, unique: Option<int>): Packet {
    match pk
    case Spawn(kind, _, _) => if runtime.Some? && unique.Some? then Spawn(kind, runtime.value, unique.value) else pk
    case WithRuntimeID(p, _) => if runtime.Some? then WithRuntimeID(p, runtime.value) else pk
    case MobEffect(_, e, op) => if runtime.Some? then MobEffect(runtime.value, e, op) else pk
    case RemoveActor(_) => if unique.Some? then RemoveActor(unique.value) else pk
    case UpdateAbilities(_) => if unique.Some? then UpdateAbilities(unique.value) else pk
    case ContainerOpen(_) => if unique.Some? then ContainerOpen(unique.value) else pk
    case _ => pk
  }

  /** The client is shown an ID of the backend: its own exactly for the player's (unless its own is the sentinel),
      the ID itself for any other entity without a collision, and without the sentinel nothing is lost. */
  predicate Translates(id: Option<int>, shown: Option<int>, backend: int, client: int) {
    && (id.Some? <==> shown.Some?)
    && (id.Some? ==>
          && (shown.value == client <==> id.value == backend || (id.value == client && client == SENTINEL))
          && (id.value != backend && id.value != client ==> shown.value == id.value)
          && (id.value != SENTINEL && client != SENTINEL ==>
                id.value == if shown.value == SENTINEL then client
                            else if shown.value == client then backend else shown.value))
  }

  /** Every packet of the backend is shown, about the entities that the client knows by these IDs, except the one that
      would make a player or a mob of the client itself. */
  lemma ServerPacketIsTranslated(ids: Ids, pk: Packet)
    ensures var shown := RewriteServer(ids, pk);
      && (shown.None? <==> pk.Spawn? && (pk.kind.Player? || pk.kind.Actor?) && pk.runtimeID == ids.backendRuntime)
      && (shown.Some? ==>
            && shown.value == WithIDs(pk, RuntimeID(shown.value), UniqueID(shown.value))
            && Translates(RuntimeID(pk), RuntimeID(shown.value), ids.backendRuntime, ids.clientRuntime)
            && Translates(UniqueID(pk), UniqueID(shown.value), ids.backendUnique, ids.clientUnique))
  {
  }

  /** The packets that carry a single ID both ways and know no sentinel on the way back. */
  predicate BothWays(pk: Packet) {
    || pk.ContainerOpen?
    || (pk.WithRuntimeID? && pk.packet in {MovePlayer, MobEquipment, Animate, PlayerAction, Respawn})
  }

  /** A client packet that carries its own ID reaches the backend with the player's ID there; targets may also be the
      sentinel, and nothing else is changed. */
  lemma ClientPacketIsTranslated(ids: Ids, pk: Packet)
    ensures var sent := RewriteClient(ids, pk);
      if BothWays(pk) then
        && BothWays(sent)
        && sent == WithIDs(pk, RuntimeID(sent), UniqueID(sent))
        && IdOf(sent) == (if pk.ContainerOpen? && pk.uniqueID == ids.clientUnique then ids.backendUnique
                          else if pk.ContainerOpen? then pk.uniqueID
                          else if pk.runtimeID == ids.clientRuntime then ids.backendRuntime else pk.runtimeID)
      else if pk.Target? then
        sent == pk.(target := if pk.target == 0x7fff_ffff_ffff_ffff then ids.clientRuntime
                              else if pk.target == ids.clientRuntime then ids.backendRuntime else pk.target)
      else sent == pk
  {
  }

  function IdOf(pk: Packet): int
    requires BothWays(pk)
  {
    if pk.ContainerOpen? then pk.uniqueID else pk.runtimeID
  }

  /** A packet of the backend that the client sends back comes to the backend as it was, if and only if it is not
      about the one entity whose ID is the client's own.  The player's own packets always do. */
  lemma PacketRoundTrip(ids: Ids, pk: Packet)
    requires BothWays(pk)
    ensures var client := if pk.ContainerOpen? then ids.clientUnique else ids.clientRuntime;
            var backend := if pk.ContainerOpen? then ids.backendUnique else ids.backendRuntime;
            var shown := RewriteServer(ids, pk);
      && shown.Some? && BothWays(shown.value)
      && (RewriteClient(ids, shown.value) == pk <==> (IdOf(pk) == client ==> backend == client))
      && (IdOf(pk) == backend ==> IdOf(shown.value) == client && RewriteClient(ids, shown.value) == pk)
  {
    if pk.ContainerOpen? {
      ContainerRoundTrip(pk.uniqueID, ids.clientUnique, ids.backendUnique);
    } else {
      ContainerRoundTrip(pk.runtimeID, ids.clientRuntime, ids.backendRuntime);
    }
  }
}
