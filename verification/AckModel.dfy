/** The lag-compensation protocol as a machine on values.

    Effects of server packets are not applied when they are received.  They are collected in a batch that is
    sent to the client with a timestamp, and run when the client echoes that timestamp.  Block batches and
    knockback also count down on client ticks and run early when they expire.

    The classes of `AckProtocol` are proved to take exactly the steps defined here.
  */
module AckModel {

  datatype Pos = Pos(x: int, y: int, z: int)

  datatype ChunkPos = ChunkPos(x: int, z: int)

  /** Truncation to a signed 32-bit integer. */
  function Int32(n: int): int { (n + 0x8000_0000) % 0x1_0000_0000 - 0x8000_0000 }

  /** The chunk column of a position: the coordinates shifted right by four bits. */
  function ChunkOf(p: Pos): ChunkPos { ChunkPos(Int32(p.x) / 16, Int32(p.z) / 16) }

  datatype Vec3 = Vec3(x: real, y: real, z: real)

  /** A block runtime ID as it arrives; `Resolve` maps it to a block of the registry. */
  type Rid = int

  type Updates = map<Pos, Rid>

  /** The block registry and the height range of the overworld. */
  datatype Env = Env(known: set<Rid>, air: Rid, minY: int, maxY: int)

  /** The options of a session that the protocol reads. */
  datatype Config = Config(
    maxBlockUpdateDelay: int, maxKnockbackDelay: int, cutoff: int, maxChain: int, legacy: bool, orbis: bool)

  const NO_EXPIRY := 1_000_000_000
  const ACK_DIVIDER := 1000

  datatype BlockAck = BlockAck(updates: Updates, expiresIn: int, valid: bool)

  datatype KnockbackAck = KnockbackAck(velocity: Vec3, expiresIn: int, ran: bool)

  datatype Ack =
    | Blocks(batch: BlockAck)
    | Knockback(kb: KnockbackAck)
    | Teleport(pos: Vec3, onGround: bool, smoothed: bool)
    | Correction(setField: bool)
    | Other  // acknowledgements whose effects are outside this model

  datatype Batch = Batch(timestamp: int, acks: seq<Ack>)

  datatype Movement = Movement(
    teleportPos: Vec3, onGround: bool, smoothed: bool, ticksSinceTeleport: nat, completionTicks: nat,
    pendingTeleportPos: Vec3, pendingTeleports: int,
    knockback: Vec3, ticksSinceKb: nat, pendingCorrections: int, cooldown: bool)

  /** What running an acknowledgement changes: the block overlay of the world, the index of pending block
      updates, the movement component and the correction-in-flight flag. */
  datatype Core = Core(world: Updates, index: Updates, mv: Movement, correcting: bool)

  datatype State = State(
    core: Core, unflushed: Updates, pending: seq<Batch>, current: Batch, clientTicked: bool, silentTicks: int)

  // ----- blocks

  function Resolve(env: Env, rid: Rid): Rid { if rid in env.known then rid else env.air }

  predicate InBounds(env: Env, p: Pos) { env.minY <= p.y <= env.maxY }

  /** What a set of updates writes into the overlay. */
  function Written(env: Env, u: Updates): Updates {
    map p | p in u && InBounds(env, p) :: Resolve(env, u[p])
  }

  /** The overlay after the removal of some chunks. */
  function Without(world: Updates, chunks: set<ChunkPos>): Updates {
    map p | p in world && ChunkOf(p) !in chunks :: world[p]
  }

  /** The overlay after a block was set directly. */
  function Placed(env: Env, world: Updates, p: Pos, block: Rid): Updates {
    if InBounds(env, p) then world[p := block] else world
  }

  /** The index without the entries that `u` holds with the same runtime ID. */
  function Settle(index: Updates, u: Updates): Updates {
    map p | p in index && !(p in u && u[p] == index[p]) :: index[p]
  }

  function RunUpdates(env: Env, c: Core, u: Updates): Core {
    c.(world := c.world + Written(env, u), index := Settle(c.index, u))
  }

  // ----- running and ticking acknowledgements

  function RunAck(env: Env, c: Core, a: Ack): Core {
    match a
    case Blocks(b) => if b.valid then RunUpdates(env, c, b.updates) else c
    case Knockback(k) => if k.ran then c else c.(mv := c.mv.(knockback := k.velocity, ticksSinceKb := 0))
    case Teleport(pos, onGround, smoothed) =>
      c.(mv := c.mv.(teleportPos := pos, onGround := onGround, smoothed := smoothed, ticksSinceTeleport := 0,
                     completionTicks := if smoothed then 2 else 0, pendingTeleports := c.mv.pendingTeleports - 1))
    case Correction(setField) =>
      c.(mv := c.mv.(pendingCorrections := c.mv.pendingCorrections - 1),
         correcting := c.correcting && !setField)
    case Other => c
  }

  function RunAcks(env: Env, c: Core, acks: seq<Ack>): Core {
    if acks == [] then c
    else RunAck(env, RunAcks(env, c, acks[..|acks| - 1]), acks[|acks| - 1])
  }

  /** Whether the next client tick runs the acknowledgement because its time is up. */
  predicate Expires(a: Ack) {
    match a
    case Blocks(b) => b.valid && b.expiresIn - 1 <= 0
    case Knockback(k) => !k.ran && k.expiresIn - 1 <= 0
    case _ => false
  }

  /** An acknowledgement after one client tick. */
  function Aged(a: Ack): Ack {
    match a
    case Blocks(b) =>
      if !b.valid then a
      else if Expires(a) then Blocks(BlockAck(map[], b.expiresIn - 1, false))
      else Blocks(b.(expiresIn := b.expiresIn - 1))
    case Knockback(k) =>
      if k.ran then a else Knockback(k.(expiresIn := k.expiresIn - 1, ran := Expires(a)))
    case _ => a
  }

  function AgedAcks(acks: seq<Ack>): seq<Ack> { seq(|acks|, i requires 0 <= i < |acks| => Aged(acks[i])) }

  function AgedBatches(batches: seq<Batch>): seq<Batch> {
    seq(|batches|, i requires 0 <= i < |batches| => batches[i].(acks := AgedAcks(batches[i].acks)))
  }

  /** What one client tick of a list of acknowledgements does to the player. */
  function TickAcks(env: Env, c: Core, acks: seq<Ack>): Core {
    if acks == [] then c
    else
      var c1 := TickAcks(env, c, acks[..|acks| - 1]);
      var a := acks[|acks| - 1];
      if Expires(a) then RunAck(env, c1, a) else c1
  }

  /** The acknowledgements of a queue of batches, oldest first. */
  function Flat(batches: seq<Batch>): seq<Ack> {
    if batches == [] then [] else Flat(batches[..|batches| - 1]) + batches[|batches| - 1].acks
  }

  // ----- timestamps

  /** Division as the source's language does it: towards zero. */
  function TruncatedDiv(a: int, b: int): (q: int)
    requires b > 0
    ensures a >= 0 ==> q * b <= a < (q + 1) * b
    ensures a < 0 ==> (q - 1) * b < a <= q * b
  {
    if a >= 0 then a / b else -((-a) / b)
  }

  /** The timestamp as it is sent to the client. */
  function Sent(cfg: Config, timestamp: int): int {
    if cfg.legacy && cfg.orbis then TruncatedDiv(timestamp, ACK_DIVIDER) else timestamp
  }

  /** What a client multiplies a timestamp with before it sends it back. */
  function ClientScale(cfg: Config): nat {
    if cfg.orbis then ACK_DIVIDER else if cfg.legacy then 1 else ACK_DIVIDER * ACK_DIVIDER
  }

  /** The timestamp that a client response stands for. */
  function Decoded(cfg: Config, ackID: int): int {
    if cfg.legacy then ackID
    else if cfg.orbis then TruncatedDiv(ackID, ACK_DIVIDER)
    else TruncatedDiv(TruncatedDiv(ackID, ACK_DIVIDER), ACK_DIVIDER)
  }

  function FirstWith(batches: seq<Batch>, timestamp: int): (i: int)
    ensures -1 <= i < |batches|
    ensures i >= 0 ==> batches[i].timestamp == timestamp
    ensures forall j | 0 <= j < (if i < 0 then |batches| else i) :: batches[j].timestamp != timestamp
  {
    if batches == [] then -1
    else if batches[0].timestamp == timestamp then 0
    else
      var r := FirstWith(batches[1..], timestamp);
      assert forall j | 1 <= j < |batches| :: batches[j] == batches[1..][j - 1];
      if r < 0 then -1 else r + 1
  }

  predicate Unused(batches: seq<Batch>, timestamp: int) {
    forall i | 0 <= i < |batches| :: batches[i].timestamp != timestamp
  }

  /** Older clients get timestamps in thousands. */
  function Stamp(legacy: bool, draw: int): int { if legacy then draw * ACK_DIVIDER else draw }

  /** The search for a timestamp ends: one of the random numbers gives one that no queued batch has. */
  ghost predicate SomeUnused(legacy: bool, batches: seq<Batch>, draws: seq<int>) {
    exists i :: 0 <= i < |draws| && Unused(batches, Stamp(legacy, draws[i]))
  }

  /** The timestamp of the first of the random numbers, in the order in which they are drawn, that no queued
      batch has. */
  function FirstUnused(legacy: bool, batches: seq<Batch>, draws: seq<int>): (timestamp: int)
    ensures SomeUnused(legacy, batches, draws) ==> Unused(batches, timestamp)
  {
    if draws == [] then 0
    else if Unused(batches, Stamp(legacy, draws[0])) then Stamp(legacy, draws[0])
    else
      assert SomeUnused(legacy, batches, draws) ==> SomeUnused(legacy, batches, draws[1..]) by {
        if SomeUnused(legacy, batches, draws) {
          var i :| 0 <= i < |draws| && Unused(batches, Stamp(legacy, draws[i]));
          assert draws[1..][i - 1] == draws[i];
        }
      }
      FirstUnused(legacy, batches, draws[1..])
  }

  /** A fresh batch, with a timestamp that the queue does not have. */
  function FreshBatch(cfg: Config, batches: seq<Batch>, draws: seq<int>): Batch {
    Batch(FirstUnused(cfg.legacy, batches, draws), [])
  }

  // ----- the steps of the protocol

  function Queue(s: State, a: Ack): State { s.(current := s.current.(acks := s.current.acks + [a])) }

  function AddBlock(s: State, p: Pos, rid: Rid): State {
    s.(unflushed := s.unflushed[p := rid], core := s.core.(index := s.core.index[p := rid]))
  }

  predicate CutOff(cfg: Config, serverTick: int, clientTick: int) {
    cfg.cutoff >= 0 && serverTick - clientTick >= cfg.cutoff
  }

  function Expiry(delay: int): int { if delay < 0 then NO_EXPIRY else delay }

  /** The updates that confirm a refused client placement when no ghost blocks are allowed.  `placed` gives
      the block that was at a position before the client placed there. */
  function Refused(env: Env, cfg: Config, u: Updates, placed: Updates): Updates {
    map p | p in u && cfg.maxChain == 0 && p in placed && Resolve(env, u[p]) == placed[p] :: u[p]
  }

  /** The world updater's part of a flush. */
  function FlushWorld(env: Env, cfg: Config, s: State, serverTick: int, clientTick: int, placed: Updates): State {
    if s.unflushed == map[] then s
    else
      var refused := Refused(env, cfg, s.unflushed, placed);
      var kept := s.unflushed - refused.Keys;
      var c := RunUpdates(env, s.core, refused);
      if CutOff(cfg, serverTick, clientTick) then
        s.(core := RunUpdates(env, c, kept), unflushed := map[])
      else
        Queue(s.(core := c, unflushed := map[]),
              Blocks(BlockAck(kept, Expiry(cfg.maxBlockUpdateDelay), true)))
  }

  function Flush(
    env: Env, cfg: Config, s: State, serverTick: int, clientTick: int, placed: Updates, draws: seq<int>): State
  {
    var s1 := FlushWorld(env, cfg, s, serverTick, clientTick, placed);
    var sent := s1.pending + [s1.current];
    s1.(pending := sent, current := FreshBatch(cfg, sent, draws))
  }

  function Echo(env: Env, cfg: Config, s: State, ackID: int): State {
    var i := FirstWith(s.pending, Decoded(cfg, ackID));
    if i < 0 then s
    else s.(core := RunAcks(env, s.core, Flat(s.pending[..i + 1])), pending := s.pending[i + 1..], silentTicks := 0)
  }

  function ClientTick(env: Env, s: State): State {
    s.(core := TickAcks(env, s.core, Flat(s.pending)), pending := AgedBatches(s.pending), clientTicked := true)
  }

  function ServerTick(s: State, serverTick: int, connected: bool): State {
    var s1 := if serverTick % 10 == 0 then Queue(s, Other) else s;
    if !s1.clientTicked then s1
    else s1.(clientTicked := false,
             silentTicks := if s1.pending != [] && connected then s1.silentTicks + 1 else 0)
  }

  function ServerTeleport(s: State, pos: Vec3, onGround: bool, smoothed: bool): State {
    var mv := s.core.mv.(pendingTeleportPos := pos, pendingTeleports := s.core.mv.pendingTeleports + 1);
    Queue(s.(core := s.core.(mv := mv)), Teleport(pos, onGround, smoothed))
  }

  /** A movement correction; without actor data the correction packet itself is not sent. */
  function Sync(s: State, hasActorData: bool): State {
    var mv := s.core.mv.(pendingCorrections := s.core.mv.pendingCorrections + 1, cooldown := true);
    var s1 := Queue(s.(core := s.core.(mv := mv)), Correction(!s.core.correcting));
    s1.(core := s1.core.(correcting := s1.core.correcting || hasActorData))
  }

  function ServerKnockback(env: Env, cfg: Config, s: State, velocity: Vec3, serverTick: int, clientTick: int): State {
    var a := Knockback(KnockbackAck(velocity, Expiry(cfg.maxKnockbackDelay), false));
    if CutOff(cfg, serverTick, clientTick) then s.(core := RunAck(env, s.core, a)) else Queue(s, a)
  }

  const ZERO := Vec3(0.0, 0.0, 0.0)

  function ResetMovement(pos: Vec3): Movement {
    Movement(pos, false, false, 1, 0, pos, 0, ZERO, 1, 0, false)
  }

  /** The first backend arrives. */
  function SetServer(cfg: Config, s: State, pos: Vec3, draws: seq<int>): State {
    s.(core := s.core.(mv := ResetMovement(pos), correcting := false),
       pending := [], current := FreshBatch(cfg, [], draws), clientTicked := false, silentTicks := 0)
  }

  /** Chunks are cleaned up, purged or replaced. */
  function DropChunks(s: State, chunks: set<ChunkPos>): State {
    s.(core := s.core.(world := Without(s.core.world, chunks)))
  }

  /** Another backend takes over, and the loaded chunks are purged. */
  function Transfer(cfg: Config, s: State, pos: Vec3, loaded: set<ChunkPos>, draws: seq<int>): State {
    DropChunks(SetServer(cfg, s, pos, draws), loaded)
  }

  /** The client places a block, which is in the world at once. */
  function PlaceBlock(env: Env, s: State, p: Pos, block: Rid): State {
    s.(core := s.core.(world := Placed(env, s.core.world, p, block)))
  }

  // ----- runs

  datatype Event =
    | BlockEvent(p: Pos, rid: Rid)
    | TeleportEvent(pos: Vec3, onGround: bool, smoothed: bool)
    | SyncEvent(hasActorData: bool)
    | KnockbackEvent(velocity: Vec3, serverTick: int, clientTick: int)
    | OtherEvent
    | FlushEvent(serverTick: int, clientTick: int, placed: Updates, draws: seq<int>)
    | EchoEvent(ackID: int)
    | ClientTickEvent
    | ServerTickEvent(serverTick: int, connected: bool)
    | PlaceEvent(p: Pos, block: Rid)
    | DropEvent(chunks: set<ChunkPos>)
    | TransferEvent(pos: Vec3, loaded: set<ChunkPos>, draws: seq<int>)

  function Step(env: Env, cfg: Config, s: State, e: Event): State {
    match e
    case BlockEvent(p, rid) => AddBlock(s, p, rid)
    case TeleportEvent(pos, onGround, smoothed) => ServerTeleport(s, pos, onGround, smoothed)
    case SyncEvent(hasActorData) => Sync(s, hasActorData)
    case KnockbackEvent(velocity, st, ct) => ServerKnockback(env, cfg, s, velocity, st, ct)
    case OtherEvent => Queue(s, Other)
    case FlushEvent(st, ct, placed, draws) => Flush(env, cfg, s, st, ct, placed, draws)
    case EchoEvent(ackID) => Echo(env, cfg, s, ackID)
    case ClientTickEvent => ClientTick(env, s)
    case ServerTickEvent(st, connected) => ServerTick(s, st, connected)
    case PlaceEvent(p, block) => PlaceBlock(env, s, p, block)
    case DropEvent(chunks) => DropChunks(s, chunks)
    case TransferEvent(pos, loaded, draws) => Transfer(cfg, s, pos, loaded, draws)
  }

  function Run(env: Env, cfg: Config, s: State, events: seq<Event>): State {
    if events == [] then s
    else Step(env, cfg, Run(env, cfg, s, events[..|events| - 1]), events[|events| - 1])
  }

  /** A session before its first packet: nothing queued, no update outstanding. */
  function Initial(cfg: Config, world: Updates, draws: seq<int>): State {
    State(Core(world, map[], Movement(ZERO, false, false, 0, 0, ZERO, 0, ZERO, 0, 0, false), false),
          map[], [], FreshBatch(cfg, [], draws), false, 0)
  }

  /** The world of a proxy without lag compensation after one more event. */
  function StepAtOnce(env: Env, world: Updates, e: Event): Updates {
    match e
    case BlockEvent(p, rid) => world + Written(env, map[p := rid])
    case PlaceEvent(p, block) => Placed(env, world, p, block)
    case DropEvent(chunks) => Without(world, chunks)
    case TransferEvent(_, loaded, _) => Without(world, loaded)
    case _ => world
  }

  /** The world of a proxy without lag compensation: every block update is written when it arrives. */
  function AppliedAtOnce(env: Env, world: Updates, events: seq<Event>): Updates {
    if events == [] then world
    else StepAtOnce(env, AppliedAtOnce(env, world, events[..|events| - 1]), events[|events| - 1])
  }

  /** The block updates that an acknowledgement still has to write. */
  function Held(a: Ack): Updates {
    if a.Blocks? && a.batch.valid then a.batch.updates else map[]
  }

  /** The block updates that a list of acknowledgements still has to write, newest value for each position. */
  function Outstanding(acks: seq<Ack>): Updates {
    if acks == [] then map[] else Outstanding(acks[..|acks| - 1]) + Held(acks[|acks| - 1])
  }

  function Queued(s: State): seq<Ack> { Flat(s.pending) + s.current.acks }

  function AllOutstanding(s: State): Updates { Outstanding(Queued(s)) + s.unflushed }

  /** The delayed world with everything still outstanding written over it, oldest first. */
  function CaughtUp(env: Env, s: State): Updates {
    s.core.world + Written(env, AllOutstanding(s))
  }
}
