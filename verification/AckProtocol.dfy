/** The objects of the lag-compensation protocol, proved to take the steps of `AckModel`. */
module AckProtocol {
  import opened AckModel
  import AckTheorems

  lemma WithoutNone(world: Updates)
    ensures Without(world, {}) == world
  {
  }

  lemma WithoutMore(world: Updates, some: set<ChunkPos>, more: set<ChunkPos>)
    ensures Without(Without(world, some), more) == Without(world, some + more)
  {
  }

  /** Block updates laid over the decoded chunks, one map for each chunk column. */
  class World {
    var chunks: set<ChunkPos>  // the loaded ones
    var blockUpdates: map<ChunkPos, Updates>
    ghost var overlay: Updates

    /** The chunk maps and the overlay say the same about one position. */
    ghost predicate Agrees(p: Pos) reads this`blockUpdates, this`overlay {
      var c := ChunkOf(p);
      if c in blockUpdates && p in blockUpdates[c] then p in overlay && overlay[p] == blockUpdates[c][p]
      else p !in overlay
    }

    ghost predicate Valid() reads this`blockUpdates, this`overlay { forall p {:trigger Agrees(p)} :: Agrees(p) }

    constructor ()
      ensures Valid() && overlay == map[] && chunks == {}
    {
      chunks, blockUpdates, overlay := {}, map[], map[];
      new;
      assert forall p :: Agrees(p);
    }

    method SetBlock(env: Env, p: Pos, block: Rid)
      requires Valid()
      modifies this`blockUpdates, this`overlay
      ensures Valid() && overlay == Placed(env, old(overlay), p, block)
      ensures overlay == if env.minY <= p.y <= env.maxY then old(overlay)[p := block] else old(overlay)
    {
      if !InBounds(env, p) { return; }
      var c := ChunkOf(p);
      if c !in blockUpdates {
        blockUpdates := blockUpdates[c := map[]];
      }
      blockUpdates := blockUpdates[c := blockUpdates[c][p := block]];
      overlay := overlay[p := block];
      forall q ensures Agrees(q) { assert old(Agrees(q)); }
    }

    method RemoveChunk(c: ChunkPos)
      requires Valid()
      modifies this
      ensures Valid() && chunks == old(chunks) - {c} && overlay == Without(old(overlay), {c})
    {
      chunks, blockUpdates := chunks - {c}, blockUpdates - {c};
      overlay := Without(overlay, {c});
      forall q ensures Agrees(q) { assert old(Agrees(q)); }
    }

    method AddChunk(c: ChunkPos)
      requires Valid()
      modifies this
      ensures Valid() && chunks == old(chunks) + {c}
      ensures overlay == if c in old(chunks) then Without(old(overlay), {c}) else old(overlay)
    {
      if c in chunks {
        RemoveChunk(c);
      }
      chunks := chunks + {c};
    }

    /** The block updates of every loaded chunk go, in no particular order; those of other chunks stay. */
    method PurgeChunks()
      requires Valid()
      modifies this
      ensures Valid() && chunks == {} && overlay == Without(old(overlay), old(chunks))
    {
      ghost var all := chunks;
      WithoutNone(overlay);
      while chunks != {}
        invariant Valid() && chunks <= all && overlay == Without(old(overlay), all - chunks)
        decreases |chunks|
      {
        var c :| c in chunks;
        WithoutMore(old(overlay), all - chunks, {c});
        assert all - (chunks - {c}) == all - chunks + {c};
        RemoveChunk(c);
      }
      assert all - {} == all;
    }

    /** A block that has been set is read back; any other comes from the chunk below. */
    method Block(env: Env, p: Pos, below: Rid) returns (block: Rid)
      requires Valid()
      modifies this`blockUpdates
      ensures Valid()
      ensures block == if !InBounds(env, p) then env.air else if p in overlay then overlay[p] else below
    {
      if !InBounds(env, p) { return env.air; }
      assert Agrees(p);
      var c := ChunkOf(p);
      if c in blockUpdates {
        if p in blockUpdates[c] { return blockUpdates[c][p]; }
      } else {
        blockUpdates := blockUpdates[c := map[]];
        forall q ensures Agrees(q) { assert old(Agrees(q)); }
      }
      return below;
    }
  }

  /** A batch of block updates that runs when the client has seen it or when its time is up. */
  class UpdateBlockBatch {
    var updates: Updates
    var expiresIn: int
    var valid: bool

    ghost function Model(): BlockAck reads this { BlockAck(updates, expiresIn, valid) }

    constructor ()
      ensures Model() == BlockAck(map[], 0, true)
    {
      updates, expiresIn, valid := map[], 0, true;
    }

    method SetBlock(p: Pos, rid: Rid)
      modifies this`updates
      ensures updates == old(updates)[p := rid]
    {
      updates := updates[p := rid];
    }

    method RemoveBlock(p: Pos)
      modifies this`updates
      ensures updates == old(updates) - {p}
    {
      updates := updates - {p};
    }

    method SetExpiry(ticks: int)
      modifies this`expiresIn
      ensures expiresIn == ticks
    {
      expiresIn := ticks;
    }

    /** The updates are applied in no particular order. */
    method Run(p: Player)
      requires p.world.Valid()
      modifies this`updates, this`valid, p.world`blockUpdates, p.world`overlay, p.updater`pendingBlockUpdates
      ensures p.world.Valid()
      ensures p.Core() == RunAck(p.env, old(p.Core()), Blocks(old(Model())))
      ensures Model() == if old(valid) then BlockAck(map[], expiresIn, false) else old(Model())
    {
      if !valid { return; }
      valid := false;
      var todo := updates.Keys;
      while todo != {}
        invariant todo <= updates.Keys && updates == old(updates) && !valid
        invariant p.world.Valid()
        invariant p.Core() == RunUpdates(p.env, old(p.Core()), updates - todo)
        decreases todo
      {
        var q :| q in todo;
        ghost var before := updates - todo;
        p.world.SetBlock(p.env, q, Resolve(p.env, updates[q]));
        p.updater.RemovePendingUpdate(q, updates[q]);
        todo := todo - {q};
        WriteOneMore(p.env, old(p.Core()).world, before, q, updates[q]);
        SettleOneMore(old(p.Core()).index, before, q, updates[q]);
        assert updates - todo == before[q := updates[q]];
      }
      assert updates - {} == updates;
      updates := map[];
    }

    method Tick(p: Player)
      requires p.world.Valid()
      modifies this, p.world`blockUpdates, p.world`overlay, p.updater`pendingBlockUpdates
      ensures p.world.Valid()
      ensures var a := Blocks(old(Model()));
        Blocks(Model()) == Aged(a)
        && p.Core() == if Expires(a) then RunAck(p.env, old(p.Core()), a) else old(p.Core())
    {
      if !valid { return; }
      expiresIn := expiresIn - 1;
      if expiresIn <= 0 {
        Run(p);
      }
    }
  }

  lemma WriteOneMore(env: Env, w: Updates, u: Updates, q: Pos, rid: Rid)
    ensures w + Written(env, u[q := rid])
         == if InBounds(env, q) then (w + Written(env, u))[q := Resolve(env, rid)] else w + Written(env, u)
    requires q !in u
  {
    if InBounds(env, q) {
      assert Written(env, u[q := rid]) == Written(env, u)[q := Resolve(env, rid)];
    } else {
      assert Written(env, u[q := rid]) == Written(env, u);
    }
  }

  lemma SettleOneMore(index: Updates, u: Updates, q: Pos, rid: Rid)
    requires q !in u
    ensures Settle(index, u[q := rid])
         == if q in Settle(index, u) && Settle(index, u)[q] == rid then Settle(index, u) - {q} else Settle(index, u)
  {
  }

  lemma RefusedNone(env: Env, cfg: Config, c: Core, u: Updates, placed: Updates)
    ensures RunUpdates(env, c, map[]) == c
    ensures Refused(env, cfg, u, placed) - u.Keys == map[]
    ensures u - {} == u
  {
    assert c.world + Written(env, map[]) == c.world;
    assert Settle(c.index, map[]) == c.index;
  }

  lemma RefusedOneMore(u: Updates, refused: Updates, todo: set<Pos>, q: Pos)
    requires q in todo && todo <= u.Keys && refused.Keys <= u.Keys
    requires forall p | p in refused :: refused[p] == u[p]
    ensures q !in refused - todo
    ensures refused - (todo - {q}) == if q in refused then (refused - todo)[q := u[q]] else refused - todo
    ensures q in refused ==> u - (refused - todo).Keys - {q} == u - (refused - todo)[q := u[q]].Keys
  {
  }

  class KnockbackAcknowledgment {
    const velocity: Vec3
    var expiresIn: int
    var ran: bool

    ghost function Model(): KnockbackAck reads this { KnockbackAck(velocity, expiresIn, ran) }

    constructor (velocity: Vec3, expiresIn: int)
      ensures Model() == KnockbackAck(velocity, expiresIn, false)
    {
      this.velocity, this.expiresIn, ran := velocity, expiresIn, false;
    }

    method Run(p: Player)
      modifies this`ran, p.movement`knockback, p.movement`ticksSinceKb
      ensures p.Core() == RunAck(p.env, old(p.Core()), Knockback(old(Model())))
      ensures Model() == old(Model()).(ran := true)
    {
      if !ran {
        p.movement.knockback, p.movement.ticksSinceKb := velocity, 0;
        ran := true;
      }
    }

    method Tick(p: Player)
      modifies this, p.movement`knockback, p.movement`ticksSinceKb
      ensures var a := Knockback(old(Model()));
        Knockback(Model()) == Aged(a)
        && p.Core() == if Expires(a) then RunAck(p.env, old(p.Core()), a) else old(p.Core())
    {
      if ran { return; }
      expiresIn := expiresIn - 1;
      if expiresIn <= 0 {
        Run(p);
      }
    }
  }

  datatype Acknowledgment =
    | BlockUpdates(batch: UpdateBlockBatch)
    | KnockbackUpdate(kb: KnockbackAcknowledgment)
    | TeleportPlayer(pos: Vec3, onGround: bool, smoothed: bool)
    | MovementCorrection(setField: bool)
    | OtherAcknowledgment

  datatype AckBatch = AckBatch(timestamp: int, acks: seq<Acknowledgment>)

  /** The object that an acknowledgement owns, if any. */
  ghost function Owned(a: Acknowledgment): set<object> {
    match a
    case BlockUpdates(b) => {b}
    case KnockbackUpdate(k) => {k}
    case _ => {}
  }

  ghost function AckOf(a: Acknowledgment): Ack
    reads Owned(a)
  {
    match a
    case BlockUpdates(b) => Blocks(b.Model())
    case KnockbackUpdate(k) => Knockback(k.Model())
    case TeleportPlayer(pos, onGround, smoothed) => Teleport(pos, onGround, smoothed)
    case MovementCorrection(setField) => Correction(setField)
    case OtherAcknowledgment => Other
  }

  /** The acknowledgements have the given values, and each owns an object of `repr` that no other one owns. */
  ghost predicate Represents(acks: seq<Acknowledgment>, values: seq<Ack>, repr: set<object>)
    reads repr
  {
    |acks| == |values| &&
    (acks == [] ||
     var n := |acks| - 1;
     Owned(acks[n]) <= repr && AckOf(acks[n]) == values[n] && Represents(acks[..n], values[..n], repr - Owned(acks[n])))
  }

  lemma RepresentsOneMore(
    acks: seq<Acknowledgment>, values: seq<Ack>, repr: set<object>, a: Acknowledgment, value: Ack)
    requires Owned(a) <= repr && AckOf(a) == value && Represents(acks, values, repr - Owned(a))
    ensures Represents(acks + [a], values + [value], repr)
  {
    assert (acks + [a])[..|acks|] == acks && (values + [value])[..|acks|] == values;
  }

  lemma RepresentsLast(acks: seq<Acknowledgment>, values: seq<Ack>, repr: set<object>)
    requires Represents(acks, values, repr) && acks != []
    ensures |values| == |acks|
    ensures var n := |acks| - 1; var a := acks[n];
      Owned(a) <= repr && AckOf(a) == values[n] && Represents(acks[..n], values[..n], repr - Owned(a))
  {
  }

  lemma RepresentsSnoc(acks: seq<Acknowledgment>, values: seq<Ack>, repr: set<object>, a: Acknowledgment)
    requires Represents(acks, values, repr) && Owned(a) !! repr
    ensures Represents(acks + [a], values + [AckOf(a)], repr + Owned(a))
  {
    assert (acks + [a])[..|acks|] == acks && (values + [AckOf(a)])[..|acks|] == values;
    assert repr + Owned(a) - Owned(a) == repr;
  }

  lemma {:induction false} RepresentsWider(acks: seq<Acknowledgment>, values: seq<Ack>, repr: set<object>,
      wider: set<object>)
    requires Represents(acks, values, repr) && repr <= wider
    ensures Represents(acks, values, wider)
  {
    if acks != [] {
      var n := |acks| - 1;
      RepresentsWider(acks[..n], values[..n], repr - Owned(acks[n]), wider - Owned(acks[n]));
    }
  }

  /** The first acknowledgement owns its object alone. */
  lemma {:induction false} RepresentsFirst(acks: seq<Acknowledgment>, values: seq<Ack>, repr: set<object>)
    requires Represents(acks, values, repr) && acks != []
    ensures Owned(acks[0]) <= repr && AckOf(acks[0]) == values[0]
    ensures Represents(acks[1..], values[1..], repr - Owned(acks[0]))
  {
    var n := |acks| - 1;
    if n > 0 {
      RepresentsFirst(acks[..n], values[..n], repr - Owned(acks[n]));
      assert acks[..n][1..] == acks[1..][..n - 1] && values[..n][1..] == values[1..][..n - 1];
      assert repr - Owned(acks[n]) - Owned(acks[0]) == repr - Owned(acks[0]) - Owned(acks[n]);
    }
  }

  lemma {:induction false} RepresentsPrefix(acks: seq<Acknowledgment>, values: seq<Ack>, repr: set<object>, k: nat)
    requires Represents(acks, values, repr) && k <= |acks|
    ensures Represents(acks[..k], values[..k], repr)
    decreases |acks|
  {
    var n := |acks| - 1;
    if k <= n {
      RepresentsPrefix(acks[..n], values[..n], repr - Owned(acks[n]), k);
      assert acks[..n][..k] == acks[..k] && values[..n][..k] == values[..k];
      RepresentsWider(acks[..k], values[..k], repr - Owned(acks[n]), repr);
    } else {
      assert acks[..k] == acks && values[..k] == values;
    }
  }

  lemma {:induction false} RepresentsSuffix(acks: seq<Acknowledgment>, values: seq<Ack>, repr: set<object>, k: nat)
    requires Represents(acks, values, repr) && k <= |acks|
    ensures Represents(acks[k..], values[k..], repr)
    decreases k
  {
    if k == 0 {
      assert acks[0..] == acks && values[0..] == values;
    } else {
      RepresentsFirst(acks, values, repr);
      RepresentsWider(acks[1..], values[1..], repr - Owned(acks[0]), repr);
      RepresentsSuffix(acks[1..], values[1..], repr, k - 1);
      assert acks[1..][k - 1..] == acks[k..] && values[1..][k - 1..] == values[k..];
    }
  }

  ghost function FlatRefs(batches: seq<AckBatch>): seq<Acknowledgment> {
    if batches == [] then [] else FlatRefs(batches[..|batches| - 1]) + batches[|batches| - 1].acks
  }

  lemma {:induction false} FlatRefsAppends(a: seq<AckBatch>, b: seq<AckBatch>)
    ensures FlatRefs(a + b) == FlatRefs(a) + FlatRefs(b)
  {
    if b == [] {
      assert a + b == a;
    } else {
      assert (a + b)[..|a + b| - 1] == a + b[..|b| - 1];
      FlatRefsAppends(a, b[..|b| - 1]);
    }
  }

  /** Batch by batch, the same timestamps and numbers of acknowledgements. */
  ghost predicate Aligned(batches: seq<AckBatch>, values: seq<Batch>) {
    |batches| == |values| &&
    forall i | 0 <= i < |batches| ::
      batches[i].timestamp == values[i].timestamp && |batches[i].acks| == |values[i].acks|
  }

  lemma AlignedSnoc(batches: seq<AckBatch>, values: seq<Batch>, b: AckBatch, v: Batch)
    requires Aligned(batches, values) && b.timestamp == v.timestamp && |b.acks| == |v.acks|
    ensures Aligned(batches + [b], values + [v])
    ensures FlatRefs(batches + [b]) == FlatRefs(batches) + b.acks && Flat(values + [v]) == Flat(values) + v.acks
  {
    assert (batches + [b])[..|batches|] == batches && (values + [v])[..|values|] == values;
  }

  lemma AgedAligned(batches: seq<AckBatch>, values: seq<Batch>)
    requires Aligned(batches, values)
    ensures Aligned(batches, AgedBatches(values))
  {
  }

  lemma TickOneMore(env: Env, c: Core, values: seq<Ack>, j: nat)
    requires j < |values|
    ensures TickAcks(env, c, values[..j + 1])
         == if Expires(values[j]) then RunAck(env, TickAcks(env, c, values[..j]), values[j])
            else TickAcks(env, c, values[..j])
    ensures AgedAcks(values[..j + 1]) == AgedAcks(values[..j]) + [Aged(values[j])]
  {
    assert values[..j + 1][..j] == values[..j];
  }

  lemma AgedAppends(a: seq<Ack>, b: seq<Ack>)
    ensures AgedAcks(a + b) == AgedAcks(a) + AgedAcks(b)
  {
  }

  lemma {:induction false} AlignedFlat(batches: seq<AckBatch>, values: seq<Batch>)
    requires Aligned(batches, values)
    ensures |FlatRefs(batches)| == |Flat(values)|
  {
    if batches != [] {
      AlignedFlat(batches[..|batches| - 1], values[..|values| - 1]);
    }
  }

  class MovementComponent {
    var teleportPos: Vec3
    var onGround: bool
    var teleportIsSmoothed: bool
    var ticksSinceTeleport: nat
    var teleportCompletionTicks: nat
    var pendingTeleportPos: Vec3
    var pendingTeleports: int
    var knockback: Vec3
    var ticksSinceKb: nat
    var pendingCorrections: int
    var inCorrectionCooldown: bool

    ghost function Model(): Movement reads this {
      Movement(teleportPos, onGround, teleportIsSmoothed, ticksSinceTeleport, teleportCompletionTicks,
               pendingTeleportPos, pendingTeleports, knockback, ticksSinceKb, pendingCorrections,
               inCorrectionCooldown)
    }

    constructor ()
      ensures Model() == Movement(ZERO, false, false, 0, 0, ZERO, 0, ZERO, 0, 0, false)
    {
      teleportPos, onGround, teleportIsSmoothed := ZERO, false, false;
      ticksSinceTeleport, teleportCompletionTicks := 0, 0;
      pendingTeleportPos, pendingTeleports := ZERO, 0;
      knockback, ticksSinceKb, pendingCorrections, inCorrectionCooldown := ZERO, 0, 0, false;
    }

    method Teleport(pos: Vec3, ground: bool, smoothed: bool)
      modifies this
      ensures Model() == old(Model()).(teleportPos := pos, onGround := ground, smoothed := smoothed,
                                       ticksSinceTeleport := 0, completionTicks := if smoothed then 2 else 0)
    {
      teleportPos, onGround, teleportIsSmoothed, ticksSinceTeleport := pos, ground, smoothed, 0;
      if smoothed {
        teleportCompletionTicks := 2;
      } else {
        teleportCompletionTicks := 0;
      }
    }

    method ResetTransferState(pos: Vec3)
      modifies this
      ensures Model() == ResetMovement(pos)
    {
      onGround, knockback, ticksSinceKb := false, ZERO, 1;
      pendingTeleportPos, pendingTeleports, teleportPos := pos, 0, pos;
      ticksSinceTeleport, teleportCompletionTicks, teleportIsSmoothed := 1, 0, false;
      pendingCorrections, inCorrectionCooldown := 0, false;
    }
  }

  class WorldUpdater {
    var pendingBlockUpdates: Updates
    var batchedBlockUpdates: UpdateBlockBatch

    constructor ()
      ensures pendingBlockUpdates == map[] && fresh(batchedBlockUpdates)
      ensures batchedBlockUpdates.Model() == BlockAck(map[], 0, true)
    {
      pendingBlockUpdates := map[];
      batchedBlockUpdates := new UpdateBlockBatch();
    }

    method RemovePendingUpdate(p: Pos, rid: Rid)
      modifies this`pendingBlockUpdates
      ensures pendingBlockUpdates == if p in old(pendingBlockUpdates) && old(pendingBlockUpdates)[p] == rid
                                     then old(pendingBlockUpdates) - {p} else old(pendingBlockUpdates)
    {
      if p in pendingBlockUpdates && pendingBlockUpdates[p] == rid {
        pendingBlockUpdates := pendingBlockUpdates - {p};
      }
    }
  }

  class AckComponent {
    var pending: seq<AckBatch>
    var currentBatch: AckBatch
    var clientTicked: bool
    var ticksSinceLastResponse: int
    ghost var queue: seq<Batch>  // the values of `pending`
    ghost var filling: Batch  // the value of `currentBatch`
    ghost var repr: set<object>  // the objects of queued acknowledgements

    /** Every acknowledgement that has not left the protocol, oldest first. */
    ghost function Refs(): seq<Acknowledgment> reads this { FlatRefs(pending) + currentBatch.acks }

    ghost function Values(): seq<Ack> reads this { Flat(queue) + filling.acks }

    ghost predicate InStep() reads this {
      && Aligned(pending, queue) && filling.timestamp == currentBatch.timestamp
      && |filling.acks| == |currentBatch.acks| && this !in repr
    }

    ghost predicate Valid() reads this, repr { InStep() && Represents(Refs(), Values(), repr) }

    constructor (legacy: bool, draws: seq<int>)
      requires SomeUnused(legacy, [], draws)
      ensures Valid() && queue == [] && repr == {} && !clientTicked && ticksSinceLastResponse == 0
      ensures filling == Batch(FirstUnused(legacy, [], draws), [])
    {
      pending, queue, clientTicked, ticksSinceLastResponse, repr := [], [], false, 0, {};
      currentBatch, filling := AckBatch(0, []), Batch(0, []);
      new;
      Refresh(legacy, draws);
    }

    /** Queues an acknowledgement whose object is not queued yet. */
    method Add(a: Acknowledgment)
      requires Valid() && Owned(a) !! repr
      modifies this`currentBatch, this`filling, this`repr
      ensures Valid() && repr == old(repr) + Owned(a)
      ensures filling == old(filling).(acks := old(filling).acks + [AckOf(a)])
    {
      hide Flat, FlatRefs, Represents, Aligned;
      ghost var refs, values := Refs(), Values();
      RepresentsSnoc(refs, values, repr, a);
      currentBatch := currentBatch.(acks := currentBatch.acks + [a]);
      filling := filling.(acks := filling.acks + [AckOf(a)]);
      repr := repr + Owned(a);
      assert Refs() == refs + [a] && Values() == values + [AckOf(a)];
    }

    /** Starts a batch: draws random timestamps until no queued batch has the one drawn. */
    method Refresh(legacy: bool, draws: seq<int>)
      requires this !in repr && Represents(FlatRefs(pending), Flat(queue), repr) && Aligned(pending, queue)
      requires SomeUnused(legacy, queue, draws)
      modifies this`currentBatch, this`filling
      ensures Valid() && filling == Batch(FirstUnused(legacy, queue, draws), [])
    {
      hide Represents, Flat, FlatRefs;
      for i := 0 to |draws|
        invariant FirstUnused(legacy, queue, draws) == FirstUnused(legacy, queue, draws[i..])
        invariant forall k | 0 <= k < i :: !Unused(queue, Stamp(legacy, draws[k]))
      {
        currentBatch := AckBatch(draws[i], []);
        if legacy {
          currentBatch := currentBatch.(timestamp := currentBatch.timestamp * ACK_DIVIDER);
        }
        var unique := true;
        for j := 0 to |pending|
          invariant unique == forall k | 0 <= k < j :: pending[k].timestamp != currentBatch.timestamp
          invariant currentBatch == AckBatch(Stamp(legacy, draws[i]), [])
        {
          if pending[j].timestamp == currentBatch.timestamp { unique := false; }
        }
        if unique {
          filling := Batch(currentBatch.timestamp, []);
          assert Refs() == FlatRefs(pending) && Values() == Flat(queue);
          return;
        }
      }
      assert false;
    }

    /** Takes the oldest batches off the queue; `left` holds the objects of the others. */
    method Drop(count: nat, ghost left: set<object>)
      requires InStep() && count <= |pending| && left <= repr
      requires Represents(FlatRefs(pending[count..]) + currentBatch.acks, Flat(queue[count..]) + filling.acks, left)
      modifies this
      ensures Valid() && queue == old(queue)[count..] && filling == old(filling) && repr == left
      ensures clientTicked == old(clientTicked) && ticksSinceLastResponse == 0
    {
      hide Represents, Flat, FlatRefs;
      pending, queue, repr, ticksSinceLastResponse := pending[count..], queue[count..], left, 0;
    }

    /** Records that every queued acknowledgement has been ticked. */
    ghost method Age(done: set<object>, left: set<object>)
      requires InStep() && done !! left && done + left <= repr
      requires Represents(FlatRefs(pending), AgedAcks(Flat(queue)), done)
      requires Represents(currentBatch.acks, filling.acks, left)
      modifies this`queue, this`repr
      ensures Valid() && queue == AgedBatches(old(queue)) && repr == done + left
    {
      hide Represents, Flat, FlatRefs, AgedAcks;
      RepresentsAppend(FlatRefs(pending), AgedAcks(Flat(queue)), done, currentBatch.acks, filling.acks, left);
      AckTheorems.FlatAges(queue);
      AgedAligned(pending, queue);
      queue, repr := AgedBatches(queue), done + left;
    }

    /** Moves the batch being filled to the end of the queue. */
    method Send(legacy: bool, draws: seq<int>)
      requires Valid() && SomeUnused(legacy, queue + [filling], draws)
      modifies this
      ensures Valid() && queue == old(queue) + [old(filling)] && repr == old(repr)
      ensures filling == Batch(FirstUnused(legacy, queue, draws), [])
      ensures clientTicked == old(clientTicked) && ticksSinceLastResponse == old(ticksSinceLastResponse)
    {
      hide Represents, Aligned, Flat, FlatRefs;
      AlignedSnoc(pending, queue, currentBatch, filling);
      pending, queue := pending + [currentBatch], queue + [filling];
      Refresh(legacy, draws);
    }
  }

  lemma {:induction false} RunAppends(env: Env, c: Core, a: seq<Ack>, b: seq<Ack>)
    ensures RunAcks(env, c, a + b) == RunAcks(env, RunAcks(env, c, a), b)
  {
    hide RunAck;
    if b == [] {
      assert a + b == a;
    } else {
      assert (a + b)[..|a + b| - 1] == a + b[..|b| - 1];
      RunAppends(env, c, a, b[..|b| - 1]);
    }
  }

  lemma {:induction false} TickAppends(env: Env, c: Core, a: seq<Ack>, b: seq<Ack>)
    ensures TickAcks(env, c, a + b) == TickAcks(env, TickAcks(env, c, a), b)
  {
    hide RunAck, Expires;
    if b == [] {
      assert a + b == a;
    } else {
      assert (a + b)[..|a + b| - 1] == a + b[..|b| - 1];
      TickAppends(env, c, a, b[..|b| - 1]);
    }
  }

  lemma {:induction false} RepresentsAppend(
    a: seq<Acknowledgment>, va: seq<Ack>, ra: set<object>, b: seq<Acknowledgment>, vb: seq<Ack>, rb: set<object>)
    requires Represents(a, va, ra) && Represents(b, vb, rb) && ra !! rb
    ensures Represents(a + b, va + vb, ra + rb)
  {
    if b == [] {
      assert a + b == a && va + vb == va;
      RepresentsWider(a, va, ra, ra + rb);
    } else {
      hide Represents, Owned, AckOf;
      var n := |b| - 1;
      var o := Owned(b[n]);
      RepresentsLast(b, vb, rb);
      RepresentsAppend(a, va, ra, b[..n], vb[..n], rb - o);
      assert a + b == a + b[..n] + [b[n]] && va + vb == va + vb[..n] + [vb[n]];
      assert ra + (rb - o) == ra + rb - o;
      RepresentsOneMore(a + b[..n], va + vb[..n], ra + rb, b[n], vb[n]);
    }
  }

  /** The oldest batch first, in objects and in values. */
  lemma FlatHead(batches: seq<AckBatch>, values: seq<Batch>, k: nat)
    requires |batches| == |values| && k < |batches|
    ensures FlatRefs(batches[k..]) == batches[k].acks + FlatRefs(batches[k + 1..])
    ensures Flat(values[k..]) == values[k].acks + Flat(values[k + 1..])
    ensures Flat(values[..k + 1]) == Flat(values[..k]) + values[k].acks
    ensures FlatRefs(batches[..k + 1]) == FlatRefs(batches[..k]) + batches[k].acks
  {
    assert batches[k..] == [batches[k]] + batches[k + 1..] && values[k..] == [values[k]] + values[k + 1..];
    FlatRefsAppends([batches[k]], batches[k + 1..]);
    AckTheorems.FlatAppends([values[k]], values[k + 1..]);
    assert FlatRefs([batches[k]]) == batches[k].acks && Flat([values[k]]) == values[k].acks;
    assert values[..k + 1][..k] == values[..k] && batches[..k + 1][..k] == batches[..k];
  }

  /** The queue from batch `k` on, taken apart into that batch and the rest. */
  ghost predicate From(
    batches: seq<AckBatch>, values: seq<Batch>, k: nat, last: seq<Acknowledgment>, lastValues: seq<Ack>,
    repr: set<object>)
    requires |batches| == |values| && k <= |batches|
    reads repr
  {
    Represents(FlatRefs(batches[k..]) + last, Flat(values[k..]) + lastValues, repr)
  }

  lemma FromIs(
    batches: seq<AckBatch>, values: seq<Batch>, k: nat, last: seq<Acknowledgment>, lastValues: seq<Ack>,
    repr: set<object>)
    requires |batches| == |values| && k <= |batches|
    ensures From(batches, values, k, last, lastValues, repr)
         == Represents(FlatRefs(batches[k..]) + last, Flat(values[k..]) + lastValues, repr)
  {
  }

  lemma FromHead(
    batches: seq<AckBatch>, values: seq<Batch>, k: nat, last: seq<Acknowledgment>, lastValues: seq<Ack>,
    repr: set<object>)
    requires |batches| == |values| && k < |batches|
    ensures From(batches, values, k, last, lastValues, repr)
         == Represents(batches[k].acks + (FlatRefs(batches[k + 1..]) + last),
                       values[k].acks + (Flat(values[k + 1..]) + lastValues), repr)
  {
    hide Represents, Flat, FlatRefs;
    FlatHead(batches, values, k);
    assert FlatRefs(batches[k..]) + last == batches[k].acks + (FlatRefs(batches[k + 1..]) + last);
    assert Flat(values[k..]) + lastValues == values[k].acks + (Flat(values[k + 1..]) + lastValues);
  }

  lemma FromEnd(batches: seq<AckBatch>, values: seq<Batch>, last: seq<Acknowledgment>, lastValues: seq<Ack>,
                repr: set<object>)
    requires |batches| == |values|
    ensures From(batches, values, |batches|, last, lastValues, repr) == Represents(last, lastValues, repr)
    ensures batches[..|batches|] == batches && values[..|values|] == values
  {
    assert FlatRefs(batches[|batches|..]) + last == last && Flat(values[|values|..]) + lastValues == lastValues;
  }

  lemma FromStart(batches: seq<AckBatch>, values: seq<Batch>, last: seq<Acknowledgment>, lastValues: seq<Ack>,
                  repr: set<object>)
    requires |batches| == |values|
    ensures From(batches, values, 0, last, lastValues, repr)
         == Represents(FlatRefs(batches) + last, Flat(values) + lastValues, repr)
    ensures Flat(values[..0]) == []
  {
    assert batches[0..] == batches && values[0..] == values;
  }

  lemma SliceStep<T>(s: seq<T>, rest: seq<T>, j: nat)
    requires j < |s|
    ensures s[j..] + rest != [] && (s[j..] + rest)[0] == s[j] && (s[j..] + rest)[1..] == s[j + 1..] + rest
    ensures s[..j + 1] == s[..j] + [s[j]]
  {
  }

  lemma SliceEnds<T>(s: seq<T>, rest: seq<T>)
    ensures s[|s|..] + rest == rest && s[..|s|] == s && s[0..] + rest == s + rest && s[..0] == []
  {
  }

  /** Ticking one more batch of the queue. */
  lemma BatchTicked(
    env: Env, c: Core, batches: seq<AckBatch>, values: seq<Batch>, b: nat, done: set<object>, more: set<object>)
    requires b < |batches| == |values| && done !! more
    requires Represents(FlatRefs(batches[..b]), AgedAcks(Flat(values[..b])), done)
    requires Represents(batches[b].acks, AgedAcks(values[b].acks), more)
    ensures Represents(FlatRefs(batches[..b + 1]), AgedAcks(Flat(values[..b + 1])), done + more)
    ensures TickAcks(env, TickAcks(env, c, Flat(values[..b])), values[b].acks) ==
        TickAcks(env, c, Flat(values[..b + 1]))
  {
    hide Represents, TickAcks, Flat, FlatRefs, AgedAcks;
    FlatHead(batches, values, b);
    TickAppends(env, c, Flat(values[..b]), values[b].acks);
    RepresentsAppend(FlatRefs(batches[..b]), AgedAcks(Flat(values[..b])), done,
                     batches[b].acks, AgedAcks(values[b].acks), more);
    AgedAppends(Flat(values[..b]), values[b].acks);
  }

  class Player {
    const env: Env
    const cfg: Config
    const world: World
    const updater: WorldUpdater
    const movement: MovementComponent
    const acks: AckComponent
    var pendingCorrectionACK: bool

    ghost function Core(): Core
      reads this`pendingCorrectionACK, world, updater`pendingBlockUpdates, movement
    {
      AckModel.Core(world.overlay, updater.pendingBlockUpdates, movement.Model(), pendingCorrectionACK)
    }

    ghost function Model(): State
      reads this, world, updater, updater.batchedBlockUpdates, movement, acks
    {
      State(Core(), updater.batchedBlockUpdates.updates, acks.queue, acks.filling,
            acks.clientTicked, acks.ticksSinceLastResponse)
    }

    /** The batch being filled is valid and not queued. */
    ghost predicate Valid()
      reads this, world, updater, updater.batchedBlockUpdates, acks, acks.repr
    {
      && world.Valid() && updater.batchedBlockUpdates.valid && acks.Valid()
      && {this, world, updater, movement, updater.batchedBlockUpdates} !! acks.repr
    }

    constructor (env: Env, cfg: Config, draws: seq<int>)
      requires SomeUnused(cfg.legacy, [], draws)
      ensures Valid() && Model() == Initial(cfg, map[], draws) && this.env == env && this.cfg == cfg
    {
      this.env, this.cfg, pendingCorrectionACK := env, cfg, false;
      world := new World();
      updater := new WorldUpdater();
      movement := new MovementComponent();
      acks := new AckComponent(cfg.legacy, draws);
    }

    method RunAcknowledgment(a: Acknowledgment)
      requires world.Valid()
      modifies Owned(a), world`blockUpdates, world`overlay, updater`pendingBlockUpdates, movement,
          this`pendingCorrectionACK
      ensures world.Valid() && Core() == RunAck(env, old(Core()), old(AckOf(a)))
    {
      match a
      case BlockUpdates(b) => b.Run(this);
      case KnockbackUpdate(k) => k.Run(this);
      case TeleportPlayer(pos, onGround, smoothed) =>
        movement.Teleport(pos, onGround, smoothed);
        movement.pendingTeleports := movement.pendingTeleports - 1;
      case MovementCorrection(setField) =>
        movement.pendingCorrections := movement.pendingCorrections - 1;
        if setField {
          pendingCorrectionACK := false;
        }
      case OtherAcknowledgment =>
    }

    method TickAcknowledgment(a: Acknowledgment)
      requires world.Valid()
      modifies Owned(a), world`blockUpdates, world`overlay, updater`pendingBlockUpdates, movement
      ensures world.Valid() && AckOf(a) == Aged(old(AckOf(a)))
      ensures Core() == if Expires(old(AckOf(a))) then RunAck(env, old(Core()), old(AckOf(a))) else old(Core())
    {
      match a
      case BlockUpdates(b) => b.Tick(this);
      case KnockbackUpdate(k) => k.Tick(this);
      case _ =>
    }

    /** Writes refused placements into the world at once and takes them off the batch, in no particular order. */
    method RefuseGhostBlocks(placed: Updates)
      requires world.Valid()
      modifies updater`pendingBlockUpdates, updater.batchedBlockUpdates`updates, world`blockUpdates, world`overlay
      ensures world.Valid()
      ensures updater.batchedBlockUpdates.updates
           == old(updater.batchedBlockUpdates.updates)
              - Refused(env, cfg, old(updater.batchedBlockUpdates.updates), placed).Keys
      ensures Core() == RunUpdates(env, old(Core()),
          Refused(env, cfg, old(updater.batchedBlockUpdates.updates), placed))
    {
      var u := updater.batchedBlockUpdates.updates;
      var todo := u.Keys;
      ghost var refused := Refused(env, cfg, u, placed);
      ghost var done: Updates := map[];
      RefusedNone(env, cfg, Core(), u, placed);
      hide World.Valid, Settle, Written;
      while todo != {}
        invariant todo <= u.Keys && world.Valid() && done == refused - todo
        invariant updater.batchedBlockUpdates.updates == u - done.Keys
        invariant Core() == RunUpdates(env, old(Core()), done)
        decreases todo
      {
        var q :| q in todo;
        RefusedOneMore(u, refused, todo, q);
        todo := todo - {q};
        if q in placed && Resolve(env, u[q]) == placed[q] && cfg.maxChain == 0 {
          updater.batchedBlockUpdates.RemoveBlock(q);
          world.SetBlock(env, q, Resolve(env, u[q]));
          updater.RemovePendingUpdate(q, u[q]);
          WriteOneMore(env, old(Core()).world, done, q, u[q]);
          SettleOneMore(old(Core()).index, done, q, u[q]);
          done := done[q := u[q]];
        }
      }
      assert refused - {} == refused;
    }

    method AddPendingUpdate(p: Pos, rid: Rid)
      requires Valid()
      modifies updater`pendingBlockUpdates, updater.batchedBlockUpdates`updates
      ensures Valid() && Model() == AddBlock(old(Model()), p, rid)
    {
      updater.batchedBlockUpdates.SetBlock(p, rid);
      updater.pendingBlockUpdates := updater.pendingBlockUpdates[p := rid];
    }

    method ServerTeleport(pos: Vec3, onGround: bool, smoothed: bool)
      requires Valid()
      modifies acks`currentBatch, acks`filling, acks`repr, movement
      ensures Valid() && Model() == AckModel.ServerTeleport(old(Model()), pos, onGround, smoothed)
    {
      hide Represents, AckComponent.Valid;
      movement.pendingTeleportPos := pos;
      movement.pendingTeleports := movement.pendingTeleports + 1;
      acks.Add(TeleportPlayer(pos, onGround, smoothed));
    }

    method ServerKnockback(velocity: Vec3, serverTick: int, clientTick: int)
      requires Valid()
      modifies acks`currentBatch, acks`filling, acks`repr, movement
      ensures Valid() && Model() == AckModel.ServerKnockback(env, cfg, old(Model()), velocity, serverTick, clientTick)
    {
      hide Represents, AckComponent.Valid;
      var timeout := cfg.maxKnockbackDelay;
      if timeout < 0 {
        timeout := NO_EXPIRY;
      }
      var kb := new KnockbackAcknowledgment(velocity, timeout);
      if cfg.cutoff >= 0 && serverTick - clientTick >= cfg.cutoff {
        kb.Run(this);
      } else {
        acks.Add(KnockbackUpdate(kb));
      }
    }

    method Sync(hasActorData: bool)
      requires Valid()
      modifies acks`currentBatch, acks`filling, acks`repr, movement, this`pendingCorrectionACK
      ensures Valid() && Model() == AckModel.Sync(old(Model()), hasActorData)
    {
      hide Represents, AckComponent.Valid;
      movement.pendingCorrections := movement.pendingCorrections + 1;
      movement.inCorrectionCooldown := true;
      acks.Add(MovementCorrection(!pendingCorrectionACK));
      if !pendingCorrectionACK {
        if !hasActorData { return; }
        pendingCorrectionACK := true;
      }
    }

    /** Sends off the batch being filled: at once past the movement cutoff, otherwise with the next timestamp. */
    method SendBatch(serverTick: int, clientTick: int)
      requires Valid()
      modifies updater, updater.batchedBlockUpdates, world`blockUpdates, world`overlay, acks`currentBatch,
          acks`filling, acks`repr
      ensures Valid()
      ensures var s := old(Model()); var u := s.unflushed;
        Model() == if CutOff(cfg, serverTick, clientTick)
                   then s.(core := RunUpdates(env, s.core, u), unflushed := map[])
                   else Queue(s.(unflushed := map[]), Blocks(BlockAck(u, Expiry(cfg.maxBlockUpdateDelay), true)))
    {
      hide Represents, AckComponent.Valid;
      var batch := updater.batchedBlockUpdates;
      var timeout := cfg.maxBlockUpdateDelay;
      if timeout < 0 {
        timeout := NO_EXPIRY;
      }
      batch.SetExpiry(timeout);
      if cfg.cutoff >= 0 && serverTick - clientTick >= cfg.cutoff {
        batch.Run(this);
      } else {
        acks.Add(BlockUpdates(batch));
      }
      updater.batchedBlockUpdates := new UpdateBlockBatch();
    }

    /** The world updater's flush.  `placed` holds, for each position the client has placed a block at, the
        block that was there before. */
    method FlushWorld(serverTick: int, clientTick: int, placed: Updates)
      requires Valid()
      modifies updater, updater.batchedBlockUpdates, world`blockUpdates, world`overlay, acks`currentBatch,
          acks`filling, acks`repr
      ensures Valid() && Model() == AckModel.FlushWorld(env, cfg, old(Model()), serverTick, clientTick, placed)
    {
      if updater.batchedBlockUpdates.updates == map[] { return; }
      RefuseGhostBlocks(placed);
      SendBatch(serverTick, clientTick);
    }

    /** The draws go on until one gives a timestamp that neither the queue nor the batch being sent has. */
    method Flush(serverTick: int, clientTick: int, placed: Updates, draws: seq<int>)
      requires Valid() && SomeUnused(cfg.legacy, acks.queue + [acks.filling], draws)
      modifies updater, updater.batchedBlockUpdates, world`blockUpdates, world`overlay, acks
      ensures Valid() && Model() == AckModel.Flush(env, cfg, old(Model()), serverTick, clientTick, placed, draws)
    {
      hide Represents, AckComponent.Valid, AckModel.FlushWorld;
      ghost var sent := acks.queue + [acks.filling];
      AckTheorems.FlushWorldKeepsStamps(env, cfg, Model(), serverTick, clientTick, placed);
      FlushWorld(serverTick, clientTick, placed);
      AckTheorems.SameStamps(sent, acks.queue + [acks.filling], cfg.legacy, draws);
      acks.Send(cfg.legacy, draws);
    }

    /** Runs the acknowledgements of one batch in order; `rest` is what stays behind it in the queue. */
    method RunBatch(batch: seq<Acknowledgment>, ghost values: seq<Ack>,
                    ghost rest: seq<Acknowledgment>, ghost restValues: seq<Ack>, ghost repr: set<object>)
      returns (ghost left: set<object>)
      requires world.Valid() && {this, world, updater, movement} !! repr
      requires |batch| == |values| && Represents(batch + rest, values + restValues, repr)
      modifies repr, world`blockUpdates, world`overlay, updater`pendingBlockUpdates, movement, this`pendingCorrectionACK
      ensures world.Valid() && Core() == RunAcks(env, old(Core()), values)
      ensures left <= repr && Represents(rest, restValues, left)
    {
      hide Represents, RunAck, World.Valid;
      left := repr;
      SliceEnds(batch, rest);
      SliceEnds(values, restValues);
      for j := 0 to |batch|
        invariant world.Valid() && left <= repr
        invariant Represents(batch[j..] + rest, values[j..] + restValues, left)
        invariant Core() == RunAcks(env, old(Core()), values[..j])
      {
        RepresentsFirst(batch[j..] + rest, values[j..] + restValues, left);
        SliceStep(batch, rest, j);
        SliceStep(values, restValues, j);
        RunAcknowledgment(batch[j]);
        left := left - Owned(batch[j]);
        assert values[..j + 1][..j] == values[..j];
      }
    }

    /** Handles a response of the client: runs every batch up to the one with the timestamp it stands for. */
    method Execute(ackID: int) returns (found: bool)
      requires Valid()
      modifies acks, acks.repr, world`blockUpdates, world`overlay, updater`pendingBlockUpdates, movement,
          this`pendingCorrectionACK
      ensures Valid() && Model() == Echo(env, cfg, old(Model()), ackID)
      ensures found <==> exists i | 0 <= i < |old(acks.queue)| :: old(acks.queue)[i].timestamp == Decoded(cfg, ackID)
    {
      hide Represents, RunAcks, World.Valid, Flat, FlatRefs, AckComponent.Values, AckComponent.Refs;
      var timestamp := Decoded(cfg, ackID);
      var index := 0;
      while index < |acks.pending| && acks.pending[index].timestamp != timestamp
        invariant 0 <= index <= |acks.pending|
        invariant forall i | 0 <= i < index :: acks.queue[i].timestamp != timestamp
      {
        index := index + 1;
      }
      if index == |acks.pending| { return false; }
      assert index == FirstWith(acks.queue, timestamp);
      ghost var left := RunBatches(index + 1);
      acks.Drop(index + 1, left);
      return true;
    }

    /** Runs the oldest `count` batches of the queue. */
    method RunBatches(count: nat) returns (ghost left: set<object>)
      requires Valid() && count <= |acks.pending|
      modifies acks.repr, world`blockUpdates, world`overlay, updater`pendingBlockUpdates, movement,
          this`pendingCorrectionACK
      ensures world.Valid() && Core() == RunAcks(env, old(Core()), Flat(acks.queue[..count])) && left <= acks.repr
      ensures From(acks.pending, acks.queue, count, acks.currentBatch.acks, acks.filling.acks, left)
    {
      left := acks.repr;
      ghost var batches, values, last, lastValues :=
          acks.pending, acks.queue, acks.currentBatch.acks, acks.filling.acks;
      FromStart(batches, values, last, lastValues, left);
      assert RunAcks(env, Core(), []) == Core();
      hide Represents, RunAcks, World.Valid, Flat, FlatRefs;
      for b := 0 to count
        invariant world.Valid() && left <= acks.repr
        invariant From(batches, values, b, last, lastValues, left)
        invariant Core() == RunAcks(env, old(Core()), Flat(values[..b]))
      {
        FromHead(batches, values, b, last, lastValues, left);
        FlatHead(batches, values, b);
        RunAppends(env, old(Core()), Flat(values[..b]), values[b].acks);
        left := RunBatch(acks.pending[b].acks, values[b].acks, FlatRefs(batches[b + 1..]) + last,
                         Flat(values[b + 1..]) + lastValues, left);
      }
    }

    /** Ticks the acknowledgements of one batch in order; `rest` is what stays behind it in the queue. */
    method TickBatch(batch: seq<Acknowledgment>, ghost values: seq<Ack>,
                     ghost rest: seq<Acknowledgment>, ghost restValues: seq<Ack>, ghost repr: set<object>)
      returns (ghost done: set<object>, ghost left: set<object>)
      requires world.Valid() && {this, world, updater, movement} !! repr
      requires |batch| == |values| && Represents(batch + rest, values + restValues, repr)
      modifies repr, world`blockUpdates, world`overlay, updater`pendingBlockUpdates, movement
      ensures world.Valid() && Core() == TickAcks(env, old(Core()), values)
      ensures done + left <= repr && done !! left
      ensures Represents(batch, AgedAcks(values), done) && Represents(rest, restValues, left)
    {
      done, left := {}, repr;
      SliceEnds(batch, rest);
      SliceEnds(values, restValues);
      assert Represents(batch[..0], AgedAcks(values[..0]), done) && TickAcks(env, Core(), values[..0]) == Core();
      hide Represents, RunAck, World.Valid, AgedAcks, TickAcks, Aged, Expires, Owned, AckOf;
      for j := 0 to |batch|
        invariant world.Valid() && done + left <= repr && done !! left
        invariant Represents(batch[..j], AgedAcks(values[..j]), done)
        invariant Represents(batch[j..] + rest, values[j..] + restValues, left)
        invariant Core() == TickAcks(env, old(Core()), values[..j])
      {
        RepresentsFirst(batch[j..] + rest, values[j..] + restValues, left);
        SliceStep(batch, rest, j);
        SliceStep(values, restValues, j);
        TickAcknowledgment(batch[j]);
        RepresentsSnoc(batch[..j], AgedAcks(values[..j]), done, batch[j]);
        done, left := done + Owned(batch[j]), left - Owned(batch[j]);
        TickOneMore(env, old(Core()), values, j);
      }
    }

    /** Ticks the acknowledgements of one batch of the queue, after the batches before it. */
    method TickQueued(batch: AckBatch, ghost batches: seq<AckBatch>, ghost values: seq<Batch>, ghost b: nat,
                      ghost last: seq<Acknowledgment>, ghost lastValues: seq<Ack>, ghost start: Core,
                      ghost before: set<object>, ghost repr: set<object>)
      returns (ghost done: set<object>, ghost left: set<object>)
      requires world.Valid() && {this, world, updater, movement} !! before + repr && before !! repr
      requires b < |batches| == |values| && batch == batches[b] && |batch.acks| == |values[b].acks|
      requires Represents(FlatRefs(batches[..b]), AgedAcks(Flat(values[..b])), before)
      requires From(batches, values, b, last, lastValues, repr)
      requires Core() == TickAcks(env, start, Flat(values[..b]))
      modifies repr, world`blockUpdates, world`overlay, updater`pendingBlockUpdates, movement
      ensures world.Valid() && done + left <= before + repr && left <= repr && done !! left
      ensures Represents(FlatRefs(batches[..b + 1]), AgedAcks(Flat(values[..b + 1])), done)
      ensures From(batches, values, b + 1, last, lastValues, left)
      ensures Core() == TickAcks(env, start, Flat(values[..b + 1]))
    {
      hide Represents, TickAcks, World.Valid, Flat, FlatRefs, AgedAcks, From, Owned, AckOf;
      FromHead(batches, values, b, last, lastValues, repr);
      ghost var more: set<object>;
      more, left := TickBatch(batch.acks, values[b].acks, FlatRefs(batches[b + 1..]) + last,
                              Flat(values[b + 1..]) + lastValues, repr);
      BatchTicked(env, start, batches, values, b, before, more);
      done := before + more;
      FromIs(batches, values, b + 1, last, lastValues, left);
    }

    /** Ticks every queued acknowledgement in order. */
    method TickBatches() returns (ghost done: set<object>, ghost left: set<object>)
      requires Valid()
      modifies acks.repr, world`blockUpdates, world`overlay, updater`pendingBlockUpdates, movement
      ensures world.Valid() && Core() == TickAcks(env, old(Core()), Flat(acks.queue))
      ensures done !! left && done + left <= acks.repr
      ensures Represents(FlatRefs(acks.pending), AgedAcks(Flat(acks.queue)), done)
      ensures Represents(acks.currentBatch.acks, acks.filling.acks, left)
    {
      ghost var batches, values, last, lastValues :=
          acks.pending, acks.queue, acks.currentBatch.acks, acks.filling.acks;
      ghost var start := Core();
      done, left := {}, acks.repr;
      FromStart(batches, values, last, lastValues, left);
      assert TickAcks(env, Core(), []) == Core();
      assert Represents(FlatRefs(batches[..0]), AgedAcks(Flat(values[..0])), done);
      hide Represents, TickAcks, World.Valid, Flat, FlatRefs, AgedAcks, From, AckComponent.Valid, Owned, AckOf;
      for b := 0 to |acks.pending|
        invariant world.Valid() && done + left <= acks.repr && done !! left
        invariant Represents(FlatRefs(batches[..b]), AgedAcks(Flat(values[..b])), done)
        invariant From(batches, values, b, last, lastValues, left)
        invariant Core() == TickAcks(env, start, Flat(values[..b]))
      {
        done, left := TickQueued(acks.pending[b], batches, values, b, last, lastValues, start, done, left);
      }
      FromEnd(batches, values, last, lastValues, left);
    }

    /** The expiring part of a client tick. */
    method ClientTick()
      requires Valid()
      modifies acks, acks.repr, world`blockUpdates, world`overlay, updater`pendingBlockUpdates, movement
      ensures Valid() && Model() == AckModel.ClientTick(env, old(Model()))
    {
      hide Represents, TickAcks, World.Valid, Flat, FlatRefs, AgedAcks, AgedBatches, Aligned;
      ghost var done, left := TickBatches();
      acks.clientTicked := true;
      acks.Age(done, left);
    }

    method ServerTick(serverTick: int, connected: bool)
      requires Valid()
      modifies acks
      ensures Valid() && Model() == AckModel.ServerTick(old(Model()), serverTick, connected)
    {
      hide Represents;
      if serverTick % 10 == 0 {
        acks.Add(OtherAcknowledgment);
      }
      if !acks.clientTicked { return; }
      acks.clientTicked := false;
      if |acks.pending| > 0 && connected {
        acks.ticksSinceLastResponse := acks.ticksSinceLastResponse + 1;
      } else {
        acks.ticksSinceLastResponse := 0;
      }
    }

    /** The protocol's part of installing a backend. */
    method ResetTransferState(pos: Vec3, draws: seq<int>)
      requires Valid() && SomeUnused(cfg.legacy, [], draws)
      modifies acks, movement, this`pendingCorrectionACK
      ensures Valid() && Model() == SetServer(cfg, old(Model()), pos, draws)
    {
      pendingCorrectionACK := false;
      acks.clientTicked, acks.ticksSinceLastResponse := false, 0;
      acks.pending, acks.queue, acks.repr := [], [], {};
      acks.Refresh(cfg.legacy, draws);
      movement.ResetTransferState(pos);
    }

    /** Another backend is installed, and the loaded chunks go. */
    method TransferServerConn(pos: Vec3, draws: seq<int>)
      requires Valid() && SomeUnused(cfg.legacy, [], draws)
      modifies acks, movement, world, this`pendingCorrectionACK
      ensures Valid() && world.chunks == {}
      ensures Model() == Transfer(cfg, old(Model()), pos, old(world.chunks), draws)
    {
      hide AckComponent.Valid, World.Valid, FirstUnused, SomeUnused;
      ResetTransferState(pos, draws);
      world.PurgeChunks();
    }

    /** A placement of the client goes into the world at once. */
    method PlaceBlock(p: Pos, block: Rid)
      requires Valid()
      modifies world`blockUpdates, world`overlay
      ensures Valid() && Model() == AckModel.PlaceBlock(env, old(Model()), p, block)
    {
      hide AckComponent.Valid, World.Valid;
      world.SetBlock(env, p, block);
    }
  }
}
