/** What every run of the lag-compensation protocol keeps. */
module AckTheorems {
  import opened AckModel

  // ----- lists of acknowledgements

  lemma {:induction false} FlatAppends(a: seq<Batch>, b: seq<Batch>)
    ensures Flat(a + b) == Flat(a) + Flat(b)
  {
    if b == [] {
      assert a + b == a;
    } else {
      var n := |b| - 1;
      assert (a + b)[..|a + b| - 1] == a + b[..n];
      FlatAppends(a, b[..n]);
    }
  }

  lemma FlatSplits(batches: seq<Batch>, k: nat)
    requires k <= |batches|
    ensures Flat(batches) == Flat(batches[..k]) + Flat(batches[k..])
  {
    assert batches == batches[..k] + batches[k..];
    FlatAppends(batches[..k], batches[k..]);
  }

  lemma {:induction false} FlatAges(batches: seq<Batch>)
    ensures Flat(AgedBatches(batches)) == AgedAcks(Flat(batches))
  {
    if batches != [] {
      var n := |batches| - 1;
      assert AgedBatches(batches)[..n] == AgedBatches(batches[..n]);
      FlatAges(batches[..n]);
    }
  }

  lemma {:induction false} OutstandingAppends(a: seq<Ack>, b: seq<Ack>)
    ensures Outstanding(a + b) == Outstanding(a) + Outstanding(b)
  {
    hide Held;
    if b == [] {
      assert a + b == a;
    } else {
      assert (a + b)[..|a + b| - 1] == a + b[..|b| - 1];
      OutstandingAppends(a, b[..|b| - 1]);
    }
  }

  lemma OutstandingOne(acks: seq<Ack>, a: Ack)
    ensures Outstanding(acks + [a]) == Outstanding(acks) + Held(a)
  {
    assert (acks + [a])[..|acks|] == acks;
  }

  ghost predicate NoBlocks(acks: seq<Ack>) { forall i | 0 <= i < |acks| :: !acks[i].Blocks? }

  lemma {:induction false} NoBlocksNothingOutstanding(acks: seq<Ack>)
    requires forall i | 0 <= i < |acks| && acks[i].Blocks? :: !acks[i].batch.valid
    ensures Outstanding(acks) == map[]
  {
    if acks != [] {
      NoBlocksNothingOutstanding(acks[..|acks| - 1]);
    }
  }

  // ----- the delayed world

  lemma WrittenSum(env: Env, w: Updates, a: Updates, b: Updates)
    ensures w + Written(env, a + b) == (w + Written(env, a)) + Written(env, b)
  {
  }

  lemma NothingWritten(env: Env, w: Updates)
    ensures w + Written(env, map[]) == w && w + map[] == w
  {
    assert Written(env, map[]) == map[];
  }

  lemma RunAckWrites(env: Env, c: Core, a: Ack)
    ensures RunAck(env, c, a).world == c.world + Written(env, Held(a))
  {
  }

  /** Running acknowledgements in queue order writes exactly what they held outstanding. */
  lemma {:induction false} RunWritesOutstanding(env: Env, c: Core, acks: seq<Ack>)
    ensures RunAcks(env, c, acks).world == c.world + Written(env, Outstanding(acks))
  {
    if acks != [] {
      var pre, a := acks[..|acks| - 1], acks[|acks| - 1];
      RunWritesOutstanding(env, c, pre);
      RunAckWrites(env, RunAcks(env, c, pre), a);
      WrittenSum(env, c.world, Outstanding(pre), Held(a));
    }
  }

  predicate Live(a: Ack) { a.Blocks? && a.batch.valid }

  predicate NotAfter(a: Ack, b: Ack) { Live(a) && Live(b) ==> a.batch.expiresIn <= b.batch.expiresIn }

  predicate LiveAtMost(a: Ack, t: int) { Live(a) ==> a.batch.expiresIn <= t }

  /** Batches expire in the order of the queue when remaining times are sorted. */
  ghost predicate Sorted(acks: seq<Ack>) { forall i, j | 0 <= i < j < |acks| :: NotAfter(acks[i], acks[j]) }

  ghost predicate AtMost(acks: seq<Ack>, t: int) { forall i | 0 <= i < |acks| :: LiveAtMost(acks[i], t) }

  /** When the last of a sorted list expires, everything before it is done as well. */
  lemma ExpiryTakesPrefix(acks: seq<Ack>, a: Ack)
    requires Sorted(acks + [a]) && Live(a) && Expires(a)
    ensures forall i | 0 <= i < |acks| :: !Live(AgedAcks(acks)[i])
    ensures Outstanding(AgedAcks(acks)) == map[]
  {
    forall i | 0 <= i < |acks|
      ensures !Live(AgedAcks(acks)[i])
    {
      assert NotAfter((acks + [a])[i], (acks + [a])[|acks|]);
    }
    NoBlocksNothingOutstanding(AgedAcks(acks));
  }

  lemma SumsAgree(env: Env, w: Updates, o: Updates, w': Updates, o': Updates, u: Updates)
    requires w' + Written(env, o') == w + Written(env, o)
    ensures w' + Written(env, o' + u) == w + Written(env, o + u)
  {
    WrittenSum(env, w, o, u);
    WrittenSum(env, w', o', u);
  }

  lemma AgedSnoc(acks: seq<Ack>, a: Ack)
    ensures AgedAcks(acks + [a]) == AgedAcks(acks) + [Aged(a)]
  {
  }

  /** A client tick that expires batches of a sorted queue leaves the caught-up world as it was. */
  lemma {:induction false} TickKeepsCaughtUp(env: Env, c: Core, acks: seq<Ack>)
    requires Sorted(acks)
    ensures TickAcks(env, c, acks).world + Written(env, Outstanding(AgedAcks(acks)))
         == c.world + Written(env, Outstanding(acks))
  {
    if acks != [] {
      var pre, a := acks[..|acks| - 1], acks[|acks| - 1];
      assert acks == pre + [a];
      TickKeepsCaughtUp(env, c, pre);
      AgedSnoc(pre, a);
      TickOneKeepsCaughtUp(env, c, TickAcks(env, c, pre), pre, a);
    }
  }

  lemma TickOneKeepsCaughtUp(env: Env, c: Core, c1: Core, pre: seq<Ack>, a: Ack)
    requires Sorted(pre + [a])
    requires c1.world + Written(env, Outstanding(AgedAcks(pre))) == c.world + Written(env, Outstanding(pre))
    ensures (if Expires(a) then RunAck(env, c1, a) else c1).world
              + Written(env, Outstanding(AgedAcks(pre) + [Aged(a)]))
         == c.world + Written(env, Outstanding(pre + [a]))
  {
    hide Outstanding, Written, RunAck, AgedAcks, Sorted;
    var o, o' := Outstanding(pre), Outstanding(AgedAcks(pre));
    OutstandingOne(pre, a);
    OutstandingOne(AgedAcks(pre), Aged(a));
    SumsAgree(env, c.world, o, c1.world, o', Held(a));
    if Live(a) && Expires(a) {
      ExpiryTakesPrefix(pre, a);
      RunAckWrites(env, c1, a);
      NothingWritten(env, RunAck(env, c1, a).world);
      Unit(Held(a));
      Unit(Held(Aged(a)));
    } else if Expires(a) {
      NothingHeldOrWritten(env, c1, a);
    }
  }

  /** Knockback expires without touching the world. */
  lemma NothingHeldOrWritten(env: Env, c: Core, a: Ack)
    requires !Live(a)
    ensures RunAck(env, c, a).world == c.world && Held(a) == map[] && Held(Aged(a)) == map[]
  {
  }

  ghost predicate NoTransfer(events: seq<Event>) { forall i | 0 <= i < |events| :: !events[i].TransferEvent? }

  /** The invariant behind convergence. */
  ghost predicate InOrder(cfg: Config, s: State) {
    && Sorted(Flat(s.pending)) && AtMost(Flat(s.pending), Expiry(cfg.maxBlockUpdateDelay))
    && NoBlocks(s.current.acks)
  }

  lemma NothingRefused(env: Env, cfg: Config, s: State, placed: Updates)
    requires cfg.maxChain != 0
    ensures var refused := Refused(env, cfg, s.unflushed, placed);
            refused == map[] && s.unflushed - refused.Keys == s.unflushed && RunUpdates(env, s.core, refused) == s.core
  {
    assert s.core.world + Written(env, map[]) == s.core.world;
    assert Settle(s.core.index, map[]) == s.core.index;
  }

  /** The updates that a flush writes ahead of the queue: all of them beyond the cutoff, else the refusals. */
  function Early(env: Env, cfg: Config, s: State, serverTick: int, clientTick: int, placed: Updates): Updates {
    if CutOff(cfg, serverTick, clientTick) then s.unflushed else Refused(env, cfg, s.unflushed, placed)
  }

  /** No update still waiting disagrees with a newer one that overtakes it. */
  ghost predicate Overtakes(env: Env, waiting: Updates, early: Updates) {
    forall p | p in early && p in waiting && InBounds(env, p) :: Resolve(env, early[p]) == Resolve(env, waiting[p])
  }

  lemma FlushKeepsOrder(env: Env, cfg: Config, s: State, st: int, ct: int, placed: Updates, draws: seq<int>)
    requires InOrder(cfg, s)
    ensures InOrder(cfg, Flush(env, cfg, s, st, ct, placed, draws))
  {
    hide Written, Outstanding, RunUpdates, Refused;
    var s' := Flush(env, cfg, s, st, ct, placed, draws);
    assert s'.pending[..|s'.pending| - 1] == s.pending;
  }

  lemma OrderMatters(env: Env, w: Updates, o: Updates, early: Updates, later: Updates)
    requires early.Keys !! later.Keys
    ensures (w + Written(env, early)) + Written(env, o + later) == w + Written(env, o + (early + later))
       <==> Overtakes(env, o, early)
  {
    var now, after := (w + Written(env, early)) + Written(env, o + later), w + Written(env, o + (early + later));
    if Overtakes(env, o, early) {
      assert now == after;
    } else {
      var p :| p in early && p in o && InBounds(env, p) && Resolve(env, early[p]) != Resolve(env, o[p]);
      assert p !in later && now[p] != after[p];
    }
  }

  lemma RefusedPart(env: Env, cfg: Config, u: Updates, placed: Updates)
    ensures var refused := Refused(env, cfg, u, placed);
      refused.Keys <= u.Keys && refused + (u - refused.Keys) == u && u - u.Keys == map[]
  {
  }

  /** What a flush does to the world and to what waits. */
  lemma FlushSplits(env: Env, cfg: Config, s: State, st: int, ct: int, placed: Updates, draws: seq<int>)
    ensures var s', early := Flush(env, cfg, s, st, ct, placed, draws), Early(env, cfg, s, st, ct, placed);
      && early.Keys <= s.unflushed.Keys && s.unflushed == early + (s.unflushed - early.Keys)
      && s'.core.world == s.core.world + Written(env, early)
      && AllOutstanding(s') == Outstanding(Queued(s)) + (s.unflushed - early.Keys)
  {
    hide Outstanding, Refused, Written, FirstUnused, Settle;
    var s', early := Flush(env, cfg, s, st, ct, placed, draws), Early(env, cfg, s, st, ct, placed);
    var refused := Refused(env, cfg, s.unflushed, placed);
    var kept := s.unflushed - refused.Keys;
    RefusedPart(env, cfg, s.unflushed, placed);
    assert s'.pending[..|s'.pending| - 1] == s.pending;
    NothingWritten(env, s.core.world);
    Unit(Outstanding(Queued(s)));
    if s.unflushed == map[] {
      assert Queued(s') == Queued(s) && early == map[];
    } else if CutOff(cfg, st, ct) {
      WrittenSum(env, s.core.world, refused, kept);
      Unit(s.unflushed);
      assert Queued(s') == Queued(s);
    } else {
      var a := Blocks(BlockAck(kept, Expiry(cfg.maxBlockUpdateDelay), true));
      assert Queued(s') == Queued(s) + [a];
      OutstandingOne(Queued(s), a);
      Unit(Outstanding(Queued(s)) + kept);
    }
  }

  /** A flush writes the updates beyond the cutoff, and refusals of ghost blocks, ahead of the queue.  The caught-up
      world survives exactly when no queued update disagrees with a newer one that overtakes it. */
  lemma FlushConverges(env: Env, cfg: Config, s: State, st: int, ct: int, placed: Updates, draws: seq<int>)
    ensures CaughtUp(env, Flush(env, cfg, s, st, ct, placed, draws)) == CaughtUp(env, s)
       <==> Overtakes(env, Outstanding(Queued(s)), Early(env, cfg, s, st, ct, placed))
  {
    hide Outstanding, Written, Flush, Overtakes, Early;
    var early := Early(env, cfg, s, st, ct, placed);
    FlushSplits(env, cfg, s, st, ct, placed, draws);
    OrderMatters(env, s.core.world, Outstanding(Queued(s)), early, s.unflushed - early.Keys);
  }

  ghost predicate SameAt(a: Updates, b: Updates, p: Pos) { (p in a <==> p in b) && (p in a && p in b ==> a[p] == b[p]) }

  lemma SameEverywhere(a: Updates, b: Updates)
    ensures a == b <==> forall p :: SameAt(a, b, p)
  {
    if forall p :: SameAt(a, b, p) {
      assert forall p :: p in a ==> SameAt(a, b, p);
      assert forall p :: p in b ==> SameAt(a, b, p);
    }
  }

  predicate DroppableAt(env: Env, w: Updates, o: Updates, u: Updates, loaded: set<ChunkPos>, p: Pos) {
    InBounds(env, p) ==>
      && (p in u ==> ChunkOf(p) !in loaded)
      && (p in o && p !in u && ChunkOf(p) !in loaded ==> p in w && w[p] == Resolve(env, o[p]))
  }

  /** A transfer drops the queue and purges the loaded chunks, but the unflushed updates of the old backend stay.
      None of them may lie in a purged chunk, and outside those chunks nothing may be dropped that is neither in
      the world already nor comes again. */
  ghost predicate Droppable(env: Env, s: State, loaded: set<ChunkPos>) {
    forall p :: DroppableAt(env, s.core.world, Outstanding(Queued(s)), s.unflushed, loaded, p)
  }

  lemma PurgeMattersAt(env: Env, w: Updates, o: Updates, u: Updates, loaded: set<ChunkPos>, p: Pos)
    ensures SameAt(Without(w, loaded) + Written(env, u), Without(w + Written(env, o + u), loaded), p)
       <==> DroppableAt(env, w, o, u, loaded, p)
  {
    hide ChunkOf;
  }

  lemma PurgeMatters(env: Env, w: Updates, o: Updates, u: Updates, loaded: set<ChunkPos>)
    ensures Without(w, loaded) + Written(env, u) == Without(w + Written(env, o + u), loaded)
       <==> forall p :: DroppableAt(env, w, o, u, loaded, p)
  {
    hide Without, Written, SameAt, DroppableAt;
    SameEverywhere(Without(w, loaded) + Written(env, u), Without(w + Written(env, o + u), loaded));
    forall p
      ensures SameAt(Without(w, loaded) + Written(env, u), Without(w + Written(env, o + u), loaded), p)
         <==> DroppableAt(env, w, o, u, loaded, p)
    {
      PurgeMattersAt(env, w, o, u, loaded, p);
    }
  }

  lemma TransferConverges(env: Env, cfg: Config, s: State, pos: Vec3, loaded: set<ChunkPos>, draws: seq<int>)
    ensures CaughtUp(env, Transfer(cfg, s, pos, loaded, draws)) == Without(CaughtUp(env, s), loaded)
       <==> Droppable(env, s, loaded)
  {
    hide Written, Without, DroppableAt;
    assert Queued(Transfer(cfg, s, pos, loaded, draws)) == [];
    Unit(s.unflushed);
    PurgeMatters(env, s.core.world, Outstanding(Queued(s)), s.unflushed, loaded);
  }

  /** Chunks that are cleaned up or replaced lose their block updates.  That goes together with the delay exactly
      when no update that is still to come lies in one of them. */
  ghost predicate NothingToCome(env: Env, s: State, chunks: set<ChunkPos>) {
    forall p | p in AllOutstanding(s) && InBounds(env, p) :: ChunkOf(p) !in chunks
  }

  lemma DropConverges(env: Env, s: State, chunks: set<ChunkPos>)
    ensures CaughtUp(env, DropChunks(s, chunks)) == Without(CaughtUp(env, s), chunks) <==> NothingToCome(env, s, chunks)
  {
    hide Outstanding, Flat;
    var left, right := CaughtUp(env, DropChunks(s, chunks)), Without(CaughtUp(env, s), chunks);
    if NothingToCome(env, s, chunks) {
      assert left == right;
    } else {
      var p :| p in AllOutstanding(s) && InBounds(env, p) && ChunkOf(p) in chunks;
      assert p in left && p !in right;
    }
  }

  /** A block the client places stays the newest one exactly when no other update of its position is to come. */
  ghost predicate StaysPlaced(env: Env, s: State, p: Pos, block: Rid) {
    InBounds(env, p) && p in AllOutstanding(s) ==> Resolve(env, AllOutstanding(s)[p]) == block
  }

  lemma PlaceConverges(env: Env, s: State, p: Pos, block: Rid)
    ensures CaughtUp(env, PlaceBlock(env, s, p, block)) == Placed(env, CaughtUp(env, s), p, block)
       <==> StaysPlaced(env, s, p, block)
  {
    hide Outstanding, Flat;
    var left, right := CaughtUp(env, PlaceBlock(env, s, p, block)), Placed(env, CaughtUp(env, s), p, block);
    if InBounds(env, p) {
      assert right[p] == block;
      assert p in left && left[p] == if p in AllOutstanding(s) then Resolve(env, AllOutstanding(s)[p]) else block;
    }
    if StaysPlaced(env, s, p, block) { assert left == right; }
  }

  lemma SortedTail(acks: seq<Ack>, ran: seq<Ack>, rest: seq<Ack>, t: int)
    requires acks == ran + rest && Sorted(acks) && AtMost(acks, t)
    ensures Sorted(rest) && AtMost(rest, t)
  {
    assert forall k | 0 <= k < |rest| :: rest[k] == acks[|ran| + k];
  }

  /** An accepted echo takes the oldest updates off what is outstanding. */
  lemma EchoSplits(s: State, k: nat, rest: State)
    requires k <= |s.pending| && rest.pending == s.pending[k..]
    requires rest.current == s.current && rest.unflushed == s.unflushed
    ensures AllOutstanding(s) == Outstanding(Flat(s.pending[..k])) + AllOutstanding(rest)
  {
    hide Flat, Outstanding;
    var ran := Flat(s.pending[..k]);
    FlatSplits(s.pending, k);
    assert Queued(s) == ran + Queued(rest);
    OutstandingAppends(ran, Queued(rest));
  }

  lemma EchoKeepsCaughtUp(env: Env, cfg: Config, s: State, ackID: int)
    requires InOrder(cfg, s)
    ensures InOrder(cfg, Echo(env, cfg, s, ackID))
    ensures CaughtUp(env, Echo(env, cfg, s, ackID)) == CaughtUp(env, s)
  {
    var k := FirstWith(s.pending, Decoded(cfg, ackID)) + 1;
    var s' := Echo(env, cfg, s, ackID);
    if k > 0 {
      var ran := Flat(s.pending[..k]);
      FlatSplits(s.pending, k);
      SortedTail(Flat(s.pending), ran, Flat(s'.pending), Expiry(cfg.maxBlockUpdateDelay));
      EchoSplits(s, k, s');
      RunWritesOutstanding(env, s.core, ran);
      WrittenSum(env, s.core.world, Outstanding(ran), AllOutstanding(s'));
    }
  }

  lemma AgedSorted(acks: seq<Ack>, t: int)
    requires Sorted(acks) && AtMost(acks, t)
    ensures Sorted(AgedAcks(acks)) && AtMost(AgedAcks(acks), t)
  {
    forall i, j | 0 <= i < j < |acks|
      ensures NotAfter(AgedAcks(acks)[i], AgedAcks(acks)[j])
    {
      assert NotAfter(acks[i], acks[j]);
    }
    forall i | 0 <= i < |acks|
      ensures LiveAtMost(AgedAcks(acks)[i], t)
    {
      assert LiveAtMost(acks[i], t);
    }
  }

  lemma OnlyQueueOutstanding(s: State)
    requires NoBlocks(s.current.acks)
    ensures AllOutstanding(s) == Outstanding(Flat(s.pending)) + s.unflushed
  {
    OutstandingAppends(Flat(s.pending), s.current.acks);
    NoBlocksNothingOutstanding(s.current.acks);
    assert Outstanding(Flat(s.pending)) + map[] == Outstanding(Flat(s.pending));
  }

  lemma ClientTickKeepsCaughtUp(env: Env, cfg: Config, s: State)
    requires InOrder(cfg, s)
    ensures InOrder(cfg, ClientTick(env, s)) && CaughtUp(env, ClientTick(env, s)) == CaughtUp(env, s)
  {
    var acks := Flat(s.pending);
    FlatAges(s.pending);
    AgedSorted(acks, Expiry(cfg.maxBlockUpdateDelay));
    OnlyQueueOutstanding(s);
    OnlyQueueOutstanding(ClientTick(env, s));
    TickKeepsCaughtUp(env, s.core, acks);
    SumsAgree(env, s.core.world, Outstanding(acks), TickAcks(env, s.core, acks).world, Outstanding(AgedAcks(acks)),
              s.unflushed);
  }

  lemma QueueKeepsCaughtUp(env: Env, cfg: Config, s: State, a: Ack)
    requires InOrder(cfg, s) && !a.Blocks?
    ensures InOrder(cfg, Queue(s, a)) && CaughtUp(env, Queue(s, a)) == CaughtUp(env, s)
  {
    hide Written, Flat;
    assert Queued(Queue(s, a)) == Queued(s) + [a];
    OutstandingOne(Queued(s), a);
    assert Outstanding(Queued(s)) + map[] == Outstanding(Queued(s));
  }

  lemma AddBlockCatchesUp(env: Env, cfg: Config, s: State, p: Pos, rid: Rid)
    requires InOrder(cfg, s)
    ensures InOrder(cfg, AddBlock(s, p, rid))
    ensures CaughtUp(env, AddBlock(s, p, rid)) == CaughtUp(env, s) + Written(env, map[p := rid])
  {
    hide Written, Outstanding, Sorted, AtMost, NoBlocks;
    assert AllOutstanding(AddBlock(s, p, rid)) == AllOutstanding(s) + map[p := rid];
    WrittenSum(env, s.core.world, AllOutstanding(s), map[p := rid]);
  }

  /** Nothing that is waiting is overtaken by a newer change of the world or dropped before it got there. */
  ghost predicate Harmless(env: Env, cfg: Config, s: State, e: Event) {
    match e
    case FlushEvent(st, ct, placed, _) => Overtakes(env, Outstanding(Queued(s)), Early(env, cfg, s, st, ct, placed))
    case PlaceEvent(p, block) => StaysPlaced(env, s, p, block)
    case DropEvent(chunks) => NothingToCome(env, s, chunks)
    case TransferEvent(_, loaded, _) => Droppable(env, s, loaded)
    case _ => true
  }

  lemma KnockbackKeepsCaughtUp(env: Env, cfg: Config, s: State, v: Vec3, st: int, ct: int)
    requires InOrder(cfg, s)
    ensures var s' := ServerKnockback(env, cfg, s, v, st, ct); InOrder(cfg, s') && CaughtUp(env, s') == CaughtUp(env, s)
  {
    hide Written, Outstanding, Flat, Sorted, AtMost, NoBlocks;
    if !CutOff(cfg, st, ct) {
      QueueKeepsCaughtUp(env, cfg, s, AckModel.Knockback(KnockbackAck(v, Expiry(cfg.maxKnockbackDelay), false)));
    }
  }

  lemma SameWorld(env: Env, s: State, t: State)
    requires t.core.world == s.core.world && t.unflushed == s.unflushed && Queued(t) == Queued(s)
    ensures CaughtUp(env, t) == CaughtUp(env, s)
  {
  }

  /** One step moves the caught-up world exactly as applying at once does, if and only if it is harmless. */
  lemma StepCatchesUp(env: Env, cfg: Config, s: State, e: Event)
    requires InOrder(cfg, s)
    ensures InOrder(cfg, Step(env, cfg, s, e))
    ensures CaughtUp(env, Step(env, cfg, s, e)) == StepAtOnce(env, CaughtUp(env, s), e) <==> Harmless(env, cfg, s, e)
  {
    hide Flush, Echo, ClientTick, ServerKnockback, Written, Outstanding, Flat, Sorted, AtMost, NoBlocks, Overtakes;
    hide Early, Without, Placed, NothingToCome, StaysPlaced, Droppable, CaughtUp;
    match e
    case BlockEvent(p, rid) => AddBlockCatchesUp(env, cfg, s, p, rid);
    case TeleportEvent(pos, onGround, smoothed) =>
      QueueKeepsCaughtUp(env, cfg, s, Teleport(pos, onGround, smoothed));
      SameWorld(env, Queue(s, Teleport(pos, onGround, smoothed)), Step(env, cfg, s, e));
    case SyncEvent(_) =>
      QueueKeepsCaughtUp(env, cfg, s, Correction(!s.core.correcting));
      SameWorld(env, Queue(s, Correction(!s.core.correcting)), Step(env, cfg, s, e));
    case KnockbackEvent(v, st, ct) => KnockbackKeepsCaughtUp(env, cfg, s, v, st, ct);
    case OtherEvent => QueueKeepsCaughtUp(env, cfg, s, Other);
    case FlushEvent(st, ct, placed, d) =>
      FlushKeepsOrder(env, cfg, s, st, ct, placed, d);
      FlushConverges(env, cfg, s, st, ct, placed, d);
    case EchoEvent(ackID) => EchoKeepsCaughtUp(env, cfg, s, ackID);
    case ClientTickEvent => ClientTickKeepsCaughtUp(env, cfg, s);
    case ServerTickEvent(_, _) =>
      QueueKeepsCaughtUp(env, cfg, s, Other);
      SameWorld(env, if e.serverTick % 10 == 0 then Queue(s, Other) else s, Step(env, cfg, s, e));
    case PlaceEvent(p, block) => PlaceConverges(env, s, p, block);
    case DropEvent(chunks) => DropConverges(env, s, chunks);
    case TransferEvent(pos, loaded, d) =>
      EmptyInOrder(cfg, Transfer(cfg, s, pos, loaded, d));
      TransferConverges(env, cfg, s, pos, loaded, d);
  }

  lemma EmptyInOrder(cfg: Config, s: State)
    requires s.pending == [] && s.current.acks == []
    ensures InOrder(cfg, s)
  {
  }

  ghost predicate AllHarmless(env: Env, cfg: Config, s: State, events: seq<Event>) {
    events == [] ||
    (AllHarmless(env, cfg, s, events[..|events| - 1])
     && Harmless(env, cfg, Run(env, cfg, s, events[..|events| - 1]), events[|events| - 1]))
  }

  /** The delayed world plus everything outstanding is the world that applied each change at once, after every event
      of a run. */
  ghost predicate ConvergedThroughout(env: Env, cfg: Config, s: State, events: seq<Event>) {
    CaughtUp(env, Run(env, cfg, s, events)) == AppliedAtOnce(env, CaughtUp(env, s), events)
    && (events == [] || ConvergedThroughout(env, cfg, s, events[..|events| - 1]))
  }

  /** Convergence.  From any state whose queue is in order, the delayed world converges throughout a run if and only
      if every event of the run is harmless where it happens. */
  lemma {:induction false} Convergence(env: Env, cfg: Config, s: State, events: seq<Event>)
    requires InOrder(cfg, s)
    ensures InOrder(cfg, Run(env, cfg, s, events))
    ensures ConvergedThroughout(env, cfg, s, events) <==> AllHarmless(env, cfg, s, events)
  {
    hide Harmless, InOrder, CaughtUp, Step, StepAtOnce;
    if events != [] {
      var n := |events| - 1;
      Convergence(env, cfg, s, events[..n]);
      StepCatchesUp(env, cfg, Run(env, cfg, s, events[..n]), events[n]);
    }
  }

  /** No transfer, no placement of the client and no chunk that goes. */
  ghost predicate OnlyDelayed(events: seq<Event>) {
    forall i | 0 <= i < |events| :: !events[i].TransferEvent? && !events[i].PlaceEvent? && !events[i].DropEvent?
  }

  /** With the movement cutoff off and no immediate refusal of ghost blocks, nothing does harm in a run in which
      the world changes by delayed updates only. */
  lemma {:induction false} QuietRunsAreHarmless(env: Env, cfg: Config, s: State, events: seq<Event>)
    requires cfg.cutoff < 0 && cfg.maxChain != 0 && OnlyDelayed(events)
    ensures AllHarmless(env, cfg, s, events)
  {
    hide Run, Outstanding, Flat;
    if events != [] { QuietRunsAreHarmless(env, cfg, s, events[..|events| - 1]); }
  }

  /** A session starts in order with nothing to catch up on, and no transfer drops anything then.  The first backend
      is one that purges no chunk. */
  lemma SessionStartsInOrder(env: Env, cfg: Config, world: Updates, draws: seq<int>, e: Event)
    requires e.TransferEvent?
    ensures var s := Initial(cfg, world, draws);
      && InOrder(cfg, s) && CaughtUp(env, s) == world && IndexBacked(s) && Harmless(env, cfg, s, e)
      && (e.loaded == {} ==> Step(env, cfg, s, e) == SetServer(cfg, s, e.pos, e.draws))
  {
    var s := Initial(cfg, world, draws);
    assert Queued(s) == [];
    NothingWritten(env, world);
    Unit(map[]);
    assert Without(world, {}) == world;
  }

  /** Once everything sent has been echoed and nothing waits for a flush, the delay is gone. */
  lemma ConvergedWhenIdle(env: Env, cfg: Config, s: State, events: seq<Event>)
    requires InOrder(cfg, s) && AllHarmless(env, cfg, s, events)
    requires Run(env, cfg, s, events).pending == [] && Run(env, cfg, s, events).unflushed == map[]
    ensures Run(env, cfg, s, events).core.world == AppliedAtOnce(env, CaughtUp(env, s), events)
  {
    hide Run, AllHarmless, Flat;
    var s' := Run(env, cfg, s, events);
    Convergence(env, cfg, s, events);
    CaughtUpWhenEmpty(env, s');
  }

  lemma CaughtUpWhenEmpty(env: Env, s: State)
    requires s.pending == [] && s.unflushed == map[] && NoBlocks(s.current.acks)
    ensures CaughtUp(env, s) == s.core.world
  {
    OnlyQueueOutstanding(s);
    NothingWritten(env, s.core.world);
  }

  lemma OneMoreEvent(env: Env, cfg: Config, s: State, pre: seq<Event>, e: Event)
    ensures Run(env, cfg, s, pre + [e]) == Step(env, cfg, Run(env, cfg, s, pre), e)
    ensures AllHarmless(env, cfg, s, pre + [e])
       <==> AllHarmless(env, cfg, s, pre) && Harmless(env, cfg, Run(env, cfg, s, pre), e)
    ensures AppliedAtOnce(env, CaughtUp(env, s), pre + [e])
         == StepAtOnce(env, AppliedAtOnce(env, CaughtUp(env, s), pre), e)
  {
    hide Step, Harmless, StepAtOnce;
    assert (pre + [e])[..|pre|] == pre;
  }

  /** A run that is harmless up to its last event ends in the wrong world if that one does harm. */
  lemma HarmAtTheEnd(env: Env, cfg: Config, s: State, pre: seq<Event>, e: Event)
    requires InOrder(cfg, s) && AllHarmless(env, cfg, s, pre) && !Harmless(env, cfg, Run(env, cfg, s, pre), e)
    ensures CaughtUp(env, Run(env, cfg, s, pre + [e])) != AppliedAtOnce(env, CaughtUp(env, s), pre + [e])
  {
    hide Step, Harmless, StepAtOnce, InOrder, CaughtUp;
    OneMoreEvent(env, cfg, s, pre, e);
    Convergence(env, cfg, s, pre);
    StepCatchesUp(env, cfg, Run(env, cfg, s, pre), e);
  }

  /** A flush below the cutoff queues the only update there is. */
  lemma UpdateIsQueued(env: Env, cfg: Config, s: State, p: Pos, rid: Rid, draws: seq<int>)
    requires cfg.cutoff != 0 && cfg.maxChain != 0 && Queued(s) == [] && s.unflushed == map[]
    ensures var s1 := AddBlock(s, p, rid); var s2 := Flush(env, cfg, s1, 0, 0, map[], draws);
      && Harmless(env, cfg, s1, FlushEvent(0, 0, map[], draws))
      && Outstanding(Queued(s2)) == map[p := rid] && s2.unflushed == map[]
  {
    hide Outstanding, Flat, Settle, Written;
    var s1 := AddBlock(s, p, rid);
    NothingRefused(env, cfg, s1, map[]);
    var s2 := Flush(env, cfg, s1, 0, 0, map[], draws);
    FlushSplits(env, cfg, s1, 0, 0, map[], draws);
    assert Early(env, cfg, s1, 0, 0, map[]) == map[];
    Unit(Outstanding(Queued(s2)));
    assert Queued(s1) == Queued(s);
    NoBlocksNothingOutstanding([]);
    assert s1.unflushed == map[p := rid];
  }

  /** A run that does harm: an update is queued, and a newer one for the same position overtakes it at the cutoff. */
  lemma CutOffBreaksConvergence(
    env: Env, cfg: Config, p: Pos, first: Rid, second: Rid, draws: seq<int>, lag: int)
    requires 0 < cfg.cutoff <= lag && cfg.maxChain != 0 && InBounds(env, p)
        && Resolve(env, first) != Resolve(env, second)
    ensures var events := [BlockEvent(p, first), FlushEvent(0, 0, map[], draws),
                           BlockEvent(p, second), FlushEvent(lag, 0, map[], draws)];
            CaughtUp(env, Run(env, cfg, Initial(cfg, map[], draws), events)) != AppliedAtOnce(env, map[], events)
  {
    hide Flush, Outstanding, CaughtUp, Resolve, Run, AllHarmless, AppliedAtOnce, InOrder, Step, Harmless;
    var e0, e1 := BlockEvent(p, first), FlushEvent(0, 0, map[], draws);
    var e2, e3 := BlockEvent(p, second), FlushEvent(lag, 0, map[], draws);
    var s0 := Initial(cfg, map[], draws);
    SessionStartsInOrder(env, cfg, map[], draws, TransferEvent(ZERO, {}, draws));
    StartOfRun(env, cfg, s0);
    assert [] + [e0] == [e0] && [e0] + [e1] == [e0, e1] && [e0, e1] + [e2] == [e0, e1, e2];
    OneMoreEvent(env, cfg, s0, [], e0);
    OneMoreEvent(env, cfg, s0, [e0], e1);
    OneMoreEvent(env, cfg, s0, [e0, e1], e2);
    SecondOvertakes(env, cfg, s0, p, first, second, draws, lag);
    HarmAtTheEnd(env, cfg, s0, [e0, e1, e2], e3);
    assert [e0, e1, e2] + [e3] == [e0, e1, e2, e3];
  }

  lemma SecondOvertakes(
    env: Env, cfg: Config, s0: State, p: Pos, first: Rid, second: Rid, draws: seq<int>, lag: int)
    requires 0 < cfg.cutoff <= lag && cfg.maxChain != 0 && InBounds(env, p) && Queued(s0) == [] && s0.unflushed == map[]
    requires Resolve(env, first) != Resolve(env, second)
    ensures var s1 := Step(env, cfg, s0, BlockEvent(p, first));
            var s2 := Step(env, cfg, s1, FlushEvent(0, 0, map[], draws));
            var s3 := Step(env, cfg, s2, BlockEvent(p, second));
      && Harmless(env, cfg, s0, BlockEvent(p, first)) && Harmless(env, cfg, s1, FlushEvent(0, 0, map[], draws))
      && Harmless(env, cfg, s2, BlockEvent(p, second)) && !Harmless(env, cfg, s3, FlushEvent(lag, 0, map[], draws))
  {
    hide Flush, Outstanding, Resolve, Refused;
    UpdateIsQueued(env, cfg, s0, p, first, draws);
    var s2 := Flush(env, cfg, AddBlock(s0, p, first), 0, 0, map[], draws);
    var s3 := AddBlock(s2, p, second);
    assert Queued(s3) == Queued(s2) && s3.unflushed == map[p := second];
    assert !Overtakes(env, map[p := first], map[p := second]);
  }

  lemma StartOfRun(env: Env, cfg: Config, s: State)
    ensures Run(env, cfg, s, []) == s && AllHarmless(env, cfg, s, [])
  {
  }

  // ----- the delay is bounded

  function ClientTicks(events: seq<Event>): nat {
    if events == [] then 0
    else ClientTicks(events[..|events| - 1]) + if events[|events| - 1].ClientTickEvent? then 1 else 0
  }

  ghost predicate Positive(acks: seq<Ack>) {
    forall i | 0 <= i < |acks| && Live(acks[i]) :: acks[i].batch.expiresIn > 0
  }

  /** What is left of the queue after `ticks` client ticks without new block updates. */
  ghost predicate Draining(s: State, budget: int, ticks: nat) {
    && NoBlocks(s.current.acks) && s.unflushed == map[]
    && AtMost(Flat(s.pending), budget - ticks) && (ticks > 0 ==> Positive(Flat(s.pending)))
  }

  lemma DrainEcho(env: Env, cfg: Config, s: State, ackID: int, budget: int, ticks: nat)
    requires Draining(s, budget, ticks)
    ensures Draining(Echo(env, cfg, s, ackID), budget, ticks)
  {
    var k := FirstWith(s.pending, Decoded(cfg, ackID)) + 1;
    if k > 0 {
      FlatSplits(s.pending, k);
      var ran, rest := Flat(s.pending[..k]), Flat(s.pending[k..]);
      forall i | 0 <= i < |rest|
        ensures LiveAtMost(rest[i], budget - ticks) && (ticks > 0 && Live(rest[i]) ==> rest[i].batch.expiresIn > 0)
      {
        assert rest[i] == Flat(s.pending)[|ran| + i];
        assert LiveAtMost(Flat(s.pending)[|ran| + i], budget - ticks);
      }
    }
  }

  lemma DrainTick(env: Env, s: State, budget: int, ticks: nat)
    requires Draining(s, budget, ticks)
    ensures Draining(ClientTick(env, s), budget, ticks + 1)
  {
    var acks := Flat(s.pending);
    FlatAges(s.pending);
    forall i | 0 <= i < |acks|
      ensures LiveAtMost(AgedAcks(acks)[i], budget - ticks - 1)
    {
      assert LiveAtMost(acks[i], budget - ticks);
    }
  }

  lemma DrainFlush(env: Env, cfg: Config, s: State, e: Event, budget: int, ticks: nat)
    requires Draining(s, budget, ticks) && e.FlushEvent?
    ensures Draining(Step(env, cfg, s, e), budget, ticks)
  {
    var s' := Step(env, cfg, s, e);
    assert s'.pending[..|s'.pending| - 1] == s.pending;
    var queued := Flat(s.pending);
    assert Flat(s'.pending) == queued + s.current.acks;
    forall i | 0 <= i < |Flat(s'.pending)|
      ensures LiveAtMost(Flat(s'.pending)[i], budget - ticks)
    {
      if i < |queued| {
        assert LiveAtMost(queued[i], budget - ticks);
      } else {
        assert !s.current.acks[i - |queued|].Blocks?;
      }
    }
  }

  lemma DrainStep(env: Env, cfg: Config, s: State, e: Event, budget: int, ticks: nat)
    requires Draining(s, budget, ticks) && !e.BlockEvent?
    ensures Draining(Step(env, cfg, s, e), budget, ticks + if e.ClientTickEvent? then 1 else 0)
  {
    match e
    case EchoEvent(ackID) => DrainEcho(env, cfg, s, ackID, budget, ticks);
    case ClientTickEvent => DrainTick(env, s, budget, ticks);
    case FlushEvent(_, _, _, _) => DrainFlush(env, cfg, s, e, budget, ticks);
    case _ =>
  }

  lemma {:induction false} Drains(env: Env, cfg: Config, s: State, events: seq<Event>, budget: int)
    requires Draining(s, budget, 0)
    requires forall i | 0 <= i < |events| :: !events[i].BlockEvent?
    ensures Draining(Run(env, cfg, s, events), budget, ClientTicks(events))
  {
    if events != [] {
      var pre := events[..|events| - 1];
      Drains(env, cfg, s, pre, budget);
      DrainStep(env, cfg, Run(env, cfg, s, pre), events[|events| - 1], budget, ClientTicks(pre));
    }
  }

  lemma {:induction false} RunAppends(env: Env, cfg: Config, s: State, a: seq<Event>, b: seq<Event>)
    ensures Run(env, cfg, s, a + b) == Run(env, cfg, Run(env, cfg, s, a), b)
  {
    if b == [] {
      assert a + b == a;
    } else {
      assert (a + b)[..|a + b| - 1] == a + b[..|b| - 1];
      RunAppends(env, cfg, s, a, b[..|b| - 1]);
    }
  }

  /** The configured delay is a bound.  Once flushed, every block update is in the world after
      `max(1, maxBlockUpdateDelay)` further client ticks, echoed or not. */
  lemma DelayIsBounded(env: Env, cfg: Config, s0: State, before: seq<Event>, flush: Event, after: seq<Event>)
    requires InOrder(cfg, s0) && flush.FlushEvent? && AllHarmless(env, cfg, s0, before + [flush] + after)
    requires forall i | 0 <= i < |after| :: !after[i].BlockEvent?
    requires ClientTicks(after) >= 1 && ClientTicks(after) >= Expiry(cfg.maxBlockUpdateDelay)
    ensures Run(env, cfg, s0, before + [flush] + after).core.world
         == AppliedAtOnce(env, CaughtUp(env, s0), before + [flush] + after)
  {
    hide AllHarmless, Flat, Outstanding, CaughtUp, AppliedAtOnce;
    var sent := before + [flush];
    Convergence(env, cfg, s0, sent + after);
    FlushLeavesNothing(env, cfg, s0, before, flush);
    RunAppends(env, cfg, s0, sent, after);
    var s := Run(env, cfg, s0, sent);
    Drains(env, cfg, s, after, Expiry(cfg.maxBlockUpdateDelay));
    DrainedIsCaughtUp(env, Run(env, cfg, s, after), Expiry(cfg.maxBlockUpdateDelay), ClientTicks(after));
  }

  lemma FlushLeavesNothing(env: Env, cfg: Config, s0: State, before: seq<Event>, flush: Event)
    requires InOrder(cfg, s0) && flush.FlushEvent?
    ensures Draining(Run(env, cfg, s0, before + [flush]), Expiry(cfg.maxBlockUpdateDelay), 0)
  {
    hide AllHarmless, Flat, Outstanding, CaughtUp, AppliedAtOnce, Harmless, AtMost, Sorted;
    Convergence(env, cfg, s0, before + [flush]);
    OneMoreEvent(env, cfg, s0, before, flush);
  }

  lemma DrainedIsCaughtUp(env: Env, s: State, budget: int, ticks: nat)
    requires Draining(s, budget, ticks) && ticks >= 1 && ticks >= budget
    ensures CaughtUp(env, s) == s.core.world
  {
    forall i | 0 <= i < |Flat(s.pending)|
      ensures !Live(Flat(s.pending)[i])
    {
      assert LiveAtMost(Flat(s.pending)[i], budget - ticks);
    }
    NoBlocksNothingOutstanding(Flat(s.pending));
    OnlyQueueOutstanding(s);
    NothingWritten(env, s.core.world);
  }

  /** Nothing in a run of these events changes the world of a proxy without lag compensation. */
  lemma {:induction false} NothingNewApplied(env: Env, world: Updates, a: seq<Event>, b: seq<Event>)
    requires OnlyDelayed(b) && forall i | 0 <= i < |b| :: !b[i].BlockEvent?
    ensures AppliedAtOnce(env, world, a + b) == AppliedAtOnce(env, world, a)
  {
    if b == [] {
      assert a + b == a;
    } else {
      assert (a + b)[..|a + b| - 1] == a + b[..|b| - 1];
      NothingNewApplied(env, world, a, b[..|b| - 1]);
    }
  }

  function Waiting(ticks: nat, draws: seq<int>): seq<Event> {
    [FlushEvent(0, 0, map[], draws)] + seq(ticks, _ => ClientTickEvent)
  }

  lemma {:induction false} WaitingTicks(ticks: nat)
    ensures ClientTicks(seq(ticks, _ => ClientTickEvent)) == ticks
  {
    if ticks > 0 {
      assert seq(ticks, _ => ClientTickEvent)[..ticks - 1] == seq(ticks - 1, _ => ClientTickEvent);
      WaitingTicks(ticks - 1);
    }
  }

  /** A flush and enough client ticks bring everything outstanding into the world. */
  lemma WaitingIsEnough(env: Env, cfg: Config, s: State, ticks: nat, draws: seq<int>)
    requires InOrder(cfg, s) && cfg.cutoff < 0 && cfg.maxChain != 0
    requires ticks >= 1 && ticks >= Expiry(cfg.maxBlockUpdateDelay)
    ensures Run(env, cfg, s, Waiting(ticks, draws)).core.world == CaughtUp(env, s)
  {
    hide Run, AppliedAtOnce, InOrder, CaughtUp, AllHarmless, ClientTicks;
    var flush, after := FlushEvent(0, 0, map[], draws), seq(ticks, _ => ClientTickEvent);
    assert [] + [flush] + after == Waiting(ticks, draws);
    WaitingTicks(ticks);
    QuietRunsAreHarmless(env, cfg, s, Waiting(ticks, draws));
    DelayIsBounded(env, cfg, s, [], flush, after);
    assert [] + Waiting(ticks, draws) == Waiting(ticks, draws);
    NothingNewApplied(env, CaughtUp(env, s), [], Waiting(ticks, draws));
    assert AppliedAtOnce(env, CaughtUp(env, s), []) == CaughtUp(env, s) by { NothingApplied(env, CaughtUp(env, s)); }
  }

  lemma NothingApplied(env: Env, world: Updates)
    ensures AppliedAtOnce(env, world, []) == world
  {
  }

  /** A run whose transfer does harm: an update of the old backend that was not flushed yet is written into the world
      of the new one, although its chunk was purged. */
  lemma StaleUpdateSurvives(env: Env, cfg: Config, p: Pos, rid: Rid, pos: Vec3, loaded: set<ChunkPos>,
      ticks: nat, d0: seq<int>, d1: seq<int>, d2: seq<int>)
    requires cfg.cutoff < 0 && cfg.maxChain != 0 && InBounds(env, p) && ChunkOf(p) in loaded
    requires ticks >= 1 && ticks >= Expiry(cfg.maxBlockUpdateDelay)
    ensures var events := [BlockEvent(p, rid), TransferEvent(pos, loaded, d1)] + Waiting(ticks, d2);
      && p in Run(env, cfg, Initial(cfg, map[], d0), events).core.world
      && p !in AppliedAtOnce(env, map[], events)
  {
    hide Run, AppliedAtOnce, InOrder, AllHarmless, Waiting, ChunkOf, Expiry, Transfer, ConvergedThroughout;
    var s, e0, e1 := Initial(cfg, map[], d0), BlockEvent(p, rid), TransferEvent(pos, loaded, d1);
    SessionStartsInOrder(env, cfg, map[], d0, e1);
    StartOfRun(env, cfg, s);
    NothingApplied(env, map[]);
    assert [] + [e0] == [e0] && [e0] + [e1] == [e0, e1];
    OneMoreEvent(env, cfg, s, [], e0);
    OneMoreEvent(env, cfg, s, [e0], e1);
    Convergence(env, cfg, s, [e0, e1]);
    var t := Run(env, cfg, s, [e0, e1]);
    assert p in CaughtUp(env, t) by { UnflushedSurvives(env, cfg, AddBlock(s, p, rid), p, pos, loaded, d1); }
    WaitingIsEnough(env, cfg, t, ticks, d2);
    RunAppends(env, cfg, s, [e0, e1], Waiting(ticks, d2));
    WaitingIsQuiet(ticks, d2);
    NothingNewApplied(env, map[], [e0, e1], Waiting(ticks, d2));
  }

  lemma WaitingIsQuiet(ticks: nat, draws: seq<int>)
    ensures var w := Waiting(ticks, draws); OnlyDelayed(w) && forall i | 0 <= i < |w| :: !w[i].BlockEvent?
  {
  }

  lemma UnflushedSurvives(
    env: Env, cfg: Config, s: State, p: Pos, pos: Vec3, loaded: set<ChunkPos>, draws: seq<int>)
    requires p in s.unflushed && InBounds(env, p)
    ensures p in CaughtUp(env, Transfer(cfg, s, pos, loaded, draws))
  {
  }

  // ----- the index of pending block updates

  /** Every indexed update is the newest outstanding one for its position. */
  ghost predicate Backed(index: Updates, outstanding: Updates) {
    forall p | p in index :: p in outstanding && outstanding[p] == index[p]
  }

  lemma Assoc(a: Updates, b: Updates, c: Updates)
    ensures a + b + c == a + (b + c)
  {
  }

  lemma Unit(a: Updates)
    ensures map[] + a == a && a + map[] == a
  {
  }

  lemma RunUpdatesKeepsBacked(env: Env, c: Core, o: Updates, u: Updates, later: Updates)
    requires Backed(c.index, o + u + later)
    ensures Backed(RunUpdates(env, c, u).index, o + later)
  {
  }

  lemma RunAckKeepsBacked(env: Env, c: Core, o: Updates, a: Ack, later: Updates)
    requires Backed(c.index, o + Held(a) + later)
    ensures Backed(RunAck(env, c, a).index, o + later)
  {
    if Live(a) {
      RunUpdatesKeepsBacked(env, c, o, a.batch.updates, later);
    }
  }

  lemma {:induction false} RunKeepsBacked(env: Env, c: Core, acks: seq<Ack>, later: Updates)
    requires Backed(c.index, Outstanding(acks) + later)
    ensures Backed(RunAcks(env, c, acks).index, later)
  {
    Unit(later);
    if acks != [] {
      var pre, a := acks[..|acks| - 1], acks[|acks| - 1];
      Assoc(Outstanding(pre), Held(a), later);
      RunKeepsBacked(env, c, pre, Held(a) + later);
      Unit(Held(a));
      RunAckKeepsBacked(env, RunAcks(env, c, pre), map[], a, later);
    }
  }

  lemma {:induction false} TickKeepsBacked(env: Env, c: Core, acks: seq<Ack>, later: Updates)
    requires Backed(c.index, Outstanding(acks) + later)
    ensures Backed(TickAcks(env, c, acks).index, Outstanding(AgedAcks(acks)) + later)
  {
    if acks != [] {
      var pre, a := acks[..|acks| - 1], acks[|acks| - 1];
      var o := Outstanding(AgedAcks(pre));
      Assoc(Outstanding(pre), Held(a), later);
      TickKeepsBacked(env, c, pre, Held(a) + later);
      assert pre + [a] == acks;
      AgedSnoc(pre, a);
      OutstandingOne(AgedAcks(pre), Aged(a));
      Assoc(o, Held(a), later);
      if Expires(a) {
        RunAckKeepsBacked(env, TickAcks(env, c, pre), o, a, later);
        Unit(o);
      } else {
        assert Held(Aged(a)) == Held(a);
      }
    }
  }

  ghost predicate IndexBacked(s: State) { Backed(s.core.index, AllOutstanding(s)) && NoBlocks(s.current.acks) }

  lemma FlushKeepsIndexBacked(env: Env, cfg: Config, s: State, st: int, ct: int, placed: Updates, draws: seq<int>)
    requires IndexBacked(s)
    ensures IndexBacked(Flush(env, cfg, s, st, ct, placed, draws))
  {
    var s1 := FlushWorld(env, cfg, s, st, ct, placed);
    var s' := Flush(env, cfg, s, st, ct, placed, draws);
    assert s'.pending[..|s'.pending| - 1] == s.pending;
    var o, u := Outstanding(Queued(s)), s.unflushed;
    if u == map[] {
      assert Queued(s') == Queued(s);
    } else {
      var refused := Refused(env, cfg, u, placed);
      var kept := u - refused.Keys;
      assert u == refused + kept;
      Assoc(o, refused, kept);
      RunUpdatesKeepsBacked(env, s.core, o, refused, kept);
      Unit(o + kept);
      if CutOff(cfg, st, ct) {
        assert Queued(s') == Queued(s);
        RunUpdatesKeepsBacked(env, RunUpdates(env, s.core, refused), o, kept, map[]);
      } else {
        var a := Blocks(BlockAck(kept, Expiry(cfg.maxBlockUpdateDelay), true));
        assert Queued(s') == Queued(s) + [a];
        OutstandingOne(Queued(s), a);
      }
    }
  }

  lemma QueueKeepsIndexBacked(s: State, a: Ack)
    requires IndexBacked(s) && !a.Blocks?
    ensures IndexBacked(Queue(s, a))
  {
    hide Flat, Outstanding, Backed;
    assert Queued(Queue(s, a)) == Queued(s) + [a];
    OutstandingOne(Queued(s), a);
    Unit(Outstanding(Queued(s)));
  }

  lemma AddBlockKeepsIndexBacked(s: State, p: Pos, rid: Rid)
    requires IndexBacked(s)
    ensures IndexBacked(AddBlock(s, p, rid))
  {
  }

  lemma StepKeepsIndexBacked(env: Env, cfg: Config, s: State, e: Event)
    requires IndexBacked(s) && !e.TransferEvent?
    ensures IndexBacked(Step(env, cfg, s, e))
  {
    hide Flush, FlushWorld, RunUpdates, RunAcks, Backed, Outstanding, Flat, FreshBatch;
    match e
    case BlockEvent(p, rid) => AddBlockKeepsIndexBacked(s, p, rid);
    case TeleportEvent(pos, onGround, smoothed) => QueueKeepsIndexBacked(s, Teleport(pos, onGround, smoothed));
    case SyncEvent(_) => QueueKeepsIndexBacked(s, Correction(!s.core.correcting));
    case KnockbackEvent(v, _, _) =>
      QueueKeepsIndexBacked(s, AckModel.Knockback(KnockbackAck(v, Expiry(cfg.maxKnockbackDelay), false)));
    case OtherEvent => QueueKeepsIndexBacked(s, Other);
    case FlushEvent(st, ct, placed, d) => FlushKeepsIndexBacked(env, cfg, s, st, ct, placed, d);
    case EchoEvent(ackID) =>
      var k := FirstWith(s.pending, Decoded(cfg, ackID)) + 1;
      if k > 0 {
        EchoSplits(s, k, Echo(env, cfg, s, ackID));
        RunKeepsBacked(env, s.core, Flat(s.pending[..k]), AllOutstanding(Echo(env, cfg, s, ackID)));
      }
    case ClientTickEvent =>
      OnlyQueueOutstanding(s);
      FlatAges(s.pending);
      OnlyQueueOutstanding(ClientTick(env, s));
      TickKeepsBacked(env, s.core, Flat(s.pending), s.unflushed);
    case ServerTickEvent(_, _) => QueueKeepsIndexBacked(s, Other);
    case PlaceEvent(_, _) =>
    case DropEvent(_) =>
  }

  /** A transfer drops the queue but neither the index nor the unflushed batch, so it keeps the index backed
      exactly when every indexed update is still unflushed. */
  lemma TransferBacksIndex(cfg: Config, s: State, pos: Vec3, loaded: set<ChunkPos>, draws: seq<int>)
    ensures IndexBacked(Transfer(cfg, s, pos, loaded, draws)) <==> Backed(s.core.index, s.unflushed)
  {
    var s' := Transfer(cfg, s, pos, loaded, draws);
    assert Queued(s') == [];
    assert AllOutstanding(s') == s.unflushed;
  }

  /** Every transfer of a run finds every indexed update still unflushed. */
  ghost predicate TransfersBack(env: Env, cfg: Config, s: State, events: seq<Event>) {
    events == [] ||
    (var pre := events[..|events| - 1];
     TransfersBack(env, cfg, s, pre)
     && (events[|events| - 1].TransferEvent? ==>
           Backed(Run(env, cfg, s, pre).core.index, Run(env, cfg, s, pre).unflushed)))
  }

  ghost predicate BackedThroughout(env: Env, cfg: Config, s: State, events: seq<Event>) {
    IndexBacked(Run(env, cfg, s, events)) && (events == [] || BackedThroughout(env, cfg, s, events[..|events| - 1]))
  }

  /** No stranded entries.  A position is reported as having a pending update only while a batch that has not run
      yet, or the unflushed one, holds exactly that runtime ID as the newest update of the position.  From any state
      where that holds, and with any options, it holds throughout a run exactly when every transfer of the run
      finds every indexed update unflushed; so it always holds between transfers. */
  lemma {:induction false} IndexStaysBacked(env: Env, cfg: Config, s: State, events: seq<Event>)
    requires IndexBacked(s)
    ensures BackedThroughout(env, cfg, s, events) <==> TransfersBack(env, cfg, s, events)
    ensures NoTransfer(events) ==> BackedThroughout(env, cfg, s, events)
  {
    hide IndexBacked, Step, Backed;
    if events != [] {
      var pre, e := events[..|events| - 1], events[|events| - 1];
      IndexStaysBacked(env, cfg, s, pre);
      var t := Run(env, cfg, s, pre);
      if e.TransferEvent? {
        TransferBacksIndex(cfg, t, e.pos, e.loaded, e.draws);
        StepIsTransfer(env, cfg, t, e);
      } else if IndexBacked(t) {
        StepKeepsIndexBacked(env, cfg, t, e);
      }
    }
  }

  lemma StepIsTransfer(env: Env, cfg: Config, s: State, e: Event)
    requires e.TransferEvent?
    ensures Step(env, cfg, s, e) == Transfer(cfg, s, e.pos, e.loaded, e.draws)
  {
  }

  /** A run whose transfer strands an entry: one update is flushed, then the backend is replaced. */
  lemma TransferCanStrand(
    env: Env, cfg: Config, p: Pos, pos: Vec3, loaded: set<ChunkPos>, d0: seq<int>, d1: seq<int>, d2: seq<int>)
    requires cfg.cutoff < 0 && cfg.maxChain != 0
    ensures !IndexBacked(Run(env, cfg, Initial(cfg, map[], d0),
                             [BlockEvent(p, env.air), FlushEvent(0, 0, map[], d1), TransferEvent(pos, loaded, d2)]))
  {
    var init := Initial(cfg, map[], d0);
    var e0, e1, e2 := BlockEvent(p, env.air), FlushEvent(0, 0, map[], d1), TransferEvent(pos, loaded, d2);
    assert [e0][..0] == [] && [e0, e1][..1] == [e0] && [e0, e1, e2][..2] == [e0, e1];
    var s := Run(env, cfg, init, [e0, e1]);
    var s1 := AddBlock(init, p, env.air);
    assert Run(env, cfg, init, [e0]) == s1;
    NothingRefused(env, cfg, s1, map[]);
    assert p in s.core.index && s.unflushed == map[];
    TransferBacksIndex(cfg, s, pos, loaded, d2);
  }

  // ----- counters of pending teleports and corrections

  /** What the movement component has to know about a list of acknowledgements: how many teleports and
      corrections it holds, whether one of them clears the correction-in-flight flag, the last teleport. */
  datatype Tally = Tally(teleports: nat, corrections: nat, clears: bool, last: seq<Vec3>) {
    function Then(t: Tally): Tally {
      Tally(teleports + t.teleports, corrections + t.corrections, clears || t.clears,
            if t.last == [] then last else t.last)
    }
  }

  const NOTHING := Tally(0, 0, false, [])

  function TallyOne(a: Ack): Tally {
    match a
    case Teleport(pos, _, _) => Tally(1, 0, false, [pos])
    case Correction(setField) => Tally(0, 1, setField, [])
    case _ => NOTHING
  }

  function TallyOf(acks: seq<Ack>): Tally {
    if acks == [] then NOTHING else TallyOf(acks[..|acks| - 1]).Then(TallyOne(acks[|acks| - 1]))
  }

  lemma TallySnoc(acks: seq<Ack>, a: Ack)
    ensures TallyOf(acks + [a]) == TallyOf(acks).Then(TallyOne(a))
  {
    assert (acks + [a])[..|acks|] == acks;
  }

  lemma ThenAssoc(a: Tally, b: Tally, c: Tally)
    ensures a.Then(b).Then(c) == a.Then(b.Then(c))
  {
  }

  lemma {:induction false} TallyAppends(a: seq<Ack>, b: seq<Ack>)
    ensures TallyOf(a + b) == TallyOf(a).Then(TallyOf(b))
  {
    if b == [] {
      assert a + b == a;
    } else {
      var pre, last := b[..|b| - 1], b[|b| - 1];
      assert a + b == a + pre + [last];
      TallySnoc(a + pre, last);
      TallyAppends(a, pre);
      ThenAssoc(TallyOf(a), TallyOf(pre), TallyOne(last));
    }
  }

  lemma {:induction false} TallyAges(acks: seq<Ack>)
    ensures TallyOf(AgedAcks(acks)) == TallyOf(acks)
  {
    if acks != [] {
      var pre, a := acks[..|acks| - 1], acks[|acks| - 1];
      TallyAges(pre);
      hide AgedAcks;
      assert pre + [a] == acks;
      AgedSnoc(pre, a);
      TallySnoc(AgedAcks(pre), Aged(a));
      TallySnoc(pre, a);
    }
  }

  /** The player's counters agree with what is queued.  Running the queue would leave both counters at zero,
      the flag down and the player at the last teleport the server sent. */
  ghost predicate Agrees(c: Core, t: Tally) {
    && c.mv.pendingTeleports == t.teleports && c.mv.pendingCorrections == t.corrections
    && (c.correcting ==> t.clears)
    && c.mv.pendingTeleportPos == if t.last == [] then c.mv.teleportPos else t.last[0]
  }

  lemma {:induction false} RunKeepsAgreement(env: Env, c: Core, acks: seq<Ack>, later: Tally)
    requires Agrees(c, TallyOf(acks).Then(later)) && |later.last| <= 1
    ensures Agrees(RunAcks(env, c, acks), later)
  {
    if acks != [] {
      var pre, a := acks[..|acks| - 1], acks[|acks| - 1];
      RunKeepsAgreement(env, c, pre, TallyOne(a).Then(later));
    }
  }

  lemma {:induction false} TickKeepsAgreement(env: Env, c: Core, acks: seq<Ack>, t: Tally)
    requires Agrees(c, t)
    ensures Agrees(TickAcks(env, c, acks), t)
  {
    if acks != [] {
      TickKeepsAgreement(env, c, acks[..|acks| - 1], t);
    }
  }

  ghost predicate CountersAgree(s: State) { Agrees(s.core, TallyOf(Queued(s))) }

  lemma {:induction false} TallyLast(acks: seq<Ack>)
    ensures |TallyOf(acks).last| <= 1
  {
    if acks != [] { TallyLast(acks[..|acks| - 1]); }
  }

  lemma EchoKeepsCounters(env: Env, cfg: Config, s: State, ackID: int)
    requires CountersAgree(s)
    ensures CountersAgree(Echo(env, cfg, s, ackID))
  {
    hide Agrees, TallyOf, RunAcks;
    var k := FirstWith(s.pending, Decoded(cfg, ackID)) + 1;
    if k > 0 {
      var s' := Echo(env, cfg, s, ackID);
      var ran := Flat(s.pending[..k]);
      FlatSplits(s.pending, k);
      assert Queued(s) == ran + Queued(s');
      TallyAppends(ran, Queued(s'));
      TallyLast(Queued(s'));
      RunKeepsAgreement(env, s.core, ran, TallyOf(Queued(s')));
    }
  }

  lemma FlushKeepsCounters(env: Env, cfg: Config, s: State, st: int, ct: int, placed: Updates, draws: seq<int>)
    requires CountersAgree(s)
    ensures CountersAgree(Flush(env, cfg, s, st, ct, placed, draws))
  {
    hide TallyOf, Refused;
    var s1 := FlushWorld(env, cfg, s, st, ct, placed);
    var s' := Flush(env, cfg, s, st, ct, placed, draws);
    assert s'.pending[..|s'.pending| - 1] == s.pending;
    if s.unflushed == map[] || CutOff(cfg, st, ct) {
      assert Queued(s') == Queued(s);
    } else {
      var kept := s.unflushed - Refused(env, cfg, s.unflushed, placed).Keys;
      var a := Blocks(BlockAck(kept, Expiry(cfg.maxBlockUpdateDelay), true));
      assert Queued(s') == Queued(s) + [a];
      TallySnoc(Queued(s), a);
    }
  }

  lemma ClientTickKeepsCounters(env: Env, s: State)
    requires CountersAgree(s)
    ensures CountersAgree(ClientTick(env, s))
  {
    var acks := Flat(s.pending);
    FlatAges(s.pending);
    TallyAppends(acks, s.current.acks);
    TallyAppends(AgedAcks(acks), s.current.acks);
    TallyAges(acks);
    TickKeepsAgreement(env, s.core, acks, TallyOf(Queued(s)));
  }

  lemma AddKeepsCounters(s: State, s': State, a: Ack)
    requires CountersAgree(s)
    requires s'.pending == s.pending && s'.current.acks == s.current.acks + [a]
    requires Agrees(s'.core, TallyOf(Queued(s)).Then(TallyOne(a)))
    ensures CountersAgree(s')
  {
    assert Queued(s') == Queued(s) + [a];
    TallySnoc(Queued(s), a);
  }

  lemma TransferKeepsCounters(cfg: Config, s: State, pos: Vec3, loaded: set<ChunkPos>, draws: seq<int>)
    ensures CountersAgree(Transfer(cfg, s, pos, loaded, draws))
  {
    assert Queued(Transfer(cfg, s, pos, loaded, draws)) == [];
  }

  lemma StepKeepsCounters(env: Env, cfg: Config, s: State, e: Event)
    requires CountersAgree(s)
    ensures CountersAgree(Step(env, cfg, s, e))
  {
    hide Flush, Echo, ClientTick, TallyOf, Flat;
    match e
    case BlockEvent(p, rid) => assert Queued(AddBlock(s, p, rid)) == Queued(s);
    case TeleportEvent(pos, onGround, smoothed) =>
      AddKeepsCounters(s, Step(env, cfg, s, e), Teleport(pos, onGround, smoothed));
    case SyncEvent(_) => AddKeepsCounters(s, Step(env, cfg, s, e), Correction(!s.core.correcting));
    case KnockbackEvent(v, st, ct) =>
      if !CutOff(cfg, st, ct) {
        AddKeepsCounters(s, Step(env, cfg, s, e),
          AckModel.Knockback(KnockbackAck(v, Expiry(cfg.maxKnockbackDelay), false)));
      } else {
        assert Queued(Step(env, cfg, s, e)) == Queued(s);
      }
    case OtherEvent => AddKeepsCounters(s, Step(env, cfg, s, e), Other);
    case FlushEvent(st, ct, placed, d) => FlushKeepsCounters(env, cfg, s, st, ct, placed, d);
    case EchoEvent(ackID) => EchoKeepsCounters(env, cfg, s, ackID);
    case ClientTickEvent => ClientTickKeepsCounters(env, s);
    case ServerTickEvent(st, _) =>
      if st % 10 == 0 { AddKeepsCounters(s, Step(env, cfg, s, e), Other); }
      else { assert Queued(Step(env, cfg, s, e)) == Queued(s); }
    case TransferEvent(pos, loaded, d) => TransferKeepsCounters(cfg, s, pos, loaded, d);
    case PlaceEvent(_, _) =>
    case DropEvent(_) =>
  }

  /** Over every run, transfers included, pending teleports and corrections are the ones still queued, the
      correction-in-flight flag is up only while a queued correction will take it down, and the teleport
      position is the newest one the server sent unless that teleport is still queued. */
  lemma {:induction false} CountersAlwaysAgree(env: Env, cfg: Config, world: Updates, draws: seq<int>,
      events: seq<Event>)
    ensures CountersAgree(Run(env, cfg, Initial(cfg, world, draws), events))
  {
    if events == [] {
      assert Queued(Initial(cfg, world, draws)) == [];
    } else {
      var pre := events[..|events| - 1];
      CountersAlwaysAgree(env, cfg, world, draws, pre);
      StepKeepsCounters(env, cfg, Run(env, cfg, Initial(cfg, world, draws), pre), events[|events| - 1]);
    }
  }

  // ----- timestamps

  ghost predicate Distinct(s: State) {
    && (forall i, j | 0 <= i < j < |s.pending| :: s.pending[i].timestamp != s.pending[j].timestamp)
    && Unused(s.pending, s.current.timestamp)
  }

  lemma SameStamps(a: seq<Batch>, b: seq<Batch>, legacy: bool, draws: seq<int>)
    requires |a| == |b| && forall i | 0 <= i < |a| :: a[i].timestamp == b[i].timestamp
    ensures FirstUnused(legacy, a, draws) == FirstUnused(legacy, b, draws)
    ensures SomeUnused(legacy, a, draws) == SomeUnused(legacy, b, draws)
  {
    forall t: int
      ensures Unused(a, t) == Unused(b, t)
    {
    }
    if draws != [] { SameStamps(a, b, legacy, draws[1..]); }
  }

  lemma FlushWorldKeepsStamps(env: Env, cfg: Config, s: State, st: int, ct: int, placed: Updates)
    ensures var s' := FlushWorld(env, cfg, s, st, ct, placed);
            s'.pending == s.pending && s'.current.timestamp == s.current.timestamp
  {
  }

  /** The search for the next timestamp ends. */
  ghost predicate SearchEnds(cfg: Config, s: State, e: Event) {
    e.FlushEvent? ==> SomeUnused(cfg.legacy, s.pending + [s.current], e.draws)
  }

  lemma FlushTimestamps(env: Env, cfg: Config, s: State, e: Event)
    requires e.FlushEvent? && Distinct(s) && SearchEnds(cfg, s, e)
    ensures Distinct(Step(env, cfg, s, e))
  {
    hide FirstUnused, SomeUnused;
    var s' := Step(env, cfg, s, e);
    SameStamps(s'.pending, s.pending + [s.current], cfg.legacy, e.draws);
    forall i, j | 0 <= i < j < |s'.pending|
      ensures s'.pending[i].timestamp != s'.pending[j].timestamp
    {
      assert s'.pending[i] == s.pending[i];
    }
  }

  lemma StepKeepsTimestamps(env: Env, cfg: Config, s: State, e: Event)
    requires Distinct(s) && SearchEnds(cfg, s, e)
    ensures Distinct(Step(env, cfg, s, e))
  {
    if e.FlushEvent? { FlushTimestamps(env, cfg, s, e); }
  }

  ghost predicate SearchesEnd(env: Env, cfg: Config, s: State, events: seq<Event>) {
    events == [] ||
    (SearchesEnd(env, cfg, s, events[..|events| - 1])
     && SearchEnds(cfg, Run(env, cfg, s, events[..|events| - 1]), events[|events| - 1]))
  }

  /** Over every run in which the searches end, the timestamps of the queue and of the batch being filled are
      pairwise distinct. */
  lemma {:induction false} TimestampsStayDistinct(env: Env, cfg: Config, s: State, events: seq<Event>)
    requires Distinct(s) && SearchesEnd(env, cfg, s, events)
    ensures Distinct(Run(env, cfg, s, events))
  {
    if events != [] {
      var pre := events[..|events| - 1];
      TimestampsStayDistinct(env, cfg, s, pre);
      StepKeepsTimestamps(env, cfg, Run(env, cfg, s, pre), events[|events| - 1]);
    }
  }

  /** A search ends after at most one draw more than there are batches, repeated draws not counted. */
  lemma SearchEndsSoon(legacy: bool, batches: seq<Batch>, draws: seq<int>)
    requires forall i, j | 0 <= i < j < |draws| :: draws[i] != draws[j]
    requires |draws| > |batches|
    ensures SomeUnused(legacy, batches, draws)
  {
    if !SomeUnused(legacy, batches, draws) {
      var stamps := StampsOf(batches);
      forall i | 0 <= i < |draws|
        ensures Stamp(legacy, draws[i]) in stamps
      {
        assert !Unused(batches, Stamp(legacy, draws[i]));
        var j :| 0 <= j < |batches| && batches[j].timestamp == Stamp(legacy, draws[i]);
        StampsHave(batches, j);
      }
      FewDraws(legacy, draws, stamps);
    }
  }

  function StampsOf(batches: seq<Batch>): (r: set<int>)
    ensures |r| <= |batches|
  {
    if batches == [] then {} else StampsOf(batches[..|batches| - 1]) + {batches[|batches| - 1].timestamp}
  }

  lemma {:induction false} StampsHave(batches: seq<Batch>, j: nat)
    requires j < |batches|
    ensures batches[j].timestamp in StampsOf(batches)
  {
    if j < |batches| - 1 { StampsHave(batches[..|batches| - 1], j); }
  }

  lemma {:induction false} FewDraws(legacy: bool, draws: seq<int>, stamps: set<int>)
    requires forall i, j | 0 <= i < j < |draws| :: draws[i] != draws[j]
    requires forall i | 0 <= i < |draws| :: Stamp(legacy, draws[i]) in stamps
    ensures |draws| <= |stamps|
  {
    if draws != [] {
      var n := |draws| - 1;
      FewDraws(legacy, draws[..n], stamps - {Stamp(legacy, draws[n])});
    }
  }

  /** With distinct timestamps a response names one batch: it is accepted exactly when some queued batch has
      its timestamp, it removes that batch and everything before it, and a second copy is refused. */
  lemma EchoOnce(env: Env, cfg: Config, s: State, ackID: int, i: nat)
    requires Distinct(s) && i < |s.pending| && s.pending[i].timestamp == Decoded(cfg, ackID)
    ensures Echo(env, cfg, s, ackID).pending == s.pending[i + 1..]
    ensures Echo(env, cfg, s, ackID).core == RunAcks(env, s.core, Flat(s.pending[..i + 1]))
    ensures Echo(env, cfg, Echo(env, cfg, s, ackID), ackID) == Echo(env, cfg, s, ackID)
  {
    assert FirstWith(s.pending, Decoded(cfg, ackID)) == i;
    var rest := s.pending[i + 1..];
    forall k | 0 <= k < |rest|
      ensures rest[k].timestamp != Decoded(cfg, ackID)
    {
      assert rest[k] == s.pending[i + 1 + k];
    }
  }

  /** A client answers with the timestamp it was sent, scaled as its version and device do; whatever digits newer
      versions add below that scale, the answer decodes to the timestamp of the batch. */
  lemma ResponseDecodes(cfg: Config, draw: nat, rest: nat)
    requires rest < if cfg.legacy then 1 else ClientScale(cfg)
    ensures var timestamp := Stamp(cfg.legacy, draw);
            Decoded(cfg, Sent(cfg, timestamp) * ClientScale(cfg) + rest) == timestamp
  {
    if cfg.legacy {
      assert Sent(cfg, draw * ACK_DIVIDER) == if cfg.orbis then draw else draw * ACK_DIVIDER;
    } else {
      assert Sent(cfg, draw) == draw;
    }
  }
}
