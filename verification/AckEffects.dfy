/** What the events of the lag-compensation protocol do, said in terms of the player and of single positions: when an
    update waits, when it arrives, and what each kind of acknowledgement changes. */
module AckEffects {
  import opened AckModel
  import opened AckTheorems

  // ----- a queued acknowledgement waits for its echo or its time

  /** The event neither drops the queue nor names batch `i` or one behind it. */
  ghost predicate Leaves(cfg: Config, s: State, i: nat, e: Event) {
    && !e.TransferEvent?
    && (e.EchoEvent? ==> forall k | i <= k < |s.pending| :: s.pending[k].timestamp != Decoded(cfg, e.ackID))
  }

  /** The place of batch `i` after an event: an echo of an older batch takes everything before it off the queue. */
  function PlaceAfter(cfg: Config, s: State, i: int, e: Event): int {
    if e.EchoEvent? then i - FirstWith(s.pending, Decoded(cfg, e.ackID)) - 1 else i
  }

  function Place(env: Env, cfg: Config, s: State, i: int, events: seq<Event>): int {
    if events == [] then i
    else
      var pre := events[..|events| - 1];
      PlaceAfter(cfg, Run(env, cfg, s, pre), Place(env, cfg, s, i, pre), events[|events| - 1])
  }

  /** No event of the run takes batch `i` off the queue. */
  ghost predicate LeftAlone(env: Env, cfg: Config, s: State, i: nat, events: seq<Event>) {
    events == [] ||
    (var pre := events[..|events| - 1];
     && LeftAlone(env, cfg, s, i, pre) && Place(env, cfg, s, i, pre) >= 0
     && Leaves(cfg, Run(env, cfg, s, pre), Place(env, cfg, s, i, pre), events[|events| - 1]))
  }

  /** What is left of an acknowledgement that was still to run, after some client ticks: it has run if its time is
      up, and until then it is what it was. */
  predicate Waited(a: Ack, ticks: nat, b: Ack) {
    match a
    case Blocks(x) =>
      b.Blocks? && (if ticks == 0 || ticks < x.expiresIn then b.batch == BlockAck(x.updates, x.expiresIn - ticks, true)
                    else !b.batch.valid)
    case Knockback(k) =>
      b.Knockback? && (if ticks == 0 || ticks < k.expiresIn
                       then b.kb == KnockbackAck(k.velocity, k.expiresIn - ticks, false) else b.kb.ran)
    case _ => b == a
  }

  predicate ToRun(a: Ack) { (a.Blocks? ==> a.batch.valid) && (a.Knockback? ==> !a.kb.ran) }

  lemma TicksOnce(a: Ack, ticks: nat, b: Ack)
    requires ToRun(a) && Waited(a, ticks, b)
    ensures Waited(a, ticks + 1, Aged(b))
  {
  }

  lemma StepLeaves(env: Env, cfg: Config, s: State, i: nat, m: nat, e: Event)
    requires i < |s.pending| && m < |s.pending[i].acks| && Leaves(cfg, s, i, e)
    ensures var t, j := Step(env, cfg, s, e), PlaceAfter(cfg, s, i, e);
      && 0 <= j < |t.pending| && t.pending[j].timestamp == s.pending[i].timestamp
      && m < |t.pending[j].acks|
      && t.pending[j].acks[m] == if e.ClientTickEvent? then Aged(s.pending[i].acks[m]) else s.pending[i].acks[m]
  {
    hide RunAcks, TickAcks, Flat, FirstUnused, RunUpdates, Refused, Aged;
  }

  /** A queued acknowledgement stays as it is until its own time is up, whatever happens to others: in every run
      without a transfer in which no echo names its batch or a later one, its updates or its knockback wait for
      exactly the client ticks that are left to them. */
  lemma {:induction false} StaysQueued(env: Env, cfg: Config, s: State, i: nat, m: nat, events: seq<Event>)
    requires i < |s.pending| && m < |s.pending[i].acks| && ToRun(s.pending[i].acks[m])
    requires LeftAlone(env, cfg, s, i, events)
    ensures var t, j := Run(env, cfg, s, events), Place(env, cfg, s, i, events);
      && 0 <= j < |t.pending| && t.pending[j].timestamp == s.pending[i].timestamp
      && m < |t.pending[j].acks| && Waited(s.pending[i].acks[m], ClientTicks(events), t.pending[j].acks[m])
  {
    hide Step, Leaves, PlaceAfter, Waited, Aged, ToRun;
    if events == [] {
      NotYet(s.pending[i].acks[m]);
    } else {
      var pre, e := events[..|events| - 1], events[|events| - 1];
      StaysQueued(env, cfg, s, i, m, pre);
      var t, j := Run(env, cfg, s, pre), Place(env, cfg, s, i, pre);
      StepLeaves(env, cfg, t, j, m, e);
      TicksOnce(s.pending[i].acks[m], ClientTicks(pre), t.pending[j].acks[m]);
    }
  }

  lemma NotYet(a: Ack)
    requires ToRun(a)
    ensures Waited(a, 0, a)
  {
  }

  // ----- the world does not change early

  ghost predicate AllAfter(acks: seq<Ack>, ticks: int) {
    forall i | 0 <= i < |acks| && Live(acks[i]) :: acks[i].batch.expiresIn > ticks
  }

  lemma {:induction false} NoneExpires(env: Env, c: Core, acks: seq<Ack>, ticks: nat)
    requires AllAfter(acks, ticks + 1)
    ensures TickAcks(env, c, acks).world == c.world && TickAcks(env, c, acks).index == c.index
    ensures AllAfter(AgedAcks(acks), ticks)
  {
    if acks != [] {
      NoneExpires(env, c, acks[..|acks| - 1], ticks);
      assert AgedAcks(acks)[..|acks| - 1] == AgedAcks(acks[..|acks| - 1]);
    }
  }

  /** Client ticks write nothing before the time of the first batch is up. */
  lemma {:induction false} TicksWriteNothing(env: Env, cfg: Config, s: State, ticks: nat, done: nat)
    requires done <= ticks && AllAfter(Flat(s.pending), ticks)
    ensures var t := Run(env, cfg, s, seq(done, _ => ClientTickEvent));
      && t.core.world == s.core.world && t.core.index == s.core.index && t.unflushed == s.unflushed
      && AllAfter(Flat(t.pending), ticks - done)
  {
    hide AllAfter, TickAcks, Flat, AgedAcks, AgedBatches;
    if done > 0 {
      var events := seq(done, _ => ClientTickEvent);
      assert events[..done - 1] == seq(done - 1, _ => ClientTickEvent);
      TicksWriteNothing(env, cfg, s, ticks, done - 1);
      var t := Run(env, cfg, s, events[..done - 1]);
      NoneExpires(env, t.core, Flat(t.pending), ticks - done);
      FlatAges(t.pending);
    }
  }

  /** Nothing is queued, nothing waits for a flush. */
  predicate Idle(s: State) { s.pending == [] && s.current.acks == [] && s.unflushed == map[] }

  lemma ThreeEvents(env: Env, cfg: Config, s: State, e0: Event, e1: Event, e2: Event)
    ensures Run(env, cfg, s, [e0, e1]) == Step(env, cfg, Step(env, cfg, s, e0), e1)
    ensures Run(env, cfg, s, [e0, e1, e2]) == Step(env, cfg, Step(env, cfg, Step(env, cfg, s, e0), e1), e2)
  {
    hide Step;
    assert [e0][..0] == [] && [e0, e1][..1] == [e0] && [e0, e1, e2][..2] == [e0, e1];
    assert Run(env, cfg, s, []) == s && Run(env, cfg, s, [e0]) == Step(env, cfg, s, e0);
  }

  function SentUpdate(cfg: Config, p: Pos, rid: Rid): Ack {
    Blocks(BlockAck(map[p := rid], Expiry(cfg.maxBlockUpdateDelay), true))
  }

  /** An update that a flush sends below the cutoff is queued alone. */
  lemma Sends(env: Env, cfg: Config, s: State, p: Pos, rid: Rid, st: int, ct: int, draws: seq<int>)
    requires Idle(s) && (cfg.cutoff < 0 || st - ct < cfg.cutoff)
    ensures var t := Flush(env, cfg, AddBlock(s, p, rid), st, ct, map[], draws);
      && t.pending == [Batch(s.current.timestamp, [SentUpdate(cfg, p, rid)])]
      && t.core == s.core.(index := s.core.index[p := rid]) && t.unflushed == map[] && t.current.acks == []
  {
    var u := map[p := rid];
    var s1 := AddBlock(s, p, rid);
    var refused := Refused(env, cfg, s1.unflushed, map[]);
    assert p in s1.unflushed && s1.unflushed == u && refused == map[];
    assert u - refused.Keys == u;
    NothingWritten(env, s.core.world);
    assert Settle(s1.core.index, map[]) == s1.core.index;
    assert RunUpdates(env, s1.core, refused) == s1.core;
    var s2 := FlushWorld(env, cfg, s1, st, ct, map[]);
    assert s2.current == Batch(s.current.timestamp, [SentUpdate(cfg, p, rid)]);
    assert s2.pending + [s2.current] == [s2.current];
  }

  /** Without an echo an update is held back for the configured delay: until then the world is as it was. */
  lemma UpdateWaits(
    env: Env, cfg: Config, s: State, p: Pos, rid: Rid, st: int, ct: int, draws: seq<int>, ticks: nat)
    requires Idle(s) && (cfg.cutoff < 0 || st - ct < cfg.cutoff)
    requires ticks < if cfg.maxBlockUpdateDelay < 0 then 1_000_000_000 else cfg.maxBlockUpdateDelay
    ensures var events := [BlockEvent(p, rid), FlushEvent(st, ct, map[], draws)] + seq(ticks, _ => ClientTickEvent);
      Run(env, cfg, s, events).core.world == s.core.world
  {
    hide Run, Flush;
    var e0, e1 := BlockEvent(p, rid), FlushEvent(st, ct, map[], draws);
    Sends(env, cfg, s, p, rid, st, ct, draws);
    ThreeEvents(env, cfg, s, e0, e1, e1);
    var t := Run(env, cfg, s, [e0, e1]);
    OneBatch(t);
    RunAppends(env, cfg, s, [e0, e1], seq(ticks, _ => ClientTickEvent));
    TicksWriteNothing(env, cfg, t, ticks, ticks);
  }

  lemma OneBatch(s: State)
    requires |s.pending| == 1
    ensures Flat(s.pending) == s.pending[0].acks
  {
    assert s.pending[..0] == [] && Flat([]) == [];
  }

  /** The block of an update as the player sees it: unknown ones are air. */
  predicate Shows(env: Env, before: Updates, after: Updates, p: Pos, rid: Rid) {
    after == if env.minY <= p.y <= env.maxY then before[p := if rid in env.known then rid else env.air] else before
  }

  /** When the delay is over the update is in the world, echoed or not, and nothing else has changed there. */
  lemma UpdateArrives(env: Env, cfg: Config, s: State, p: Pos, rid: Rid, draws: seq<int>, ticks: nat)
    requires Idle(s) && cfg.cutoff < 0 && cfg.maxChain != 0
    requires ticks >= 1 && ticks >= if cfg.maxBlockUpdateDelay < 0 then 1_000_000_000 else cfg.maxBlockUpdateDelay
    ensures Shows(env, s.core.world, Run(env, cfg, s, [BlockEvent(p, rid)] + Waiting(ticks, draws)).core.world, p, rid)
  {
    hide Run, Waiting;
    var e := BlockEvent(p, rid);
    RunAppends(env, cfg, s, [e], Waiting(ticks, draws));
    OneEvent(env, cfg, s, e);
    var t := Run(env, cfg, s, [e]);
    assert Flat([]) == [] && Queued(t) == [];
    WaitingIsEnough(env, cfg, t, ticks, draws);
    assert AllOutstanding(t) == map[p := rid];
  }

  lemma OneEvent(env: Env, cfg: Config, s: State, e: Event)
    ensures Run(env, cfg, s, [e]) == Step(env, cfg, s, e)
  {
    hide Step;
    assert [e][..0] == [] && Run(env, cfg, s, []) == s;
  }

  // ----- one exchange: something is queued, sent and echoed

  /** The echo of the only batch in the queue, which holds one acknowledgement, runs it. */
  lemma EchoRunsOne(env: Env, cfg: Config, s: State, timestamp: int, a: Ack, ackID: int)
    requires s.pending == [Batch(timestamp, [a])] && Decoded(cfg, ackID) == timestamp
    ensures Echo(env, cfg, s, ackID) == s.(core := RunAck(env, s.core, a), pending := [], silentTicks := 0)
  {
    hide RunAck, Decoded;
    assert s.pending[..1] == s.pending && s.pending[1..] == [];
    OneBatch(s);
    assert [a][..0] == [] && RunAcks(env, s.core, []) == s.core;
  }

  /** The batch being filled is sent off and echoed. */
  lemma Exchange(env: Env, cfg: Config, s: State, a: Ack, draws: seq<int>, ackID: int)
    requires s.pending == [] && s.unflushed == map[] && s.current.acks == [a]
    requires Decoded(cfg, ackID) == s.current.timestamp
    ensures var sent := Flush(env, cfg, s, 0, 0, map[], draws);
      && sent.core == s.core && sent.pending == [s.current]
      && var t := Echo(env, cfg, sent, ackID);
         t.core == RunAck(env, s.core, a) && t.pending == [] && t.silentTicks == 0 && t.unflushed == map[]
  {
    EchoRunsOne(env, cfg, Flush(env, cfg, s, 0, 0, map[], draws), s.current.timestamp, a, ackID);
  }

  /** A teleport of the server waits for the echo, and then sets the target, its smoothing and the ground. */
  lemma TeleportArrives(env: Env, cfg: Config, s: State, pos: Vec3, onGround: bool, smoothed: bool,
      draws: seq<int>, ackID: int)
    requires Idle(s) && Decoded(cfg, ackID) == s.current.timestamp
    ensures var e0, e1, e2 := TeleportEvent(pos, onGround, smoothed), FlushEvent(0, 0, map[], draws), EchoEvent(ackID);
            var before, sent := s.core.mv, Run(env, cfg, s, [e0, e1]).core.mv;
            var after := Run(env, cfg, s, [e0, e1, e2]).core.mv;
      && sent == before.(pendingTeleports := before.pendingTeleports + 1, pendingTeleportPos := pos)
      && after.teleportPos == after.pendingTeleportPos == pos && after.onGround == onGround
      && after.smoothed == smoothed && after.ticksSinceTeleport == 0
      && after.pendingTeleports == before.pendingTeleports
      && after.completionTicks == (if smoothed then 2 else 0) && after.knockback == before.knockback
      && after.pendingCorrections == before.pendingCorrections
  {
    hide Run, Flush, Echo;
    var a := Teleport(pos, onGround, smoothed);
    var e0, e1, e2 := TeleportEvent(pos, onGround, smoothed), FlushEvent(0, 0, map[], draws), EchoEvent(ackID);
    ThreeEvents(env, cfg, s, e0, e1, e2);
    Exchange(env, cfg, Step(env, cfg, s, e0), a, draws, ackID);
  }

  /** Knockback waits for the echo, and then is the player's knockback. */
  lemma KnockbackArrives(env: Env, cfg: Config, s: State, velocity: Vec3, st: int, ct: int, draws: seq<int>, ackID: int)
    requires Idle(s) && Decoded(cfg, ackID) == s.current.timestamp && (cfg.cutoff < 0 || st - ct < cfg.cutoff)
    ensures var e0, e1, e2 := KnockbackEvent(velocity, st, ct), FlushEvent(0, 0, map[], draws), EchoEvent(ackID);
      && Run(env, cfg, s, [e0, e1]).core == s.core
      && Run(env, cfg, s, [e0, e1, e2]).core
         == s.core.(mv := s.core.mv.(knockback := velocity, ticksSinceKb := 0))
  {
    hide Run, Flush, Echo;
    var a := AckModel.Knockback(KnockbackAck(velocity, Expiry(cfg.maxKnockbackDelay), false));
    var e0, e1, e2 := KnockbackEvent(velocity, st, ct), FlushEvent(0, 0, map[], draws), EchoEvent(ackID);
    ThreeEvents(env, cfg, s, e0, e1, e2);
    Exchange(env, cfg, Step(env, cfg, s, e0), a, draws, ackID);
  }

  /** Beyond the cutoff knockback does not wait, and nothing is queued. */
  lemma KnockbackAtOnce(env: Env, cfg: Config, s: State, velocity: Vec3, st: int, ct: int)
    requires cfg.cutoff >= 0 && st - ct >= cfg.cutoff
    ensures Step(env, cfg, s, KnockbackEvent(velocity, st, ct))
         == s.(core := s.core.(mv := s.core.mv.(knockback := velocity, ticksSinceKb := 0)))
  {
  }

  /** A correction is pending until the echo, with the cooldown on and the flag up; then the flag is down again. */
  lemma CorrectionArrives(env: Env, cfg: Config, s: State, hasActorData: bool, draws: seq<int>, ackID: int)
    requires Idle(s) && Decoded(cfg, ackID) == s.current.timestamp && !s.core.correcting
    ensures var e0, e1, e2 := SyncEvent(hasActorData), FlushEvent(0, 0, map[], draws), EchoEvent(ackID);
            var sent, after := Run(env, cfg, s, [e0, e1]).core, Run(env, cfg, s, [e0, e1, e2]).core;
      && sent.mv == s.core.mv.(pendingCorrections := s.core.mv.pendingCorrections + 1, cooldown := true)
      && sent.correcting == hasActorData
      && after == s.core.(mv := s.core.mv.(cooldown := true))
  {
    hide Run, Flush, Echo;
    var e0, e1, e2 := SyncEvent(hasActorData), FlushEvent(0, 0, map[], draws), EchoEvent(ackID);
    ThreeEvents(env, cfg, s, e0, e1, e2);
    Exchange(env, cfg, Step(env, cfg, s, e0), Correction(true), draws, ackID);
  }

  /** An echoed update is in the world at once, and no longer indexed. */
  lemma EchoedUpdateArrives(env: Env, cfg: Config, s: State, p: Pos, rid: Rid, draws: seq<int>, ackID: int)
    requires Idle(s) && Decoded(cfg, ackID) == s.current.timestamp && cfg.cutoff != 0
    ensures var e0, e1, e2 := BlockEvent(p, rid), FlushEvent(0, 0, map[], draws), EchoEvent(ackID);
            var t := Run(env, cfg, s, [e0, e1, e2]);
      && Shows(env, s.core.world, t.core.world, p, rid) && t.core.index == s.core.index - {p} && t.pending == []
      && t.silentTicks == 0 && t.core.mv == s.core.mv
  {
    hide Run, Flush, Echo, Decoded;
    var e0, e1, e2 := BlockEvent(p, rid), FlushEvent(0, 0, map[], draws), EchoEvent(ackID);
    ThreeEvents(env, cfg, s, e0, e1, e2);
    Sends(env, cfg, s, p, rid, 0, 0, draws);
    var sent := Flush(env, cfg, AddBlock(s, p, rid), 0, 0, map[], draws);
    EchoRunsOne(env, cfg, sent, s.current.timestamp, SentUpdate(cfg, p, rid), ackID);
    assert Settle(sent.core.index, map[p := rid]) == s.core.index - {p};
  }

  // ----- what a flush writes at once

  /** Position by position: a flush writes an update at once beyond the cutoff, or if no ghost blocks are allowed and
      the update puts back what was there before the client placed a block; all others wait. */
  lemma FlushWritesAtOnce(env: Env, cfg: Config, s: State, st: int, ct: int, placed: Updates, draws: seq<int>, p: Pos)
    ensures var w := Flush(env, cfg, s, st, ct, placed, draws).core.world;
            var block := if p in s.unflushed && s.unflushed[p] in env.known then s.unflushed[p] else env.air;
      if p in s.unflushed && env.minY <= p.y <= env.maxY
         && ((cfg.cutoff >= 0 && st - ct >= cfg.cutoff) || (cfg.maxChain == 0 && p in placed && placed[p] == block))
      then p in w && w[p] == block
      else SameAt(w, s.core.world, p)
  {
    hide FirstUnused, Settle;
  }

  // ----- transfers, silence and chunks

  /** After a transfer nothing is pending and the player is where the new backend says; block updates are gone from
      the loaded chunks and from no other. */
  lemma TransferLeaves(cfg: Config, s: State, pos: Vec3, loaded: set<ChunkPos>, draws: seq<int>, p: Pos)
    ensures var t := Transfer(cfg, s, pos, loaded, draws);
      && t.pending == [] && t.current.acks == [] && !t.clientTicked && t.silentTicks == 0 && !t.core.correcting
      && t.core.mv.teleportPos == t.core.mv.pendingTeleportPos == pos && t.core.mv.knockback == Vec3(0.0, 0.0, 0.0)
      && t.core.mv.pendingTeleports == t.core.mv.pendingCorrections == 0 && !t.core.mv.cooldown
      && t.core.mv.ticksSinceTeleport == t.core.mv.ticksSinceKb == 1 && t.core.mv.completionTicks == 0
      && !t.core.mv.onGround && !t.core.mv.smoothed
      && t.unflushed == s.unflushed && t.core.index == s.core.index
      && (if ChunkOf(p) in loaded then p !in t.core.world else SameAt(t.core.world, s.core.world, p))
  {
  }

  /** A session starts with nothing to wait for: no pending teleport or correction, no cooldown, no knockback. */
  lemma FreshSession(cfg: Config, world: Updates, draws: seq<int>)
    ensures var s := Initial(cfg, world, draws); var mv := s.core.mv;
      && Idle(s) && s.core.world == world && s.core.index == map[] && !s.core.correcting
      && !s.clientTicked && s.silentTicks == 0
      && mv.teleportPos == mv.pendingTeleportPos == mv.knockback == Vec3(0.0, 0.0, 0.0)
      && !mv.onGround && !mv.smoothed && !mv.cooldown && mv.pendingTeleports == mv.pendingCorrections == 0
      && mv.ticksSinceTeleport == mv.completionTicks == mv.ticksSinceKb == 0
  {
  }

  /** The batch being filled gets the first of the drawn timestamps that no queued batch has. */
  lemma {:induction false} FirstFreeDraw(legacy: bool, batches: seq<Batch>, draws: seq<int>, k: nat)
    requires k < |draws| && Unused(batches, Stamp(legacy, draws[k]))
    requires forall i | 0 <= i < k :: !Unused(batches, Stamp(legacy, draws[i]))
    ensures FirstUnused(legacy, batches, draws) == Stamp(legacy, draws[k])
  {
    if k > 0 { FirstFreeDraw(legacy, batches, draws[1..], k - 1); }
  }

  /** One tick of the client and one of the server, again and again. */
  function Rounds(n: nat): seq<Event> {
    if n == 0 then [] else Rounds(n - 1) + [ClientTickEvent] + [ServerTickEvent(1, true)]
  }

  /** While something is pending and no echo comes, every server tick of a ticking client counts as silent. */
  lemma {:induction false} SilenceIsCounted(env: Env, cfg: Config, s: State, n: nat)
    requires s.pending != []
    ensures var t := Run(env, cfg, s, Rounds(n)); t.silentTicks == s.silentTicks + n && |t.pending| == |s.pending|
  {
    hide TickAcks, AgedAcks;
    if n > 0 {
      SilenceIsCounted(env, cfg, s, n - 1);
      RunAppends(env, cfg, s, Rounds(n - 1), [ClientTickEvent]);
      RunAppends(env, cfg, s, Rounds(n - 1) + [ClientTickEvent], [ServerTickEvent(1, true)]);
      var t := Run(env, cfg, s, Rounds(n - 1));
      OneEvent(env, cfg, t, ClientTickEvent);
      OneEvent(env, cfg, ClientTick(env, t), ServerTickEvent(1, true));
    }
  }

  /** Without anything pending, or without a connection, the count starts over; a client that does not tick leaves it
      alone.  Every tenth server tick asks for an answer. */
  lemma ServerTickCounts(s: State, serverTick: int, connected: bool)
    ensures var t := ServerTick(s, serverTick, connected);
      && !t.clientTicked && t.core == s.core && t.pending == s.pending && t.unflushed == s.unflushed
      && t.current.acks == (if serverTick % 10 == 0 then s.current.acks + [Other] else s.current.acks)
      && t.silentTicks == if !s.clientTicked then s.silentTicks
                          else if s.pending == [] || !connected then 0 else s.silentTicks + 1
  {
  }

  /** A chunk holds the positions of sixteen by sixteen columns, whatever their height. */
  lemma ChunkHoldsBlocks(p: Pos, c: ChunkPos)
    requires -0x8000_0000 <= p.x < 0x8000_0000 && -0x8000_0000 <= p.z < 0x8000_0000
    ensures ChunkOf(p) == c <==> 16 * c.x <= p.x < 16 * c.x + 16 && 16 * c.z <= p.z < 16 * c.z + 16
  {
    Int32Fits(p.x);
    Int32Fits(p.z);
  }

  lemma Int32Fits(n: int)
    requires -0x8000_0000 <= n < 0x8000_0000
    ensures Int32(n) == n
  {
  }

  /** Coordinates beyond 32 bits wrap around. */
  lemma Int32Wraps(n: int)
    ensures -0x8000_0000 <= Int32(n) < 0x8000_0000 && Int32(n + 0x1_0000_0000) == Int32(n)
  {
  }
}
