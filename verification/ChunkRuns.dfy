/** Every interleaving of any number of worlds over the shared chunk caches.  Taking a reference, installing it,
    releasing each single reference of a removed chunk and forgetting the chunk are separate steps, and between
    two steps of one world any other world may move. */
module ChunkRuns {
  import opened ChunkCache

  /** What comes after the removal of a chunk: installing its successor, or the rest of a purge or clean-up. */
  datatype Afterwards = Installs(key: Key) | Sweeps(rest: set<ChunkPos>)

  datatype Doing =
    | Idle
    | GotChunk(pos: ChunkPos, key: Key)
    | Subs(rest: seq<Entry>, made: set<ChunkPos>)
    | GotSub(pos: ChunkPos, key: Key, rest: seq<Entry>, made: set<ChunkPos>)
    | Sweeping(todo: set<ChunkPos>)
    | Removing(pos: ChunkPos, ref: seq<Key>, subs: seq<Key>, next: Afterwards)

  datatype PlayerWorld = PlayerWorld(chunks: map<ChunkPos, ChunkInfo>, subChunks: map<ChunkPos, seq<Key>>, doing: Doing)

  const EMPTY := PlayerWorld(map[], map[], Idle)

  datatype Action =
    | TakeChunk(pos: ChunkPos, key: Key, decodes: bool) | InstallChunk
    | StartSubs(entries: seq<Entry>) | NextEntry | ListSub | InstallMade(pos: ChunkPos) | FinishSubs
    | StartSweep(rest: set<ChunkPos>) | Sweep(pos: ChunkPos) | FinishSweep
    | ReleaseChunk | ReleaseSub | Forget

  /** What a step does to the caches. */
  datatype Effect = Nothing | TakesChunk(key: Key) | DropsChunk(key: Key) | TakesSub(key: Key) | DropsSub(key: Key)

  /** The removal of the chunk at a position begins: its references are still to be released. */
  function Remove(w: PlayerWorld, pos: ChunkPos, next: Afterwards): PlayerWorld
    requires pos in w.chunks
  {
    w.(doing := Removing(pos, InfoRefs(w.chunks[pos]), ListAt(w.subChunks, pos), next))
  }

  function NextEntryOf(w: PlayerWorld, subCounts: Counts): (PlayerWorld, Effect)
    requires w.doing.Subs? && w.doing.rest != []
  {
    var e, rest := w.doing.rest[0], w.doing.rest[1..];
    var made := if e.pos in w.chunks then w.doing.made else w.doing.made + {e.pos};
    if e.result.Success? && (e.result.hash in subCounts || e.result.decodes) then
      (w.(doing := GotSub(e.pos, e.result.hash, rest, made)), TakesSub(e.result.hash))
    else (w.(doing := Subs(rest, made)), Nothing)
  }

  function Forgotten(w: PlayerWorld): PlayerWorld
    requires w.doing.Removing?
  {
    var pos, next := w.doing.pos, w.doing.next;
    var without := PlayerWorld(w.chunks - {pos}, w.subChunks - {pos}, Idle);
    match next
    case Installs(key) => without.(chunks := without.chunks[pos := Cached(key)])
    case Sweeps(rest) => without.(doing := Sweeping(rest))
  }

  /** One step of a world; an action that does not fit changes nothing. */
  function Act(w: PlayerWorld, action: Action, chunkCounts: Counts, subCounts: Counts): (PlayerWorld, Effect) {
    var stay := (w, Nothing);
    match action
    case TakeChunk(pos, key, decodes) =>
      if w.doing == Idle && (key in chunkCounts || decodes) then (w.(doing := GotChunk(pos, key)), TakesChunk(key))
      else stay
    case InstallChunk =>
      if !w.doing.GotChunk? then stay
      else if w.doing.pos in w.chunks then (Remove(w, w.doing.pos, Installs(w.doing.key)), Nothing)
      else (w.(chunks := w.chunks[w.doing.pos := Cached(w.doing.key)], doing := Idle), Nothing)
    case StartSubs(entries) => if w.doing == Idle then (w.(doing := Subs(entries, {})), Nothing) else stay
    case NextEntry => if w.doing.Subs? && w.doing.rest != [] then NextEntryOf(w, subCounts) else stay
    case ListSub =>
      if !w.doing.GotSub? then stay
      else
        var listed := ListAt(w.subChunks, w.doing.pos) + [w.doing.key];
        (w.(subChunks := w.subChunks[w.doing.pos := listed], doing := Subs(w.doing.rest, w.doing.made)), Nothing)
    case InstallMade(pos) =>
      if w.doing.Subs? && w.doing.rest == [] && pos in w.doing.made && pos !in w.chunks then
        (w.(chunks := w.chunks[pos := Own], doing := Subs([], w.doing.made - {pos})), Nothing)
      else stay
    case FinishSubs => if w.doing == Subs([], {}) then (w.(doing := Idle), Nothing) else stay
    case StartSweep(rest) =>
      if w.doing == Idle && rest <= w.chunks.Keys then (w.(doing := Sweeping(rest)), Nothing) else stay
    case Sweep(pos) =>
      if w.doing.Sweeping? && pos in w.doing.todo && pos in w.chunks then
        (Remove(w, pos, Sweeps(w.doing.todo - {pos})), Nothing)
      else stay
    case FinishSweep => if w.doing == Sweeping({}) then (w.(doing := Idle), Nothing) else stay
    case ReleaseChunk =>
      if w.doing.Removing? && w.doing.ref != [] then
        (w.(doing := w.doing.(ref := w.doing.ref[1..])), DropsChunk(w.doing.ref[0]))
      else stay
    case ReleaseSub =>
      if w.doing.Removing? && w.doing.ref == [] && w.doing.subs != [] then
        (w.(doing := w.doing.(subs := w.doing.subs[1..])), DropsSub(w.doing.subs[0]))
      else stay
    case Forget =>
      if w.doing.Removing? && w.doing.ref == [] && w.doing.subs == [] then (Forgotten(w), Nothing) else stay
  }

  datatype State = State(chunkCounts: Counts, subCounts: Counts, worlds: seq<PlayerWorld>)

  datatype Step = Step(world: nat, action: Action)

  function Applied(s: State, effect: Effect): State {
    match effect
    case Nothing => s
    case TakesChunk(key) => s.(chunkCounts := Taken(s.chunkCounts, key))
    case DropsChunk(key) => s.(chunkCounts := Dropped(s.chunkCounts, key))
    case TakesSub(key) => s.(subCounts := Taken(s.subCounts, key))
    case DropsSub(key) => s.(subCounts := Dropped(s.subCounts, key))
  }

  function Next(s: State, step: Step): State {
    if step.world >= |s.worlds| then s
    else
      var (w, effect) := Act(s.worlds[step.world], step.action, s.chunkCounts, s.subCounts);
      Applied(s, effect).(worlds := s.worlds[step.world := w])
  }

  function After(s: State, steps: seq<Step>): State {
    if steps == [] then s else Next(After(s, steps[..|steps| - 1]), steps[|steps| - 1])
  }

  function Start(worlds: nat): State { State(map[], map[], seq(worlds, _ => EMPTY)) }

  // ----- what a world holds

  /** The references to cached chunks a world has or has on the way: what it will still release. */
  ghost function HeldChunks(w: PlayerWorld): multiset<Key> {
    match w.doing
    case GotChunk(_, key) => ChunkRefs(w.chunks) + multiset{key}
    case Removing(pos, ref, _, next) =>
      ChunkRefs(w.chunks - {pos}) + multiset(ref) + (if next.Installs? then multiset{next.key} else multiset{})
    case _ => ChunkRefs(w.chunks)
  }

  ghost function HeldSubs(w: PlayerWorld): multiset<Key> {
    match w.doing
    case GotSub(_, key, _, _) => Refs(w.subChunks) + multiset{key}
    case Removing(pos, _, subs, _) => Refs(w.subChunks - {pos}) + multiset(subs)
    case _ => Refs(w.subChunks)
  }

  function Made(doing: Doing): set<ChunkPos> { if doing.Subs? || doing.GotSub? then doing.made else {} }

  /** Sub-chunks are listed only where there is a chunk, or where one is about to be installed. */
  predicate WorldRight(w: PlayerWorld) {
    && w.subChunks.Keys <= w.chunks.Keys + Made(w.doing)
    && Made(w.doing) !! w.chunks.Keys
    && (w.doing.GotSub? ==> w.doing.pos in w.chunks || w.doing.pos in w.doing.made)
    && (w.doing.Sweeping? ==> w.doing.todo <= w.chunks.Keys)
    && (w.doing.Removing? ==> w.doing.pos in w.chunks)
    && (w.doing.Removing? && w.doing.next.Sweeps? ==> w.doing.next.rest <= w.chunks.Keys - {w.doing.pos})
  }

  ghost function Sum(worlds: seq<PlayerWorld>, held: PlayerWorld -> multiset<Key>): multiset<Key> {
    if worlds == [] then multiset{} else Sum(worlds[..|worlds| - 1], held) + held(worlds[|worlds| - 1])
  }

  lemma BothPlus(a: multiset<Key>, b: multiset<Key>, c: multiset<Key>, d: multiset<Key>, more: multiset<Key>)
    requires a + b == c + d
    ensures a + more + b == c + more + d
  {
    assert a + more + b == a + b + more;
  }

  lemma {:induction false} SumUpdated(worlds: seq<PlayerWorld>, held: PlayerWorld -> multiset<Key>, i: nat,
      w: PlayerWorld)
    requires i < |worlds|
    ensures Sum(worlds[i := w], held) + held(worlds[i]) == Sum(worlds, held) + held(w)
  {
    var n := |worlds| - 1;
    assert worlds[i := w][..n] == if i < n then worlds[..n][i := w] else worlds[..n];
    if i < n {
      SumUpdated(worlds[..n], held, i, w);
      assert worlds[..n][i] == worlds[i] && worlds[i := w][n] == worlds[n];
      BothPlus(Sum(worlds[..n][i := w], held), held(worlds[i]), Sum(worlds[..n], held), held(w), held(worlds[n]));
    }
  }

  lemma {:induction false} SumIncludes(worlds: seq<PlayerWorld>, held: PlayerWorld -> multiset<Key>, i: nat)
    requires i < |worlds|
    ensures held(worlds[i]) <= Sum(worlds, held)
  {
    if i < |worlds| - 1 { SumIncludes(worlds[..|worlds| - 1], held, i); }
  }

  lemma {:induction false} SumNothing(worlds: seq<PlayerWorld>, held: PlayerWorld -> multiset<Key>)
    requires forall i | 0 <= i < |worlds| :: held(worlds[i]) == multiset{}
    ensures Sum(worlds, held) == multiset{}
  {
    if worlds != [] { SumNothing(worlds[..|worlds| - 1], held); }
  }

  // ----- one step of one world

  ghost predicate Accounted(w: PlayerWorld, after: PlayerWorld, effect: Effect) {
    match effect
    case Nothing => HeldChunks(after) == HeldChunks(w) && HeldSubs(after) == HeldSubs(w)
    case TakesChunk(key) => HeldChunks(after) == HeldChunks(w) + multiset{key} && HeldSubs(after) == HeldSubs(w)
    case DropsChunk(key) => HeldChunks(after) + multiset{key} == HeldChunks(w) && HeldSubs(after) == HeldSubs(w)
    case TakesSub(key) => HeldChunks(after) == HeldChunks(w) && HeldSubs(after) == HeldSubs(w) + multiset{key}
    case DropsSub(key) => HeldChunks(after) == HeldChunks(w) && HeldSubs(after) + multiset{key} == HeldSubs(w)
  }

  lemma ActStaysRight(w: PlayerWorld, action: Action, chunkCounts: Counts, subCounts: Counts)
    requires WorldRight(w)
    ensures WorldRight(Act(w, action, chunkCounts, subCounts).0)
  {
  }

  lemma RemoveAccounted(w: PlayerWorld, pos: ChunkPos, next: Afterwards)
    requires pos in w.chunks
    requires if next.Installs? then w.doing == GotChunk(pos, next.key) else w.doing.Sweeping?
    ensures Accounted(w, Remove(w, pos, next), Nothing)
  {
    hide Refs, ChunkLists, ChunkRefs;
    ChunkRefsWithout(w.chunks, pos);
    RefsListed(w.subChunks, pos);
  }

  lemma ForgetAccounted(w: PlayerWorld)
    requires w.doing.Removing? && w.doing.ref == [] && w.doing.subs == []
    ensures Accounted(w, Forgotten(w), Nothing)
  {
    hide Refs, ChunkLists, ChunkRefs;
    var pos := w.doing.pos;
    assert HeldSubs(w) == Refs(w.subChunks - {pos});
    match w.doing.next
    case Installs(key) =>
      ChunkRefsWith(w.chunks - {pos}, pos, Cached(key));
      assert HeldChunks(w) == ChunkRefs(w.chunks - {pos}) + multiset{key};
    case Sweeps(_) => assert HeldChunks(w) == ChunkRefs(w.chunks - {pos});
  }

  lemma FirstOut(rest: multiset<Key>, keys: seq<Key>, more: multiset<Key>)
    requires keys != []
    ensures rest + multiset(keys[1..]) + more + multiset{keys[0]} == rest + multiset(keys) + more
    ensures rest + multiset(keys[1..]) + multiset{keys[0]} == rest + multiset(keys)
  {
    assert keys == [keys[0]] + keys[1..];
  }

  lemma ReleaseChunkAccounted(w: PlayerWorld)
    requires w.doing.Removing? && w.doing.ref != []
    ensures Accounted(w, w.(doing := w.doing.(ref := w.doing.ref[1..])), DropsChunk(w.doing.ref[0]))
  {
    hide Refs, ChunkLists, ChunkRefs;
    var next := if w.doing.next.Installs? then multiset{w.doing.next.key} else multiset{};
    FirstOut(ChunkRefs(w.chunks - {w.doing.pos}), w.doing.ref, next);
  }

  lemma ReleaseSubAccounted(w: PlayerWorld)
    requires w.doing.Removing? && w.doing.subs != []
    ensures Accounted(w, w.(doing := w.doing.(subs := w.doing.subs[1..])), DropsSub(w.doing.subs[0]))
  {
    hide Refs, ChunkLists, ChunkRefs;
    FirstOut(Refs(w.subChunks - {w.doing.pos}), w.doing.subs, multiset{});
  }

  /** Installing where nothing is: the reference in flight, if there is one, becomes the world's. */
  lemma InstallAccounted(w: PlayerWorld, pos: ChunkPos, info: ChunkInfo, doing: Doing)
    requires pos !in w.chunks && !doing.GotChunk? && !doing.GotSub? && !doing.Removing?
    requires if info.Cached? then w.doing == GotChunk(pos, info.hash) else w.doing.Subs?
    ensures Accounted(w, w.(chunks := w.chunks[pos := info], doing := doing), Nothing)
  {
    hide Refs, ChunkLists, ChunkRefs;
    ChunkRefsWith(w.chunks, pos, info);
  }

  lemma ListAccounted(w: PlayerWorld, doing: Doing)
    requires w.doing.GotSub? && doing.Subs?
    ensures var listed := ListAt(w.subChunks, w.doing.pos) + [w.doing.key];
            Accounted(w, w.(subChunks := w.subChunks[w.doing.pos := listed], doing := doing), Nothing)
  {
    hide Refs, ChunkLists, ChunkRefs;
    RefsAppended(w.subChunks, w.doing.pos, w.doing.key);
  }

  predicate Plain(doing: Doing) { doing.Idle? || doing.Subs? || doing.Sweeping? }

  lemma PlainAccounted(w: PlayerWorld, doing: Doing)
    ensures Accounted(w, w, Nothing)
    ensures Plain(w.doing) && Plain(doing) ==> Accounted(w, w.(doing := doing), Nothing)
    ensures Plain(w.doing) && doing.GotChunk? ==> Accounted(w, w.(doing := doing), TakesChunk(doing.key))
    ensures Plain(w.doing) && doing.GotSub? ==> Accounted(w, w.(doing := doing), TakesSub(doing.key))
  {
    hide Refs, ChunkLists, ChunkRefs;
  }

  lemma ActAccounted(w: PlayerWorld, action: Action, chunkCounts: Counts, subCounts: Counts)
    requires WorldRight(w)
    ensures var (after, effect) := Act(w, action, chunkCounts, subCounts);
        WorldRight(after) && Accounted(w, after, effect)
  {
    hide Accounted, WorldRight, Forgotten, Remove;
    ActStaysRight(w, action, chunkCounts, subCounts);
    var (after, effect) := Act(w, action, chunkCounts, subCounts);
    PlainAccounted(w, after.doing);
    if after != w {
      match action
      case InstallChunk =>
        if w.doing.pos in w.chunks {
          RemoveAccounted(w, w.doing.pos, Installs(w.doing.key));
        } else {
          InstallAccounted(w, w.doing.pos, Cached(w.doing.key), Idle);
        }
      case ListSub => ListAccounted(w, after.doing);
      case InstallMade(pos) => InstallAccounted(w, pos, Own, after.doing);
      case Sweep(pos) => RemoveAccounted(w, pos, Sweeps(w.doing.todo - {pos}));
      case ReleaseChunk => ReleaseChunkAccounted(w);
      case ReleaseSub => ReleaseSubAccounted(w);
      case Forget => ForgetAccounted(w);
      case _ =>
    }
  }

  // ----- every run

  ghost predicate Inv(s: State) {
    && Counted(s.chunkCounts, Sum(s.worlds, HeldChunks)) && Counted(s.subCounts, Sum(s.worlds, HeldSubs))
    && forall i | 0 <= i < |s.worlds| :: WorldRight(s.worlds[i])
  }

  lemma Moved(before: multiset<Key>, after: multiset<Key>, was: multiset<Key>, now: multiset<Key>, key: Key)
    requires after + was == before + now
    ensures now == was ==> after == before
    ensures now == was + multiset{key} ==> after == before + multiset{key}
    ensures was == now + multiset{key} ==> before == after + multiset{key}
  {
    forall k: Key
      ensures after[k] + was[k] == before[k] + now[k]
    {
      assert (after + was)[k] == (before + now)[k];
    }
  }

  lemma StepKeeps(s: State, step: Step)
    requires Inv(s)
    ensures Inv(Next(s, step))
  {
    hide Counted, Taken, Dropped, Sum, HeldChunks, HeldSubs, WorldRight, Act;
    if step.world < |s.worlds| {
      var w := s.worlds[step.world];
      var (after, effect) := Act(w, step.action, s.chunkCounts, s.subCounts);
      ActAccounted(w, step.action, s.chunkCounts, s.subCounts);
      var t := Next(s, step);
      SumUpdated(s.worlds, HeldChunks, step.world, after);
      SumUpdated(s.worlds, HeldSubs, step.world, after);
      var key := if effect.Nothing? then Key(0, false) else effect.key;
      Moved(Sum(s.worlds, HeldChunks), Sum(t.worlds, HeldChunks), HeldChunks(w), HeldChunks(after), key);
      Moved(Sum(s.worlds, HeldSubs), Sum(t.worlds, HeldSubs), HeldSubs(w), HeldSubs(after), key);
      match effect
      case Nothing =>
      case TakesChunk(_) => TakenCounts(s.chunkCounts, Sum(s.worlds, HeldChunks), key);
      case DropsChunk(_) => DroppedCounts(s.chunkCounts, Sum(t.worlds, HeldChunks), key);
      case TakesSub(_) => TakenCounts(s.subCounts, Sum(s.worlds, HeldSubs), key);
      case DropsSub(_) => DroppedCounts(s.subCounts, Sum(t.worlds, HeldSubs), key);
    }
  }

  /** In every run of any number of worlds, each cache knows exactly the referenced keys, each counted with the
      number of world entries and of references in flight. */
  lemma {:induction false} CountsAreReferences(n: nat, steps: seq<Step>)
    ensures Inv(After(Start(n), steps))
  {
    hide Next, Counted, Refs;
    if steps == [] {
      NothingHeld();
      SumNothing(Start(n).worlds, HeldChunks);
      SumNothing(Start(n).worlds, HeldSubs);
      CountedNone();
    } else {
      CountsAreReferences(n, steps[..|steps| - 1]);
      StepKeeps(After(Start(n), steps[..|steps| - 1]), steps[|steps| - 1]);
    }
  }

  lemma CountedNone()
    ensures Counted(map[], multiset{})
  {
  }

  lemma NothingHeld()
    ensures HeldChunks(EMPTY) == multiset{} && HeldSubs(EMPTY) == multiset{}
  {
    assert ChunkLists(map[]) == map[];
  }

  /** The chunk at a position is installed and its references are not being released. */
  predicate Keeps(w: PlayerWorld, pos: ChunkPos) { pos in w.chunks && !(w.doing.Removing? && w.doing.pos == pos) }

  lemma KeptIsHeld(w: PlayerWorld, pos: ChunkPos)
    requires Keeps(w, pos)
    ensures w.chunks[pos].Cached? ==> w.chunks[pos].hash in HeldChunks(w)
    ensures forall key | key in ListAt(w.subChunks, pos) :: key in HeldSubs(w)
  {
    hide Refs, ChunkRefs;
    var chunks := if w.doing.Removing? then w.chunks - {w.doing.pos} else w.chunks;
    var subs := if w.doing.Removing? then w.subChunks - {w.doing.pos} else w.subChunks;
    if w.chunks[pos].Cached? {
      RefsIncludes(ChunkLists(chunks), pos, chunks[pos].hash);
      assert chunks[pos].hash in ChunkRefs(chunks) by { ChunkRefsAre(chunks); }
    }
    forall key | key in ListAt(w.subChunks, pos)
      ensures key in HeldSubs(w)
    {
      assert ListAt(subs, pos) == ListAt(w.subChunks, pos);
      RefsIncludes(subs, pos, key);
    }
  }

  lemma ChunkRefsAre(chunks: map<ChunkPos, ChunkInfo>)
    ensures ChunkRefs(chunks) == Refs(ChunkLists(chunks))
  {
  }

  lemma CountedAtLeast(counts: Counts, all: multiset<Key>, held: multiset<Key>, key: Key)
    requires Counted(counts, all) && held <= all && key in held
    ensures key in counts && counts[key] >= held[key]
  {
  }

  /** Nothing referenced is ever evicted: in every run, also in the middle of an update or a removal, the caches
      have every key that a world holds or has on the way, counted at least as often as that world needs it, and so
      everything its installed chunks refer to. */
  lemma ReferencedStaysCached(n: nat, steps: seq<Step>, i: nat, key: Key)
    requires i < |After(Start(n), steps).worlds|
    ensures var s := After(Start(n), steps); var w := s.worlds[i];
      && (key in HeldChunks(w) ==> key in s.chunkCounts && s.chunkCounts[key] >= HeldChunks(w)[key])
      && (key in HeldSubs(w) ==> key in s.subCounts && s.subCounts[key] >= HeldSubs(w)[key])
      && forall pos | Keeps(w, pos) ::
           && (w.chunks[pos] == Cached(key) ==> key in HeldChunks(w))
           && (key in ListAt(w.subChunks, pos) ==> key in HeldSubs(w))
  {
    hide Counted, HeldChunks, HeldSubs, After, Sum, WorldRight;
    var s := After(Start(n), steps);
    var w := s.worlds[i];
    CountsAreReferences(n, steps);
    SumIncludes(s.worlds, HeldChunks, i);
    SumIncludes(s.worlds, HeldSubs, i);
    if key in HeldChunks(w) { CountedAtLeast(s.chunkCounts, Sum(s.worlds, HeldChunks), HeldChunks(w), key); }
    if key in HeldSubs(w) { CountedAtLeast(s.subCounts, Sum(s.worlds, HeldSubs), HeldSubs(w), key); }
    forall pos | Keeps(w, pos)
      ensures w.chunks[pos] == Cached(key) ==> key in HeldChunks(w)
      ensures key in ListAt(w.subChunks, pos) ==> key in HeldSubs(w)
    {
      KeptIsHeld(w, pos);
    }
  }

  /** Nothing unreferenced remains: once every world is idle and purged, both caches are empty. */
  lemma PurgedWorldsEmptyCaches(n: nat, steps: seq<Step>)
    requires forall w | w in After(Start(n), steps).worlds :: w.doing == Idle && w.chunks == map[]
    ensures After(Start(n), steps).chunkCounts == map[] && After(Start(n), steps).subCounts == map[]
  {
    hide Counted, Refs, After;
    var s := After(Start(n), steps);
    CountsAreReferences(n, steps);
    forall i | 0 <= i < |s.worlds|
      ensures HeldChunks(s.worlds[i]) == multiset{} && HeldSubs(s.worlds[i]) == multiset{}
    {
      assert s.worlds[i] in s.worlds && WorldRight(s.worlds[i]);
      assert s.worlds[i].subChunks == map[];
      assert s.worlds[i] == EMPTY;
      NothingHeld();
    }
    SumNothing(s.worlds, HeldChunks);
    SumNothing(s.worlds, HeldSubs);
    CountedNothing(s.chunkCounts);
    CountedNothing(s.subCounts);
  }
}
