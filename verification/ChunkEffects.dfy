/** What the steps of one world add up to while no other world moves: an update installs its chunk, a removal gives
    back every reference, and the entries of a sub-chunk packet end up in the lists. */
module ChunkEffects {
  import opened ChunkCache
  import opened ChunkRuns

  lemma {:induction false} AfterMore(s: State, a: seq<Step>, b: seq<Step>)
    ensures After(s, a + b) == After(After(s, a), b)
  {
    hide Next;
    if b == [] {
      assert a + b == a;
    } else {
      assert (a + b)[..|a + b| - 1] == a + b[..|b| - 1];
      AfterMore(s, a, b[..|b| - 1]);
    }
  }

  /** The steps of one world. */
  function Solo(i: nat, actions: seq<Action>): seq<Step> {
    seq(|actions|, k requires 0 <= k < |actions| => Step(i, actions[k]))
  }

  lemma SoloMore(s: State, i: nat, a: seq<Action>, b: seq<Action>)
    ensures After(s, Solo(i, a + b)) == After(After(s, Solo(i, a)), Solo(i, b))
  {
    assert Solo(i, a + b) == Solo(i, a) + Solo(i, b);
    AfterMore(s, Solo(i, a), Solo(i, b));
  }

  lemma SoloOne(s: State, i: nat, action: Action)
    ensures After(s, Solo(i, [action])) == Next(s, Step(i, action))
  {
    hide Next;
    assert Solo(i, [action]) == [Step(i, action)] && [Step(i, action)][..0] == [];
  }

  // ----- removal

  /** The counts after references are given back one by one. */
  function Released(counts: Counts, keys: seq<Key>): Counts {
    if keys == [] then counts else Dropped(Released(counts, keys[..|keys| - 1]), keys[|keys| - 1])
  }

  lemma {:induction false} ReleasedFirst(counts: Counts, keys: seq<Key>)
    requires keys != []
    ensures Released(counts, keys) == Released(Dropped(counts, keys[0]), keys[1..])
  {
    hide Dropped;
    if |keys| > 1 {
      ReleasedFirst(counts, keys[..|keys| - 1]);
      assert keys[1..][..|keys| - 2] == keys[..|keys| - 1][1..];
    } else {
      assert keys[..0] == [] && keys[1..] == [] && Released(counts, []) == counts;
    }
  }

  /** Giving back references takes exactly those out of what is counted. */
  lemma {:induction false} ReleasedCounts(counts: Counts, held: multiset<Key>, keys: seq<Key>)
    requires Counted(counts, held + multiset(keys))
    ensures Counted(Released(counts, keys), held)
    decreases |keys|
  {
    hide Counted, Dropped;
    if keys == [] {
      assert held + multiset(keys) == held;
    } else {
      var pre, key := keys[..|keys| - 1], keys[|keys| - 1];
      assert keys == pre + [key];
      assert held + multiset(keys) == held + multiset{key} + multiset(pre);
      ReleasedCounts(counts, held + multiset{key}, pre);
      DroppedCounts(Released(counts, pre), held, key);
    }
  }

  function Releases(refs: nat, subs: nat): seq<Action> { seq(refs, _ => ReleaseChunk) + seq(subs, _ => ReleaseSub) }

  /** One action of a removal. */
  lemma NextReleases(s: State, i: nat)
    requires i < |s.worlds| && s.worlds[i].doing.Removing?
    ensures var w, d := s.worlds[i], s.worlds[i].doing;
      && (d.ref != [] ==> Next(s, Step(i, ReleaseChunk)) == s.(chunkCounts := Dropped(s.chunkCounts, d.ref[0]),
            worlds := s.worlds[i := w.(doing := d.(ref := d.ref[1..]))]))
      && (d.ref == [] && d.subs != [] ==>
            Next(s, Step(i, ReleaseSub)) == s.(subCounts := Dropped(s.subCounts, d.subs[0]),
            worlds := s.worlds[i := w.(doing := d.(subs := d.subs[1..]))]))
      && (d.ref == [] && d.subs == [] ==>
            Next(s, Step(i, Forget)) == s.(worlds := s.worlds[i := Forgotten(w)]))
  {
    hide Dropped, Forgotten;
  }

  lemma {:induction false} AllReleased(s: State, i: nat)
    requires i < |s.worlds| && s.worlds[i].doing.Removing?
    ensures var w, d := s.worlds[i], s.worlds[i].doing;
            After(s, Solo(i, Releases(|d.ref|, |d.subs|))) ==
              State(Released(s.chunkCounts, d.ref), Released(s.subCounts, d.subs),
                  s.worlds[i := w.(doing := d.(ref := [], subs := []))])
    decreases |s.worlds[i].doing.ref| + |s.worlds[i].doing.subs|
  {
    hide Next, Dropped, Released;
    var w, d := s.worlds[i], s.worlds[i].doing;
    var actions := Releases(|d.ref|, |d.subs|);
    if actions == [] {
      assert s.worlds[i := w.(doing := d.(ref := [], subs := []))] == s.worlds;
      assert Solo(i, actions) == [];
      ReleasedNothing(s.chunkCounts);
      ReleasedNothing(s.subCounts);
    } else {
      assert actions == [actions[0]] + actions[1..];
      SoloMore(s, i, [actions[0]], actions[1..]);
      SoloOne(s, i, actions[0]);
      NextReleases(s, i);
      var t := Next(s, Step(i, actions[0]));
      AllReleased(t, i);
      if d.ref != [] {
        assert actions[1..] == Releases(|d.ref| - 1, |d.subs|);
        ReleasedFirst(s.chunkCounts, d.ref);
      } else {
        assert actions[1..] == Releases(0, |d.subs| - 1);
        ReleasedFirst(s.subCounts, d.subs);
        ReleasedNothing(s.chunkCounts);
      }
    }
  }

  lemma ReleasedNothing(counts: Counts)
    ensures Released(counts, []) == counts
  {
  }

  /** A removal that nobody interrupts gives back every reference of the chunk and of its sub-chunks, and then forgets
      both; a successor is installed, and a sweep goes on. */
  lemma RemovalCompletes(s: State, i: nat)
    requires i < |s.worlds| && s.worlds[i].doing.Removing?
    ensures var w, d := s.worlds[i], s.worlds[i].doing;
            After(s, Solo(i, Releases(|d.ref|, |d.subs|) + [Forget])) ==
              State(Released(s.chunkCounts, d.ref), Released(s.subCounts, d.subs), s.worlds[i := PlayerWorld(
              if d.next.Installs? then (w.chunks - {d.pos})[d.pos := Cached(d.next.key)] else w.chunks - {d.pos},
              w.subChunks - {d.pos}, if d.next.Installs? then Idle else Sweeping(d.next.rest))])
  {
    hide Next, Dropped, Released;
    var d := s.worlds[i].doing;
    SoloMore(s, i, Releases(|d.ref|, |d.subs|), [Forget]);
    AllReleased(s, i);
    var t := After(s, Solo(i, Releases(|d.ref|, |d.subs|)));
    SoloOne(t, i, Forget);
    NextReleases(t, i);
  }

  // ----- updates

  lemma NextTakes(s: State, i: nat, pos: ChunkPos, key: Key, decodes: bool)
    requires i < |s.worlds| && s.worlds[i].doing == Idle
    ensures Next(s, Step(i, TakeChunk(pos, key, decodes)))
         == if key in s.chunkCounts || decodes then
              s.(chunkCounts := Taken(s.chunkCounts, key),
                 worlds := s.worlds[i := s.worlds[i].(doing := GotChunk(pos, key))])
            else s
  {
    hide Taken;
  }

  lemma NextInstalls(s: State, i: nat, pos: ChunkPos, key: Key)
    requires i < |s.worlds| && s.worlds[i].doing == GotChunk(pos, key)
    ensures var w := s.worlds[i];
            Next(s, Step(i, InstallChunk)) == s.(worlds := s.worlds[i :=
              if pos !in w.chunks then w.(chunks := w.chunks[pos := Cached(key)], doing := Idle)
              else w.(doing := Removing(pos, RefsAt(w, pos), SubsAt(w, pos), Installs(key)))])
  {
  }

  lemma NextSweeps(s: State, i: nat, pos: ChunkPos)
    requires i < |s.worlds| && s.worlds[i].doing.Sweeping? && pos in s.worlds[i].doing.todo && pos in s.worlds[i].chunks
    ensures var w := s.worlds[i];
            Next(s, Step(i, Sweep(pos))) == s.(worlds := s.worlds[i :=
              w.(doing := Removing(pos, RefsAt(w, pos), SubsAt(w, pos), Sweeps(w.doing.todo - {pos})))])
  {
  }

  /** What a world refers to with a chunk of its own or of the cache, and with the sub-chunks there. */
  function RefsAt(w: PlayerWorld, pos: ChunkPos): seq<Key>
    requires pos in w.chunks
  {
    match w.chunks[pos] case Cached(hash) => [hash] case Own => []
  }

  function SubsAt(w: PlayerWorld, pos: ChunkPos): seq<Key> { if pos !in w.subChunks then [] else w.subChunks[pos] }

  /** A chunk that is cached, or decodes, is referenced and installed where there was none; otherwise nothing
      happens. */
  lemma ChunkIsLoaded(s: State, i: nat, pos: ChunkPos, key: Key, decodes: bool)
    requires i < |s.worlds| && s.worlds[i].doing == Idle && pos !in s.worlds[i].chunks
    ensures var w := s.worlds[i];
            After(s, Solo(i, [TakeChunk(pos, key, decodes), InstallChunk])) ==
              if key in s.chunkCounts || decodes then
              s.(chunkCounts := Taken(s.chunkCounts, key),
                 worlds := s.worlds[i := w.(chunks := w.chunks[pos := Cached(key)])])
            else s
  {
    hide Taken, Next;
    assert [TakeChunk(pos, key, decodes), InstallChunk] == [TakeChunk(pos, key, decodes)] + [InstallChunk];
    SoloMore(s, i, [TakeChunk(pos, key, decodes)], [InstallChunk]);
    SoloOne(s, i, TakeChunk(pos, key, decodes));
    NextTakes(s, i, pos, key, decodes);
    var t := Next(s, Step(i, TakeChunk(pos, key, decodes)));
    SoloOne(t, i, InstallChunk);
    if t == s {
      NextInstallsNothing(s, i);
    } else {
      NextInstalls(t, i, pos, key);
    }
  }

  lemma NextInstallsNothing(s: State, i: nat)
    requires i < |s.worlds| && s.worlds[i].doing == Idle
    ensures Next(s, Step(i, InstallChunk)) == s
  {
  }

  /** A chunk that takes the place of another is referenced first; then everything at its place is given back, so a
      chunk that replaces itself is never dropped. */
  lemma ChunkIsReplaced(s: State, i: nat, pos: ChunkPos, key: Key, decodes: bool)
    requires i < |s.worlds| && s.worlds[i].doing == Idle && pos in s.worlds[i].chunks
    requires key in s.chunkCounts || decodes
    ensures var w := s.worlds[i]; var refs, subs := RefsAt(w, pos), SubsAt(w, pos);
            After(s, Solo(i, [TakeChunk(pos, key, decodes), InstallChunk] + (Releases(|refs|, |subs|) + [Forget]))) ==
              State(Released(Taken(s.chunkCounts, key), refs), Released(s.subCounts, subs), s.worlds[i := PlayerWorld(
                w.chunks[pos := Cached(key)], w.subChunks - {pos}, Idle)])
  {
    hide Taken, Released, Next;
    var w := s.worlds[i];
    var removing := Releases(|RefsAt(w, pos)|, |SubsAt(w, pos)|) + [Forget];
    SoloMore(s, i, [TakeChunk(pos, key, decodes), InstallChunk], removing);
    assert [TakeChunk(pos, key, decodes), InstallChunk] == [TakeChunk(pos, key, decodes)] + [InstallChunk];
    SoloMore(s, i, [TakeChunk(pos, key, decodes)], [InstallChunk]);
    SoloOne(s, i, TakeChunk(pos, key, decodes));
    NextTakes(s, i, pos, key, decodes);
    var t := Next(s, Step(i, TakeChunk(pos, key, decodes)));
    SoloOne(t, i, InstallChunk);
    NextInstalls(t, i, pos, key);
    RemovalCompletes(Next(t, Step(i, InstallChunk)), i);
    assert (w.chunks - {pos})[pos := Cached(key)] == w.chunks[pos := Cached(key)];
  }

  /** One chunk of a sweep goes with all its references. */
  lemma ChunkIsSwept(s: State, i: nat, pos: ChunkPos)
    requires i < |s.worlds| && s.worlds[i].doing.Sweeping? && pos in s.worlds[i].doing.todo && pos in s.worlds[i].chunks
    ensures var w := s.worlds[i]; var refs, subs := RefsAt(w, pos), SubsAt(w, pos);
            After(s, Solo(i, [Sweep(pos)] + (Releases(|refs|, |subs|) + [Forget]))) ==
              State(Released(s.chunkCounts, refs), Released(s.subCounts, subs), s.worlds[i := PlayerWorld(
                w.chunks - {pos}, w.subChunks - {pos}, Sweeping(w.doing.todo - {pos}))])
  {
    hide Released, Next;
    var w := s.worlds[i];
    SoloMore(s, i, [Sweep(pos)], Releases(|RefsAt(w, pos)|, |SubsAt(w, pos)|) + [Forget]);
    SoloOne(s, i, Sweep(pos));
    NextSweeps(s, i, pos);
    RemovalCompletes(Next(s, Step(i, Sweep(pos))), i);
  }

  // ----- sub-chunks

  lemma {:induction false} ListedFirst(lists: map<ChunkPos, seq<Key>>, counts: Counts, entries: seq<Entry>)
    requires entries != []
    ensures var (lists1, counts1) := ListedAfter(lists, counts, entries[..1]);
            ListedAfter(lists, counts, entries) == ListedAfter(lists1, counts1, entries[1..])
  {
    hide Taken;
    if |entries| > 1 {
      ListedFirst(lists, counts, entries[..|entries| - 1]);
      assert entries[..|entries| - 1][..1] == entries[..1];
      assert entries[1..][..|entries| - 2] == entries[..|entries| - 1][1..];
    } else {
      assert entries[..1] == entries;
    }
  }

  /** For each entry, looking at it and listing what it brought. */
  function Lists(entries: nat): seq<Action> { if entries == 0 then [] else [NextEntry, ListSub] + Lists(entries - 1) }

  lemma OneListed(lists: map<ChunkPos, seq<Key>>, counts: Counts, rest: seq<Entry>)
    requires rest != []
    ensures ListedAfter(lists, counts, rest[..1])
         == match rest[0].result
            case Success(key, decodes) =>
              if key in counts || decodes then
                (lists[rest[0].pos := ListAt(lists, rest[0].pos) + [key]], Taken(counts, key))
              else (lists, counts)
            case _ => (lists, counts)
  {
    hide Taken;
    assert rest[..1][..0] == [] && ListedAfter(lists, counts, []) == (lists, counts);
  }

  lemma NextLooks(s: State, i: nat)
    requires i < |s.worlds| && s.worlds[i].doing.Subs? && s.worlds[i].doing.rest != []
    ensures var w, d, e := s.worlds[i], s.worlds[i].doing, s.worlds[i].doing.rest[0];
            var made := d.made + ({e.pos} - w.chunks.Keys);
            Next(s, Step(i, NextEntry)) ==
              if e.result.Success? && (e.result.hash in s.subCounts || e.result.decodes) then
                s.(subCounts := Taken(s.subCounts, e.result.hash),
                   worlds := s.worlds[i := w.(doing := GotSub(e.pos, e.result.hash, d.rest[1..], made))])
              else s.(worlds := s.worlds[i := w.(doing := Subs(d.rest[1..], made))])
  {
    hide Taken;
    var w, d, e := s.worlds[i], s.worlds[i].doing, s.worlds[i].doing.rest[0];
    assert d.made + ({e.pos} - w.chunks.Keys) == if e.pos in w.chunks then d.made else d.made + {e.pos};
  }

  lemma NextListsSub(s: State, i: nat)
    requires i < |s.worlds|
    ensures var w := s.worlds[i];
            Next(s, Step(i, ListSub)) ==
              if !w.doing.GotSub? then s
              else
                s.(worlds := s.worlds[i := w.(doing := Subs(w.doing.rest, w.doing.made),
                  subChunks := w.subChunks[w.doing.pos := ListAt(w.subChunks, w.doing.pos) + [w.doing.key]])])
  {
    assert s.worlds[i := s.worlds[i]] == s.worlds;
  }

  lemma NextLists(s: State, i: nat)
    requires i < |s.worlds| && s.worlds[i].doing.Subs? && s.worlds[i].doing.rest != []
    ensures var w, d := s.worlds[i], s.worlds[i].doing;
            var (lists, counts) := ListedAfter(w.subChunks, s.subCounts, d.rest[..1]);
            After(s, Solo(i, [NextEntry, ListSub])) == s.(subCounts := counts, worlds := s.worlds[i := w.(
              subChunks := lists, doing := Subs(d.rest[1..], d.made + ({d.rest[0].pos} - w.chunks.Keys)))])
  {
    hide Taken, Next, ListedAfter, ListAt;
    var w, d := s.worlds[i], s.worlds[i].doing;
    assert [NextEntry, ListSub] == [NextEntry] + [ListSub];
    SoloMore(s, i, [NextEntry], [ListSub]);
    SoloOne(s, i, NextEntry);
    NextLooks(s, i);
    var t := Next(s, Step(i, NextEntry));
    SoloOne(t, i, ListSub);
    NextListsSub(t, i);
    OneListed(w.subChunks, s.subCounts, d.rest);
  }

  /** The entries of a packet, taken one by one, are listed as the sequential specification says, and the world has
      noted every position that has no chunk yet. */
  lemma {:induction false} SubChunksAreListed(s: State, i: nat)
    requires i < |s.worlds| && s.worlds[i].doing.Subs?
    ensures var w, d := s.worlds[i], s.worlds[i].doing;
            var (lists, counts) := ListedAfter(w.subChunks, s.subCounts, d.rest);
            After(s, Solo(i, Lists(|d.rest|))) == s.(subCounts := counts, worlds := s.worlds[i := w.(
              subChunks := lists, doing := Subs([], d.made + (Positions(d.rest) - w.chunks.Keys)))])
    decreases |s.worlds[i].doing.rest|
  {
    hide Next, ListedAfter;
    var w, d := s.worlds[i], s.worlds[i].doing;
    if d.rest == [] {
      ListedNothing(w.subChunks, s.subCounts);
      assert Solo(i, Lists(0)) == [];
      assert s.worlds[i := w.(doing := Subs([], d.made + (Positions([]) - w.chunks.Keys)))] == s.worlds by {
        assert d.made + (Positions([]) - w.chunks.Keys) == d.made;
      }
    } else {
      SoloMore(s, i, [NextEntry, ListSub], Lists(|d.rest| - 1));
      NextLists(s, i);
      ListedFirst(w.subChunks, s.subCounts, d.rest);
      var t := After(s, Solo(i, [NextEntry, ListSub]));
      SubChunksAreListed(t, i);
      assert d.rest == [d.rest[0]] + d.rest[1..];
      assert Positions(d.rest) == {d.rest[0].pos} + Positions(d.rest[1..]);
      assert d.made + ({d.rest[0].pos} - w.chunks.Keys) + (Positions(d.rest[1..]) - w.chunks.Keys)
          == d.made + (Positions(d.rest) - w.chunks.Keys);
    }
  }

  lemma ListedNothing(lists: map<ChunkPos, seq<Key>>, counts: Counts)
    ensures ListedAfter(lists, counts, []) == (lists, counts)
  {
  }

  function InstallsAll(order: seq<ChunkPos>): seq<Action> {
    seq(|order|, k requires 0 <= k < |order| => InstallMade(order[k]))
  }

  function WithOwn(chunks: map<ChunkPos, ChunkInfo>, positions: set<ChunkPos>): map<ChunkPos, ChunkInfo> {
    chunks + map p | p in positions :: Own
  }

  lemma WithOneMore(chunks: map<ChunkPos, ChunkInfo>, positions: set<ChunkPos>, pos: ChunkPos)
    ensures WithOwn(chunks, {}) == chunks
    ensures WithOwn(chunks, positions + {pos}) == WithOwn(chunks, positions)[pos := Own]
    ensures WithOwn(chunks, positions).Keys == chunks.Keys + positions
  {
  }

  /** Each of the positions once, in some order. */
  predicate InOrder(order: seq<ChunkPos>, positions: set<ChunkPos>) {
    if order == [] then positions == {}
    else order[|order| - 1] in positions && InOrder(order[..|order| - 1], positions - {order[|order| - 1]})
  }

  /** In whatever order, each noted position gets a chunk of its own. */
  lemma {:induction false} MadeAreInstalled(s: State, i: nat, order: seq<ChunkPos>, done: set<ChunkPos>)
    requires i < |s.worlds| && s.worlds[i].doing.Subs? && s.worlds[i].doing.rest == []
    requires s.worlds[i].doing.made !! s.worlds[i].chunks.Keys
    requires InOrder(order, done) && done <= s.worlds[i].doing.made
    ensures var w := s.worlds[i];
            After(s, Solo(i, InstallsAll(order))) == s.(worlds := s.worlds[i := w.(
              chunks := WithOwn(w.chunks, done), doing := Subs([], w.doing.made - done))])
  {
    hide Next, WithOwn;
    var w := s.worlds[i];
    if order == [] {
      WithOneMore(w.chunks, {}, ChunkPos(0, 0));
      assert Solo(i, InstallsAll(order)) == [] && w.doing.made - {} == w.doing.made && s.worlds[i := w] == s.worlds;
    } else {
      var pre, pos := order[..|order| - 1], order[|order| - 1];
      MadeAreInstalled(s, i, pre, done - {pos});
      assert InstallsAll(order) == InstallsAll(pre) + [InstallMade(pos)];
      SoloMore(s, i, InstallsAll(pre), [InstallMade(pos)]);
      var t := After(s, Solo(i, InstallsAll(pre)));
      SoloOne(t, i, InstallMade(pos));
      WithOneMore(w.chunks, done - {pos}, pos);
      assert done - {pos} + {pos} == done && w.doing.made - done == w.doing.made - (done - {pos}) - {pos};
      NextInstallsMade(t, i, pos);
    }
  }

  lemma NextInstallsMade(s: State, i: nat, pos: ChunkPos)
    requires i < |s.worlds| && s.worlds[i].doing.Subs? && s.worlds[i].doing.rest == []
    requires pos in s.worlds[i].doing.made && pos !in s.worlds[i].chunks
    ensures var w := s.worlds[i];
            Next(s, Step(i, InstallMade(pos))) == s.(worlds := s.worlds[i := w.(
              chunks := w.chunks[pos := Own], doing := Subs([], w.doing.made - {pos}))])
  {
  }

  /** A packet of sub-chunks from start to end: what the sequential operation does. */
  lemma SubChunksArrive(s: State, i: nat, entries: seq<Entry>, order: seq<ChunkPos>)
    requires i < |s.worlds| && s.worlds[i].doing == Idle
    requires InOrder(order, Positions(entries) - s.worlds[i].chunks.Keys)
    ensures var w := s.worlds[i]; var (lists, counts) := ListedAfter(w.subChunks, s.subCounts, entries);
            After(s, Solo(i, [StartSubs(entries)] + Lists(|entries|) + InstallsAll(order) + [FinishSubs])) ==
              s.(subCounts := counts, worlds := s.worlds[i := PlayerWorld(
              WithOwn(w.chunks, Positions(entries) - w.chunks.Keys), lists, Idle)])
  {
    hide ListedAfter, Next;
    var w, start := s.worlds[i], [StartSubs(entries)];
    SoloMore(s, i, start + Lists(|entries|) + InstallsAll(order), [FinishSubs]);
    SoloMore(s, i, start + Lists(|entries|), InstallsAll(order));
    SoloMore(s, i, start, Lists(|entries|));
    SoloOne(s, i, StartSubs(entries));
    var s1 := Next(s, Step(i, StartSubs(entries)));
    NextStarts(s, i, entries);
    SubChunksAreListed(s1, i);
    var s2 := After(s1, Solo(i, Lists(|entries|)));
    assert {} + (Positions(entries) - w.chunks.Keys) == Positions(entries) - w.chunks.Keys;
    MadeAreInstalled(s2, i, order, Positions(entries) - w.chunks.Keys);
    var s3 := After(s2, Solo(i, InstallsAll(order)));
    assert s3.worlds[i].doing == Subs([], {});
    SoloOne(s3, i, FinishSubs);
    NextFinishes(s3, i);
  }

  lemma NextStarts(s: State, i: nat, entries: seq<Entry>)
    requires i < |s.worlds| && s.worlds[i].doing == Idle
    ensures Next(s, Step(i, StartSubs(entries)))
         == s.(worlds := s.worlds[i := s.worlds[i].(doing := Subs(entries, {}))])
  {
  }

  lemma NextFinishes(s: State, i: nat)
    requires i < |s.worlds| && s.worlds[i].doing == Subs([], {})
    ensures Next(s, Step(i, FinishSubs)) == s.(worlds := s.worlds[i := s.worlds[i].(doing := Idle)])
  {
  }

  /** A sweep of an idle world starts with chunks that it has, and ends when nothing is left to do. */
  lemma SweepStarts(s: State, i: nat, rest: set<ChunkPos>)
    requires i < |s.worlds| && s.worlds[i].doing == Idle
    ensures Next(s, Step(i, StartSweep(rest)))
         == if rest <= s.worlds[i].chunks.Keys then
              s.(worlds := s.worlds[i := s.worlds[i].(doing := Sweeping(rest))])
            else s
  {
  }

  lemma SweepEnds(s: State, i: nat)
    requires i < |s.worlds| && s.worlds[i].doing.Sweeping?
    ensures Next(s, Step(i, FinishSweep))
         == if s.worlds[i].doing.todo != {} then s
            else s.(worlds := s.worlds[i := s.worlds[i].(doing := Idle)])
  {
  }
}
