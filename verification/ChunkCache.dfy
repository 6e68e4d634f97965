/** The chunk caches that all players share, and one player's world on top of them.  A cached chunk or sub-chunk
    carries the number of references to it and is dropped with the last one. */
module ChunkCache {
  import opened Common

  /** The hash of a payload seeded with the block encoding, taken to be injective. */
  datatype Key = Key(payload: int, hashed: bool)

  datatype ChunkPos = ChunkPos(x: int, z: int)

  /** A chunk of a world: with the key of the cached chunk it shares, or its own. */
  datatype ChunkInfo = Cached(hash: Key) | Own

  type Counts = map<Key, int>

  function Taken(counts: Counts, key: Key): Counts {
    if key in counts then counts[key := counts[key] + 1] else counts[key := 1]
  }

  function Dropped(counts: Counts, key: Key): Counts {
    if key !in counts then counts
    else if counts[key] - 1 <= 0 then counts - {key}
    else counts[key := counts[key] - 1]
  }

  /** The cache knows exactly the keys that are referenced, each with the number of its references. */
  ghost predicate Counted(counts: Counts, held: multiset<Key>) {
    forall key :: if key in held then key in counts && counts[key] == held[key] else key !in counts
  }

  lemma TakenCounts(counts: Counts, held: multiset<Key>, key: Key)
    requires Counted(counts, held)
    ensures Counted(Taken(counts, key), held + multiset{key})
  {
    assert key in held ==> counts[key] == held[key];
  }

  lemma DroppedCounts(counts: Counts, held: multiset<Key>, key: Key)
    requires Counted(counts, held + multiset{key})
    ensures Counted(Dropped(counts, key), held)
  {
    assert key in held + multiset{key};
    forall other
      ensures if other in held then other in Dropped(counts, key) && Dropped(counts, key)[other] == held[other]
              else other !in Dropped(counts, key)
    {
      assert (held + multiset{key})[other] == held[other] + if other == key then 1 else 0;
    }
  }

  lemma CountedNothing(counts: Counts)
    requires Counted(counts, multiset{})
    ensures counts == map[]
  {
    assert forall key :: key !in counts;
  }

  // ----- the references of a world

  /** All keys listed at all positions. */
  ghost function Refs(lists: map<ChunkPos, seq<Key>>): multiset<Key> {
    if lists == map[] then multiset{}
    else
      var pos :| pos in lists;
      Refs(lists - {pos}) + multiset(lists[pos])
  }

  /** Which position is counted first does not matter. */
  lemma {:induction false} RefsWithout(lists: map<ChunkPos, seq<Key>>, pos: ChunkPos)
    requires pos in lists
    ensures Refs(lists) == Refs(lists - {pos}) + multiset(lists[pos])
    decreases |lists|
  {
    var first :| first in lists && Refs(lists) == Refs(lists - {first}) + multiset(lists[first]);
    if first != pos {
      RefsWithout(lists - {first}, pos);
      assert (lists - {first}) - {pos} == (lists - {pos}) - {first};
      RefsWithout(lists - {pos}, first);
    }
  }

  lemma RefsWith(lists: map<ChunkPos, seq<Key>>, pos: ChunkPos, keys: seq<Key>)
    ensures Refs(lists[pos := keys]) == Refs(lists - {pos}) + multiset(keys)
  {
    RefsWithout(lists[pos := keys], pos);
    assert lists[pos := keys] - {pos} == lists - {pos};
  }

  function InfoRefs(info: ChunkInfo): seq<Key> { if info.Cached? then [info.hash] else [] }

  function ChunkLists(chunks: map<ChunkPos, ChunkInfo>): map<ChunkPos, seq<Key>> {
    map pos | pos in chunks :: InfoRefs(chunks[pos])
  }

  ghost function ChunkRefs(chunks: map<ChunkPos, ChunkInfo>): multiset<Key> { Refs(ChunkLists(chunks)) }

  lemma ChunkRefsWithout(chunks: map<ChunkPos, ChunkInfo>, pos: ChunkPos)
    requires pos in chunks
    ensures ChunkRefs(chunks) == ChunkRefs(chunks - {pos}) + multiset(InfoRefs(chunks[pos]))
  {
    RefsWithout(ChunkLists(chunks), pos);
    assert ChunkLists(chunks) - {pos} == ChunkLists(chunks - {pos});
  }

  lemma ChunkRefsWith(chunks: map<ChunkPos, ChunkInfo>, pos: ChunkPos, info: ChunkInfo)
    requires pos !in chunks
    ensures ChunkRefs(chunks[pos := info]) == ChunkRefs(chunks) + multiset(InfoRefs(info))
  {
    ChunkRefsWithout(chunks[pos := info], pos);
    assert chunks[pos := info] - {pos} == chunks;
  }

  function ListAt(lists: map<ChunkPos, seq<Key>>, pos: ChunkPos): seq<Key> { if pos in lists then lists[pos] else [] }

  lemma RefsListed(lists: map<ChunkPos, seq<Key>>, pos: ChunkPos)
    ensures Refs(lists) == Refs(lists - {pos}) + multiset(ListAt(lists, pos))
  {
    if pos in lists {
      RefsWithout(lists, pos);
    } else {
      assert lists - {pos} == lists;
    }
  }

  /** Listing one more key at a position adds one reference. */
  lemma RefsAppended(lists: map<ChunkPos, seq<Key>>, pos: ChunkPos, key: Key)
    ensures Refs(lists[pos := ListAt(lists, pos) + [key]]) == Refs(lists) + multiset{key}
  {
    RefsWith(lists, pos, ListAt(lists, pos) + [key]);
    RefsListed(lists, pos);
  }

  lemma RefsIncludes(lists: map<ChunkPos, seq<Key>>, pos: ChunkPos, key: Key)
    requires pos in lists && key in lists[pos]
    ensures key in Refs(lists)
  {
    RefsWithout(lists, pos);
    assert key in multiset(lists[pos]);
  }

  // ----- the caches

  class Caches {
    var chunks: Counts
    var subChunks: Counts

    constructor ()
      ensures chunks == map[] && subChunks == map[]
    {
      chunks, subChunks := map[], map[];
    }

    method CacheChunk(key: Key, decodes: bool) returns (ok: bool)
      modifies this`chunks
      ensures ok == (key in old(chunks) || decodes)
      ensures chunks == if ok then Taken(old(chunks), key) else old(chunks)
    {
      if key in chunks {
        chunks := chunks[key := chunks[key] + 1];
        return true;
      }
      if !decodes { return false; }
      chunks := chunks[key := 1];
      ok := true;
    }

    method CacheSubChunk(key: Key, decodes: bool) returns (ok: bool)
      modifies this`subChunks
      ensures ok == (key in old(subChunks) || decodes)
      ensures subChunks == if ok then Taken(old(subChunks), key) else old(subChunks)
    {
      if key in subChunks {
        subChunks := subChunks[key := subChunks[key] + 1];
        return true;
      }
      if !decodes { return false; }
      subChunks := subChunks[key := 1];
      ok := true;
    }

    method UnsubC(key: Key)
      modifies this`chunks
      ensures chunks == Dropped(old(chunks), key)
    {
      if key in chunks {
        chunks := chunks[key := chunks[key] - 1];
        if chunks[key] <= 0 { chunks := chunks - {key}; }
      }
    }

    method UnsubSC(key: Key)
      modifies this`subChunks
      ensures subChunks == Dropped(old(subChunks), key)
    {
      if key in subChunks {
        subChunks := subChunks[key := subChunks[key] - 1];
        if subChunks[key] <= 0 { subChunks := subChunks - {key}; }
      }
    }

    /** Gives back one reference per key of the list. */
    method ReleaseSubChunks(keys: seq<Key>, ghost held: multiset<Key>)
      requires Counted(subChunks, held + multiset(keys))
      modifies this`subChunks
      ensures Counted(subChunks, held)
    {
      hide Counted, Dropped;
      for i := 0 to |keys|
        invariant Counted(subChunks, held + multiset(keys[i..]))
      {
        assert keys[i..] == [keys[i]] + keys[i + 1..];
        assert held + multiset(keys[i..]) == held + multiset(keys[i + 1..]) + multiset{keys[i]};
        DroppedCounts(subChunks, held + multiset(keys[i + 1..]), keys[i]);
        UnsubSC(keys[i]);
      }
      assert held + multiset(keys[|keys|..]) == held;
    }
  }

  lemma LessLeft<T>(m: map<ChunkPos, T>, all: set<ChunkPos>, left: set<ChunkPos>, pos: ChunkPos)
    requires left <= all && pos in left
    ensures m - (all - left) - {pos} == m - (all - (left - {pos}))
  {
  }

  // ----- the world of one player

  /** Whole chunks of distance: the root of the squared distance, rounded down, is at most the radius. */
  predicate InRange(radius: int, chunk: ChunkPos, pos: ChunkPos) {
    radius >= 0 &&
    (pos.x - chunk.x) * (pos.x - chunk.x) + (pos.z - chunk.z) * (pos.z - chunk.z) < (radius + 1) * (radius + 1)
  }

  /** The distance between two chunks is `n` whole chunks and less than one more. */
  predicate ChunksApart(a: ChunkPos, b: ChunkPos, n: nat) {
    n * n <= (a.x - b.x) * (a.x - b.x) + (a.z - b.z) * (a.z - b.z) < (n + 1) * (n + 1)
  }

  lemma SquareOrder(a: int, b: int)
    requires 0 <= a && 0 <= b
    ensures a * a <= b * b <==> a <= b
  {
    if a <= b {
      assert a * a <= a * b <= b * b;
    } else {
      assert b * b <= a * b < a * a;
    }
  }

  lemma InRangeIsDistance(radius: int, chunk: ChunkPos, pos: ChunkPos, n: nat)
    requires ChunksApart(chunk, pos, n)
    ensures InRange(radius, chunk, pos) <==> n <= radius
  {
    var d := (chunk.x - pos.x) * (chunk.x - pos.x) + (chunk.z - pos.z) * (chunk.z - pos.z);
    assert d == (pos.x - chunk.x) * (pos.x - chunk.x) + (pos.z - chunk.z) * (pos.z - chunk.z);
    if radius >= 0 {
      if n <= radius {
        SquareOrder(n + 1, radius + 1);
      } else {
        SquareOrder(radius + 1, n);
      }
    }
  }

  /** After a clean-up with some radius around a position: which chunks are left, and which are still exempted. */
  ghost predicate CleanedUp(
    before: set<ChunkPos>, exempted: set<ChunkPos>, after: set<ChunkPos>, exempted': set<ChunkPos>, radius: int,
    pos: ChunkPos)
  {
    && after <= before
    && (forall c, n: nat | c in before && ChunksApart(c, pos, n) :: c in after <==> c in exempted || n <= radius)
    && (forall c, n: nat | c in before && ChunksApart(c, pos, n) :: c in exempted' <==> c in exempted && n > radius)
    && (forall c | c !in before :: c in exempted' <==> c in exempted)
  }

  lemma CleaningUp(before: set<ChunkPos>, exempted: set<ChunkPos>, radius: int, pos: ChunkPos)
    ensures CleanedUp(before, exempted, before - Expelled(before, exempted, radius, pos),
                      exempted - Reached(before, radius, pos), radius, pos)
  {
    hide ChunksApart, InRange;
    forall c, n: nat | c in before && ChunksApart(c, pos, n)
      ensures InRange(radius, c, pos) <==> n <= radius
    {
      InRangeIsDistance(radius, c, pos, n);
    }
  }

  /** The chunk the player stands in stays, and one that is not exempted and more than the radius away on one axis
      goes. */
  lemma CleanedUpAround(
    before: set<ChunkPos>, exempted: set<ChunkPos>, after: set<ChunkPos>, exempted': set<ChunkPos>, radius: int,
    pos: ChunkPos, c: ChunkPos)
    requires CleanedUp(before, exempted, after, exempted', radius, pos) && c in before && radius >= 0
    ensures c == pos ==> c in after
    ensures c.x - pos.x > radius || pos.x - c.x > radius || c.z - pos.z > radius || pos.z - c.z > radius ==>
              (c in after <==> c in exempted)
  {
    hide CleanedUp, ChunksApart;
    var n := WholeDistance(c, pos);
    IsCleanedUp(before, exempted, after, exempted', radius, pos, c, n);
    ApartOnAxes(c, pos, n);
  }

  lemma ApartOnAxes(a: ChunkPos, b: ChunkPos, n: nat)
    requires ChunksApart(a, b, n)
    ensures a.x - b.x <= n && b.x - a.x <= n && a.z - b.z <= n && b.z - a.z <= n
  {
    WithinSquare(a.x - b.x, a.z - b.z, n);
    WithinSquare(a.z - b.z, a.x - b.x, n);
  }

  lemma WithinSquare(d: int, other: int, n: nat)
    requires d * d + other * other < (n + 1) * (n + 1)
    ensures d <= n && -d <= n
  {
    assert other * other >= 0;
    var size := if d < 0 then -d else d;
    assert size * size == d * d;
    if size > n { SquareOrder(n + 1, size); }
  }

  lemma IsCleanedUp(
    before: set<ChunkPos>, exempted: set<ChunkPos>, after: set<ChunkPos>, exempted': set<ChunkPos>, radius: int,
    pos: ChunkPos, c: ChunkPos, n: nat)
    requires CleanedUp(before, exempted, after, exempted', radius, pos) && c in before && ChunksApart(c, pos, n)
    ensures c in after <==> c in exempted || n <= radius
  {
  }

  /** Every two chunks are some whole distance apart. */
  lemma WholeDistance(a: ChunkPos, b: ChunkPos) returns (n: nat)
    ensures ChunksApart(a, b, n) && (a == b ==> n == 0)
  {
    var d := (a.x - b.x) * (a.x - b.x) + (a.z - b.z) * (a.z - b.z);
    n := 0;
    while (n + 1) * (n + 1) <= d
      invariant n * n <= d
      decreases d - n * n
    {
      assert (n + 1) * (n + 1) > n * n;
      n := n + 1;
    }
  }

  /** The result of asking the server for one sub-chunk. */
  datatype SubResult = Success(hash: Key, decodes: bool) | AllAir | Failed

  datatype Entry = Entry(pos: ChunkPos, result: SubResult)

  class World {
    const caches: Caches
    var chunks: map<ChunkPos, ChunkInfo>
    var subChunks: map<ChunkPos, seq<Key>>
    var exemptedChunks: set<ChunkPos>
    var blockUpdates: map<ChunkPos, map<int, int>>
    var lastCleanPos: ChunkPos
    var stwTicks: nat

    constructor (caches: Caches)
      ensures this.caches == caches && chunks == map[] && subChunks == map[] && blockUpdates == map[]
          && exemptedChunks == {} && lastCleanPos == ChunkPos(0, 0) && stwTicks == 0
    {
      this.caches, chunks, subChunks, exemptedChunks, blockUpdates := caches, map[], map[], {}, map[];
      lastCleanPos, stwTicks := ChunkPos(0, 0), 0;
    }

    /** The caches count this world's references and those of everybody else: other worlds, and references that
        were taken and are on their way into a world. */
    ghost predicate Balanced(others: multiset<Key>, otherSubs: multiset<Key>)
      reads this`chunks, this`subChunks, caches
    {
      && Counted(caches.chunks, ChunkRefs(chunks) + others)
      && Counted(caches.subChunks, Refs(subChunks) + otherSubs)
    }

    /** Nothing is listed at a position without a chunk. */
    predicate Valid() reads this`chunks, this`subChunks { subChunks.Keys <= chunks.Keys }

    method RemoveChunk(info: ChunkInfo, pos: ChunkPos, ghost others: multiset<Key>, ghost otherSubs: multiset<Key>)
      requires pos in chunks && chunks[pos] == info && Balanced(others, otherSubs)
      modifies this`chunks, this`subChunks, this`blockUpdates, caches
      ensures chunks == old(chunks) - {pos} && subChunks == old(subChunks) - {pos}
          && blockUpdates == old(blockUpdates) - {pos}
      ensures Balanced(others, otherSubs)
    {
      hide Refs, Counted, Taken, Dropped, ChunkLists, ChunkRefs;
      ChunkRefsWithout(chunks, pos);
      RefsListed(subChunks, pos);
      ghost var rest, left := ChunkRefs(chunks - {pos}) + others, Refs(subChunks - {pos}) + otherSubs;
      assert ChunkRefs(chunks) + others == rest + multiset(InfoRefs(info));
      assert Refs(subChunks) + otherSubs == left + multiset(ListAt(subChunks, pos));
      if info.Cached? {
        DroppedCounts(caches.chunks, rest, info.hash);
        caches.UnsubC(info.hash);
      } else {
        assert rest + multiset([]) == rest;
      }
      if pos in subChunks {
        caches.ReleaseSubChunks(subChunks[pos], left);
      } else {
        assert left + multiset([]) == left;
      }
      subChunks, chunks, blockUpdates := subChunks - {pos}, chunks - {pos}, blockUpdates - {pos};
    }

    /** Installs a chunk; a reference that comes with it was taken before and becomes the world's. */
    method AddChunk(pos: ChunkPos, info: ChunkInfo, ghost others: multiset<Key>, ghost otherSubs: multiset<Key>)
      requires Balanced(others + multiset(InfoRefs(info)), otherSubs)
      modifies this`chunks, this`subChunks, this`blockUpdates, this`exemptedChunks, caches
      ensures chunks == old(chunks)[pos := info] && exemptedChunks == old(exemptedChunks) + {pos}
      ensures subChunks == if pos in old(chunks) then old(subChunks) - {pos} else old(subChunks)
      ensures blockUpdates == if pos in old(chunks) then old(blockUpdates) - {pos} else old(blockUpdates)
      ensures pos !in old(chunks) ==> caches.chunks == old(caches.chunks) && caches.subChunks == old(caches.subChunks)
      ensures Balanced(others, otherSubs)
    {
      hide Refs, Counted, ChunkLists, ChunkRefs;
      if pos in chunks {
        RemoveChunk(chunks[pos], pos, others + multiset(InfoRefs(info)), otherSubs);
      }
      ChunkRefsWith(chunks, pos, info);
      assert ChunkRefs(chunks) + (others + multiset(InfoRefs(info))) == ChunkRefs(chunks[pos := info]) + others;
      chunks := chunks[pos := info];
      exemptedChunks := exemptedChunks + {pos};
    }

    /** Lists a sub-chunk whose reference was taken before. */
    method AddSubChunk(pos: ChunkPos, key: Key, ghost others: multiset<Key>, ghost otherSubs: multiset<Key>)
      requires Balanced(others, otherSubs + multiset{key})
      modifies this`subChunks
      ensures subChunks == old(subChunks)[pos := ListAt(old(subChunks), pos) + [key]]
      ensures Balanced(others, otherSubs)
    {
      hide Refs, Counted, ChunkLists, ChunkRefs;
      RefsAppended(subChunks, pos, key);
      assert Refs(subChunks) + (otherSubs + multiset{key}) ==
        Refs(subChunks[pos := ListAt(subChunks, pos) + [key]]) + otherSubs;
      if pos !in subChunks { subChunks := subChunks[pos := []]; }
      subChunks := subChunks[pos := subChunks[pos] + [key]];
      assert subChunks == old(subChunks)[pos := ListAt(old(subChunks), pos) + [key]];
    }

    /** Removes everything, in arbitrary order; only the references of others remain. */
    method PurgeChunks(ghost others: multiset<Key>, ghost otherSubs: multiset<Key>)
      requires Valid() && Balanced(others, otherSubs)
      modifies this`chunks, this`subChunks, this`blockUpdates, caches
      ensures chunks == map[] && subChunks == map[] && blockUpdates == old(blockUpdates) - old(chunks).Keys
      ensures Counted(caches.chunks, others) && Counted(caches.subChunks, otherSubs)
    {
      hide Balanced;
      ghost var all := chunks.Keys;
      assert blockUpdates - (all - all) == blockUpdates;
      while chunks != map[]
        invariant Valid() && Balanced(others, otherSubs) && chunks.Keys <= all
        invariant blockUpdates == old(blockUpdates) - (all - chunks.Keys)
        decreases chunks.Keys
      {
        var pos := AnyOf(chunks.Keys);
        LessLeft(old(blockUpdates), all, chunks.Keys, pos);
        RemoveChunk(chunks[pos], pos, others, otherSubs);
      }
      assert subChunks == map[];
      NothingLeft(others, otherSubs);
    }

    lemma NothingLeft(others: multiset<Key>, otherSubs: multiset<Key>)
      requires chunks == map[] && subChunks == map[] && Balanced(others, otherSubs)
      ensures Counted(caches.chunks, others) && Counted(caches.subChunks, otherSubs)
    {
      hide Counted;
      assert ChunkLists(chunks) == map[];
      assert ChunkRefs(chunks) + others == others && Refs(subChunks) + otherSubs == otherSubs;
    }

    /** Visits the chunks in arbitrary order.  A chunk in range loses its exemption; a chunk out of range is removed
        unless it was exempted. */
    method CleanChunks(radius: int, pos: ChunkPos, ghost others: multiset<Key>, ghost otherSubs: multiset<Key>)
      requires Valid() && Balanced(others, otherSubs)
      modifies this, caches
      ensures Valid() && Balanced(others, otherSubs)
      ensures stwTicks == (if old(stwTicks) > 0 then old(stwTicks) - 1 else 0)
      ensures old(stwTicks) > 0 || pos == old(lastCleanPos) ==>
                chunks == old(chunks) && subChunks == old(subChunks) && exemptedChunks == old(exemptedChunks)
                && blockUpdates == old(blockUpdates) && lastCleanPos == old(lastCleanPos)
      ensures old(stwTicks) == 0 && pos != old(lastCleanPos) ==>
                && lastCleanPos == pos
                && chunks == old(chunks) - Expelled(old(chunks).Keys, old(exemptedChunks), radius, pos)
                && subChunks == old(subChunks) - Expelled(old(chunks).Keys, old(exemptedChunks), radius, pos)
                && blockUpdates == old(blockUpdates) - Expelled(old(chunks).Keys, old(exemptedChunks), radius, pos)
                && exemptedChunks == old(exemptedChunks) - Reached(old(chunks).Keys, radius, pos)
                && CleanedUp(old(chunks).Keys, old(exemptedChunks), chunks.Keys, exemptedChunks, radius, pos)
    {
      hide Counted, Refs, ChunkLists, ChunkRefs, InRange;
      if stwTicks > 0 {
        stwTicks := stwTicks - 1;
        return;
      }
      if pos == lastCleanPos { return; }
      lastCleanPos := pos;
      var todo := chunks.Keys;
      while todo != {}
        invariant todo <= chunks.Keys && todo <= old(chunks).Keys && Valid() && Balanced(others, otherSubs)
        invariant stwTicks == 0 && lastCleanPos == pos
        invariant chunks == old(chunks) - Expelled(old(chunks).Keys - todo, old(exemptedChunks), radius, pos)
        invariant subChunks == old(subChunks) - Expelled(old(chunks).Keys - todo, old(exemptedChunks), radius, pos)
        invariant blockUpdates
            == old(blockUpdates) - Expelled(old(chunks).Keys - todo, old(exemptedChunks), radius, pos)
        invariant exemptedChunks == old(exemptedChunks) - Reached(old(chunks).Keys - todo, radius, pos)
        decreases todo
      {
        var chunkPos := AnyOf(todo);
        var exempted, inRange := chunkPos in exemptedChunks, InRange(radius, chunkPos, pos);
        if exempted && inRange {
          exemptedChunks := exemptedChunks - {chunkPos};
        } else if !exempted && !inRange {
          RemoveChunk(chunks[chunkPos], chunkPos, others, otherSubs);
        }
        todo := todo - {chunkPos};
      }
      assert old(chunks).Keys - {} == old(chunks).Keys;
      CleaningUp(old(chunks).Keys, old(exemptedChunks), radius, pos);
    }

    /** A level chunk reaches the client: the reference is taken first and installed afterwards. */
    method RunChunkUpdate(pos: ChunkPos, key: Key, decodes: bool, ghost others: multiset<Key>,
        ghost otherSubs: multiset<Key>)
      returns (ok: bool)
      requires Valid() && Balanced(others, otherSubs)
      modifies this`chunks, this`subChunks, this`blockUpdates, this`exemptedChunks, caches
      ensures Valid() && Balanced(others, otherSubs)
      ensures ok == (key in old(caches.chunks) || decodes)
      ensures chunks == if ok then old(chunks)[pos := Cached(key)] else old(chunks)
      ensures exemptedChunks == if ok then old(exemptedChunks) + {pos} else old(exemptedChunks)
      ensures subChunks == if ok && pos in old(chunks) then old(subChunks) - {pos} else old(subChunks)
      ensures blockUpdates == if ok && pos in old(chunks) then old(blockUpdates) - {pos} else old(blockUpdates)
      ensures !ok ==> caches.chunks == old(caches.chunks) && caches.subChunks == old(caches.subChunks)
    {
      hide Counted, Refs, ChunkLists, ChunkRefs;
      TakenCounts(caches.chunks, ChunkRefs(chunks) + others, key);
      ok := caches.CacheChunk(key, decodes);
      if !ok { return; }
      assert ChunkRefs(chunks) + others + multiset{key} == ChunkRefs(chunks) + (others + multiset([key]));
      AddChunk(pos, Cached(key), others, otherSubs);
    }

    /** Sub-chunks reach the client: each reference is taken and listed at once, the chunks that the world did not
        have are installed at the end, in arbitrary order. */
    method RunSubChunkUpdate(entries: seq<Entry>, ghost others: multiset<Key>, ghost otherSubs: multiset<Key>)
      requires Valid() && Balanced(others, otherSubs)
      modifies this`chunks, this`subChunks, this`blockUpdates, this`exemptedChunks, caches
      ensures Valid() && Balanced(others, otherSubs)
      ensures (subChunks, caches.subChunks) == ListedAfter(old(subChunks), old(caches.subChunks), entries)
      ensures chunks == old(chunks) + map p | p in Positions(entries) && p !in old(chunks) :: Own
      ensures exemptedChunks == old(exemptedChunks) + (Positions(entries) - old(chunks).Keys)
      ensures blockUpdates == old(blockUpdates) && caches.chunks == old(caches.chunks)
    {
      hide Counted, Refs, ChunkLists, ChunkRefs, Taken, Dropped;
      var newChunks := {};
      for i := 0 to |entries|
        invariant chunks == old(chunks) && caches.chunks == old(caches.chunks)
        invariant blockUpdates == old(blockUpdates) && exemptedChunks == old(exemptedChunks)
        invariant newChunks == Positions(entries[..i]) - chunks.Keys && subChunks.Keys <= chunks.Keys + newChunks
        invariant Balanced(others, otherSubs)
        invariant (subChunks, caches.subChunks) == ListedAfter(old(subChunks), old(caches.subChunks), entries[..i])
      {
        assert entries[..i + 1][..i] == entries[..i];
        assert Positions(entries[..i + 1]) == Positions(entries[..i]) + {entries[i].pos};
        var pos := entries[i].pos;
        if pos !in newChunks && pos !in chunks { newChunks := newChunks + {pos}; }
        if entries[i].result.Success? {
          var key := entries[i].result.hash;
          TakenCounts(caches.subChunks, Refs(subChunks) + otherSubs, key);
          var ok := caches.CacheSubChunk(key, entries[i].result.decodes);
          if !ok { continue; }
          assert Refs(subChunks) + otherSubs + multiset{key} == Refs(subChunks) + (otherSubs + multiset{key});
          AddSubChunk(pos, key, others, otherSubs);
        }
      }
      assert entries[..|entries|] == entries;
      InstallNew(newChunks, others, otherSubs);
    }

    method InstallNew(newChunks: set<ChunkPos>, ghost others: multiset<Key>, ghost otherSubs: multiset<Key>)
      requires newChunks !! chunks.Keys && Balanced(others, otherSubs)
      modifies this`chunks, this`subChunks, this`blockUpdates, this`exemptedChunks, caches
      ensures chunks == old(chunks) + (map p | p in newChunks :: Own) && subChunks == old(subChunks)
      ensures caches.subChunks == old(caches.subChunks) && caches.chunks == old(caches.chunks)
      ensures exemptedChunks == old(exemptedChunks) + newChunks && blockUpdates == old(blockUpdates)
      ensures Balanced(others, otherSubs)
    {
      hide Counted, Refs, ChunkLists, ChunkRefs;
      var todo := newChunks;
      while todo != {}
        invariant todo <= newChunks && todo !! chunks.Keys
        invariant chunks == old(chunks) + (map p | p in newChunks - todo :: Own) && subChunks == old(subChunks)
        invariant caches.subChunks == old(caches.subChunks) && caches.chunks == old(caches.chunks)
        invariant exemptedChunks == old(exemptedChunks) + (newChunks - todo) && blockUpdates == old(blockUpdates)
        invariant Balanced(others, otherSubs)
        decreases todo
      {
        var pos := AnyOf(todo);
        assert others + multiset(InfoRefs(Own)) == others;
        AddChunk(pos, Own, others, otherSubs);
        todo := todo - {pos};
      }
    }
  }

  /** The sub-chunk lists and the cache after some entries; an entry that is neither cached nor decodes is skipped. */
  function ListedAfter(lists: map<ChunkPos, seq<Key>>, counts: Counts, entries: seq<Entry>)
    : (map<ChunkPos, seq<Key>>, Counts)
  {
    if entries == [] then (lists, counts)
    else
      var (before, taken) := ListedAfter(lists, counts, entries[..|entries| - 1]);
      match entries[|entries| - 1]
      case Entry(pos, Success(key, decodes)) =>
        if key in taken || decodes then (before[pos := ListAt(before, pos) + [key]], Taken(taken, key))
        else (before, taken)
      case _ => (before, taken)
  }

  /** The key is cached before the entries or decoded by one of them. */
  ghost predicate Known(counts: Counts, entries: seq<Entry>, key: Key) {
    key in counts || exists e :: e in entries && e.result == Success(key, true)
  }

  /** The keys that the entries of one position bring, without those that are unknown when their turn comes. */
  ghost function KeysAt(counts: Counts, entries: seq<Entry>, pos: ChunkPos): seq<Key> {
    if entries == [] then []
    else
      var e := entries[|entries| - 1];
      KeysAt(counts, entries[..|entries| - 1], pos)
      + if e.pos == pos && e.result.Success? && Known(counts, entries, e.result.hash) then [e.result.hash] else []
  }

  /** Each position gets its own keys in the order of the entries, and exactly the known keys are cached. */
  lemma {:induction false} EntriesAreListed(
    lists: map<ChunkPos, seq<Key>>, counts: Counts, entries: seq<Entry>, pos: ChunkPos, key: Key)
    ensures var (lists', counts') := ListedAfter(lists, counts, entries);
      && ListAt(lists', pos) == ListAt(lists, pos) + KeysAt(counts, entries, pos)
      && (key in counts' <==> Known(counts, entries, key))
  {
    if entries != [] {
      var pre, e := entries[..|entries| - 1], entries[|entries| - 1];
      assert forall x :: x in entries <==> x in pre || x == e;
      EntriesAreListed(lists, counts, pre, pos, key);
      if e.result.Success? { EntriesAreListed(lists, counts, pre, pos, e.result.hash); }
    }
  }

  function Positions(entries: seq<Entry>): set<ChunkPos> { set e | e in entries :: e.pos }

  /** The chunks that a clean-up takes the exemption from. */
  ghost function Reached(visited: set<ChunkPos>, radius: int, pos: ChunkPos): set<ChunkPos> {
    set p | p in visited && InRange(radius, p, pos)
  }

  /** The chunks that a clean-up removes. */
  ghost function Expelled(visited: set<ChunkPos>, exempted: set<ChunkPos>, radius: int, pos: ChunkPos): set<ChunkPos> {
    set p | p in visited && p !in exempted && !InRange(radius, p, pos)
  }
}
