/** Client block placements that wait for the server, linked to the placements they were made against. */
module Placement {

  const MAX_CHAIN_SIZE := 100
  const LIFETIME := 200  // ten seconds of twenty ticks
  const NO_FACE := -1

  type Face = f: int | 0 <= f < 6

  /** Faces come in opposite pairs. */
  function Opposite(f: Face): (o: Face)
    ensures o != f && o / 2 == f / 2
  {
    if f % 2 == 0 then f + 1 else f - 1
  }

  class ChainedPlacement {
    var allowed: bool
    var confirmed: bool
    var remainingTicks: nat
    var prePlaced: int
    var parentFace: int
    var connections: seq<ChainedPlacement?>

    ghost predicate Valid() reads this`connections, this`parentFace {
      |connections| == 6 && -1 <= parentFace < 6
    }

    /** m hangs on this placement by a link that is not the one to the parent. */
    ghost predicate Linked(m: ChainedPlacement) reads this`connections, this`parentFace {
      exists f: Face :: f < |connections| && f != parentFace && connections[f] == m
    }

    predicate Frozen() reads this`allowed, this`confirmed { confirmed && allowed }

    constructor (prePlaced: int, face: Face, parent: ChainedPlacement?)
      requires parent != null ==> parent.Valid()
      modifies (if parent == null then {} else {parent})`connections
      ensures Valid() && allowed && !confirmed && remainingTicks == LIFETIME && this.prePlaced == prePlaced
      ensures parent == null ==> parentFace == NO_FACE && connections == [null, null, null, null, null, null]
      ensures parent != null ==>
        parentFace == Opposite(face) && parent.connections == old(parent.connections)[face := this]
        && connections == [null, null, null, null, null, null][Opposite(face) := parent]
    {
      this.prePlaced, parentFace, remainingTicks, allowed, confirmed := prePlaced, NO_FACE, LIFETIME, true, false;
      connections := [null, null, null, null, null, null];
      new;
      if parent != null {
        parentFace := Opposite(face);
        connections := connections[parentFace := parent];
        parent.connections := parent.connections[face := this];
      }
    }
  }

  ghost predicate Closed(nodes: set<ChainedPlacement>)
    reads nodes`connections, nodes`parentFace
  {
    forall n | n in nodes :: n.Valid() && forall f: Face :: n.connections[f] != null ==> n.connections[f] in nodes
  }

  /** A walk along non-parent links over placements that are not frozen. */
  ghost predicate IsPath(nodes: set<ChainedPlacement>, frozen: set<ChainedPlacement>, older p: seq<ChainedPlacement>)
    reads nodes`connections, nodes`parentFace
  {
    && |p| > 0 && (forall i | 0 <= i < |p| :: p[i] in nodes && p[i] !in frozen)
    && (forall i | 0 <= i < |p| - 1 :: p[i].Linked(p[i + 1]))
  }

  /** n can be reached from start, in fewer than `hops` hops. */
  ghost predicate ReachableWithin(
    nodes: set<ChainedPlacement>, frozen: set<ChainedPlacement>, start: ChainedPlacement, n: ChainedPlacement,
    hops: nat)
    reads nodes`connections, nodes`parentFace
  {
    exists p :: IsPath(nodes, frozen, p) && p[0] == start && p[|p| - 1] == n && |p| <= hops
  }

  ghost predicate Reachable(
    nodes: set<ChainedPlacement>, frozen: set<ChainedPlacement>, start: ChainedPlacement, n: ChainedPlacement)
    reads nodes`connections, nodes`parentFace
  {
    exists p :: IsPath(nodes, frozen, p) && p[0] == start && p[|p| - 1] == n
  }

  /** Everything that can be reached from start. */
  ghost function Region(nodes: set<ChainedPlacement>, frozen: set<ChainedPlacement>, start: ChainedPlacement)
    : set<ChainedPlacement>
    reads nodes`connections, nodes`parentFace
  {
    set n | n in nodes && Reachable(nodes, frozen, start, n)
  }

  datatype NodeStep = NodeStep(node: ChainedPlacement, step: nat)

  predicate Distinct<T(==)>(s: seq<T>) { forall i, j | 0 <= i < j < |s| :: s[i] != s[j] }

  lemma {:induction false} DistinctFits<T>(s: seq<T>, within: set<T>)
    requires Distinct(s) && forall x | x in s :: x in within
    ensures |s| <= |within|
  {
    if s != [] {
      var x := s[|s| - 1];
      forall y | y in s[..|s| - 1] ensures y in within - {x} {
      }
      DistinctFits(s[..|s| - 1], within - {x});
    }
  }

  /** The ancestors of a stack entry: distinct, already changed, linked one to the next and to the entry. */
  ghost predicate IsTrail(
    nodes: set<ChainedPlacement>, changed: set<ChainedPlacement>, start: ChainedPlacement, e: NodeStep,
    trail: seq<ChainedPlacement>)
    requires changed <= nodes
    reads nodes`connections, nodes`parentFace
  {
    && e.node in nodes && |trail| == e.step && Distinct(trail) && (forall n | n in trail :: n in changed)
    && (if trail == [] then e.node == start
        else trail[0] == start && trail[|trail| - 1].Linked(e.node)
             && forall i | 0 <= i < |trail| - 1 :: trail[i].Linked(trail[i + 1]))
  }

  lemma TrailIsPath(
    nodes: set<ChainedPlacement>, frozen: set<ChainedPlacement>, changed: set<ChainedPlacement>,
    start: ChainedPlacement, e: NodeStep, trail: seq<ChainedPlacement>)
    requires changed <= nodes && changed !! frozen && IsTrail(nodes, changed, start, e, trail) && e.node !in frozen
    ensures IsPath(nodes, frozen, trail + [e.node])
  {
    var p := trail + [e.node];
    forall i | 0 <= i < |p| ensures p[i] in nodes && p[i] !in frozen {
      if i < |trail| { assert p[i] == trail[i]; }
    }
    forall i | 0 <= i < |p| - 1 ensures p[i].Linked(p[i + 1]) {
      assert p[i] == trail[i];
    }
  }

  lemma PathStaysInRegion(
    nodes: set<ChainedPlacement>, frozen: set<ChainedPlacement>, start: ChainedPlacement, p: seq<ChainedPlacement>)
    requires IsPath(nodes, frozen, p) && p[0] == start
    ensures forall n | n in p :: n in Region(nodes, frozen, start)
  {
    forall i | 0 <= i < |p|
      ensures p[i] in Region(nodes, frozen, start)
    {
      var q := p[..i + 1];
      assert IsPath(nodes, frozen, q) && q[0] == start && q[|q| - 1] == p[i];
    }
  }

  /** Changed placements cover the region once no link out of them leads to an unchanged one. */
  lemma {:induction false} ClosedCovers(
    nodes: set<ChainedPlacement>, frozen: set<ChainedPlacement>, changed: set<ChainedPlacement>,
    p: seq<ChainedPlacement>, k: nat)
    requires IsPath(nodes, frozen, p) && k < |p| && changed <= nodes && p[0] in changed
    requires forall n, m | n in changed && m in nodes && m !in frozen && n.Linked(m) :: m in changed
    ensures p[k] in changed
  {
    if k > 0 {
      ClosedCovers(nodes, frozen, changed, p, k - 1);
      assert p[k - 1].Linked(p[k]);
    }
  }

  /** Everything linked from a changed placement has been visited or waits on the stack. */
  ghost predicate Pushed(visited: set<ChainedPlacement>, stack: seq<NodeStep>, n: ChainedPlacement)
    reads n`connections, n`parentFace
  {
    forall f: Face | f < |n.connections| && f != n.parentFace && n.connections[f] != null ::
      n.connections[f] in visited || exists i :: 0 <= i < |stack| && stack[i].node == n.connections[f]
  }

  ghost function FrozenOf(nodes: set<ChainedPlacement>): set<ChainedPlacement>
    reads nodes`allowed, nodes`confirmed
  {
    set n | n in nodes && n.Frozen()
  }

  /** Pushes the linked placements of n, in the order of the faces. */
  method PushLinked(n: ChainedPlacement, step: nat, stack: seq<NodeStep>) returns (stack': seq<NodeStep>)
    requires n.Valid()
    ensures |stack| <= |stack'| && stack'[..|stack|] == stack
    ensures forall i | |stack| <= i < |stack'| :: stack'[i].step == step + 1 && n.Linked(stack'[i].node)
    ensures forall f: Face | f != n.parentFace && n.connections[f] != null ::
      exists i :: |stack| <= i < |stack'| && stack'[i].node == n.connections[f]
  {
    stack' := stack;
    for face := 0 to 6
      invariant |stack| <= |stack'| && stack'[..|stack|] == stack
      invariant forall i | |stack| <= i < |stack'| :: stack'[i].step == step + 1 && n.Linked(stack'[i].node)
      invariant forall f: Face | f < face && f != n.parentFace && n.connections[f] != null ::
        exists i :: |stack| <= i < |stack'| && stack'[i].node == n.connections[f]
    {
      if face == n.parentFace { continue; }
      var child := n.connections[face];
      if child != null {
        ghost var before := stack';
        stack' := stack' + [NodeStep(child, step + 1)];
        assert stack'[|before|].node == child;
        forall f: Face | f < face && f != n.parentFace && n.connections[f] != null
          ensures exists i :: |stack| <= i < |stack'| && stack'[i].node == n.connections[f]
        {
          var i :| |stack| <= i < |before| && before[i].node == n.connections[f];
          assert stack'[i] == before[i];
        }
      }
    }
  }

  /** The invariant of the search: what has been changed, what waits on the stack and how it was reached. */
  ghost predicate Searching(
    nodes: set<ChainedPlacement>, frozen: set<ChainedPlacement>, start: ChainedPlacement,
    visited: set<ChainedPlacement>, changed: set<ChainedPlacement>, stack: seq<NodeStep>,
    trails: seq<seq<ChainedPlacement>>)
    reads nodes`connections, nodes`parentFace
  {
    && changed <= visited <= nodes && changed !! frozen && |trails| == |stack|
    && (forall i | 0 <= i < |stack| :: IsTrail(nodes, changed, start, stack[i], trails[i]))
    && (forall n | n in changed :: n in Region(nodes, frozen, start)
         && ReachableWithin(nodes, frozen, start, n, MAX_CHAIN_SIZE))
    && (forall n | n in changed :: Pushed(visited, stack, n))
    && (start in visited || exists i :: 0 <= i < |stack| && stack[i].node == start)
    && (|Region(nodes, frozen, start)| <= MAX_CHAIN_SIZE ==> forall n | n in visited :: n in frozen || n in changed)
  }

  /** A node that is not frozen and comes off the stack for the first time is in the region; it is within reach
      unless the region is larger than the limit. */
  lemma PoppedIsReachable(
    nodes: set<ChainedPlacement>, frozen: set<ChainedPlacement>, start: ChainedPlacement,
    changed: set<ChainedPlacement>, e: NodeStep, trail: seq<ChainedPlacement>)
    requires changed <= nodes && changed !! frozen && IsTrail(nodes, changed, start, e, trail)
    requires e.node !in frozen && e.node !in changed
    ensures e.node in Region(nodes, frozen, start) && e.step + 1 <= |Region(nodes, frozen, start)|
    ensures e.step < MAX_CHAIN_SIZE ==> ReachableWithin(nodes, frozen, start, e.node, MAX_CHAIN_SIZE)
  {
    var p := trail + [e.node];
    TrailIsPath(nodes, frozen, changed, start, e, trail);
    assert p[0] == start && p[|p| - 1] == e.node;
    PathStaysInRegion(nodes, frozen, start, p);
    assert Distinct(p) by {
      forall i, j | 0 <= i < j < |p| ensures p[i] != p[j] {
        assert p[i] == trail[i] && trail[i] in trail;
        if j < |trail| { assert p[j] == trail[j]; }
      }
    }
    DistinctFits(p, Region(nodes, frozen, start));
  }

  lemma PushedStays(visited: set<ChainedPlacement>, stack: seq<NodeStep>, stack': seq<NodeStep>, c: ChainedPlacement)
    requires Pushed(visited, stack, c) && stack != []
    requires |stack'| >= |stack| - 1 && stack'[..|stack| - 1] == stack[..|stack| - 1]
    ensures Pushed(visited + {stack[|stack| - 1].node}, stack', c)
  {
    var k := |stack| - 1;
    forall f: Face | f < |c.connections| && f != c.parentFace && c.connections[f] != null
                     && c.connections[f] !in visited + {stack[k].node}
      ensures exists i :: 0 <= i < |stack'| && stack'[i].node == c.connections[f]
    {
      var i :| 0 <= i < |stack| && stack[i].node == c.connections[f];
      assert stack'[i] == stack'[..k][i] == stack[..k][i];
    }
  }

  /** Dropping the top of the stack once it has been visited. */
  lemma SkipKeepsSearching(
    nodes: set<ChainedPlacement>, frozen: set<ChainedPlacement>, start: ChainedPlacement,
    visited: set<ChainedPlacement>, changed: set<ChainedPlacement>, stack: seq<NodeStep>,
    trails: seq<seq<ChainedPlacement>>)
    requires Closed(nodes) && Searching(nodes, frozen, start, visited, changed, stack, trails) && stack != []
    requires var e := stack[|stack| - 1]; e.node in visited || e.node in frozen || e.step >= MAX_CHAIN_SIZE
    ensures Searching(nodes, frozen, start, visited + {stack[|stack| - 1].node}, changed,
                      stack[..|stack| - 1], trails[..|stack| - 1])
  {
    var n := |stack| - 1;
    var e := stack[n];
    var visited' := visited + {e.node};
    assert IsTrail(nodes, changed, start, e, trails[n]);
    forall c | c in changed
      ensures Pushed(visited', stack[..n], c)
    {
      PushedStays(visited, stack, stack[..n], c);
    }
    assert start in visited';
    if |Region(nodes, frozen, start)| <= MAX_CHAIN_SIZE && e.node !in visited && e.node !in frozen {
      PoppedIsReachable(nodes, frozen, start, changed, e, trails[n]);
    }
  }

  /** Changing the top of the stack and pushing what is linked from it. */
  lemma ChangeKeepsSearching(
    nodes: set<ChainedPlacement>, frozen: set<ChainedPlacement>, start: ChainedPlacement,
    visited: set<ChainedPlacement>, changed: set<ChainedPlacement>, stack: seq<NodeStep>,
    trails: seq<seq<ChainedPlacement>>, stack': seq<NodeStep>) returns (trails': seq<seq<ChainedPlacement>>)
    requires Closed(nodes) && Searching(nodes, frozen, start, visited, changed, stack, trails) && stack != []
    requires var e := stack[|stack| - 1]; e.node !in visited && e.node !in frozen && e.step < MAX_CHAIN_SIZE
    requires var e, k := stack[|stack| - 1], |stack| - 1;
      && |stack'| >= k && stack'[..k] == stack[..k]
      && (forall i | k <= i < |stack'| :: stack'[i].step == e.step + 1 && e.node.Linked(stack'[i].node))
      && forall f: Face | f != e.node.parentFace && e.node.connections[f] != null ::
           exists i :: k <= i < |stack'| && stack'[i].node == e.node.connections[f]
    ensures var n := stack[|stack| - 1].node;
      Searching(nodes, frozen, start, visited + {n}, changed + {n}, stack', trails')
  {
    var k := |stack| - 1;
    var e := stack[k];
    var visited', changed' := visited + {e.node}, changed + {e.node};
    var trail := trails[k];
    assert IsTrail(nodes, changed, start, e, trail);
    PoppedIsReachable(nodes, frozen, start, changed, e, trail);
    hide Region, ReachableWithin;
    trails' := trails[..k] + seq(|stack'| - k, i => trail + [e.node]);
    forall i | 0 <= i < |stack'|
      ensures IsTrail(nodes, changed', start, stack'[i], trails'[i])
    {
      if i < k {
        assert stack'[i] == stack'[..k][i] == stack[i];
        assert IsTrail(nodes, changed, start, stack[i], trails[i]);
      } else {
        TrailGrows(nodes, changed, start, e, trail, stack'[i]);
      }
    }
    forall c | c in changed'
      ensures Pushed(visited', stack', c)
    {
      if c != e.node { PushedStays(visited, stack, stack', c); }
    }
    assert start in visited';
  }

  lemma TrailGrows(
    nodes: set<ChainedPlacement>, changed: set<ChainedPlacement>, start: ChainedPlacement, e: NodeStep,
    trail: seq<ChainedPlacement>, child: NodeStep)
    requires Closed(nodes) && changed <= nodes && IsTrail(nodes, changed, start, e, trail) && e.node !in changed
    requires child.step == e.step + 1 && e.node.Linked(child.node)
    ensures IsTrail(nodes, changed + {e.node}, start, child, trail + [e.node])
  {
    var t := trail + [e.node];
    forall i, j | 0 <= i < j < |t| ensures t[i] != t[j] {
      assert t[i] == trail[i] && trail[i] in trail;
    }
    forall i | 0 <= i < |t| - 1 ensures t[i].Linked(t[i + 1]) {
      if i + 1 < |trail| { assert t[i] == trail[i] && t[i + 1] == trail[i + 1]; }
    }
  }

  /** The server has confirmed or refused a placement; the answer spreads to everything placed on it.  The
      search ends on every link graph.  It changes only placements within reach that were not confirmed and
      allowed before, and all of those if there are at most a hundred. */
  method SetPlacementAllowed(start: ChainedPlacement, allowed: bool, ghost nodes: set<ChainedPlacement>)
    returns (ghost changed: set<ChainedPlacement>)
    requires start in nodes && Closed(nodes)
    modifies nodes`allowed, nodes`confirmed
    ensures changed <= Region(nodes, old(FrozenOf(nodes)), start)
    ensures forall n | n in changed :: ReachableWithin(nodes, old(FrozenOf(nodes)), start, n, MAX_CHAIN_SIZE)
    ensures |Region(nodes, old(FrozenOf(nodes)), start)| <= MAX_CHAIN_SIZE ==>
        changed == Region(nodes, old(FrozenOf(nodes)), start)
    ensures forall n | n in nodes :: n.allowed == if n in changed then allowed else old(n.allowed)
    ensures forall n | n in nodes :: n.confirmed == (n in changed || old(n.confirmed))
    ensures forall n | n in nodes && old(n.confirmed) && old(n.allowed) :: n !in changed
    ensures !(old(start.confirmed) && old(start.allowed)) ==> start in changed
  {
    hide Searching, IsTrail, Region, ReachableWithin, Pushed, Closed;
    ghost var frozen := FrozenOf(nodes);
    changed := {};
    if start.confirmed && start.allowed {
      FrozenHasNoRegion(nodes, frozen, start);
      return;
    }
    var visited: set<ChainedPlacement> := {};
    var stack := [NodeStep(start, 0)];
    ghost var trails: seq<seq<ChainedPlacement>> := [[]];
    SearchStarts(nodes, frozen, start);
    while |stack| > 0
      invariant Searching(nodes, frozen, start, visited, changed, stack, trails)
      invariant changed <= visited <= nodes && |trails| == |stack|
      invariant start in changed || (visited == {} && stack == [NodeStep(start, 0)])
      invariant forall n | n in nodes :: n.allowed == if n in changed then allowed else old(n.allowed)
      invariant forall n | n in nodes :: n.confirmed == (n in changed || old(n.confirmed))
      decreases nodes - visited, |stack|
    {
      var e := stack[|stack| - 1];
      ghost var whole := stack;
      stack := stack[..|stack| - 1];
      SearchFacts(nodes, frozen, start, visited, changed, whole, trails);
      if e.node in visited {
        SkipKeepsSearching(nodes, frozen, start, visited, changed, whole, trails);
        assert visited + {e.node} == visited;
        trails := trails[..|stack|];
        continue;
      }
      if e.node.Frozen() || e.step >= MAX_CHAIN_SIZE {
        SkipKeepsSearching(nodes, frozen, start, visited, changed, whole, trails);
        visited, trails := visited + {e.node}, trails[..|stack|];
        continue;
      }
      stack := PushLinked(e.node, e.step, stack);
      trails := ChangeKeepsSearching(nodes, frozen, start, visited, changed, whole, trails, stack);
      e.node.allowed := allowed;
      e.node.confirmed := true;
      visited, changed := visited + {e.node}, changed + {e.node};
      SearchFacts(nodes, frozen, start, visited, changed, stack, trails);
    }
    SearchFacts(nodes, frozen, start, visited, changed, stack, trails);
    if |Region(nodes, frozen, start)| <= MAX_CHAIN_SIZE {
      SearchCovers(nodes, frozen, start, visited, changed, trails);
    }
  }

  lemma SearchStarts(nodes: set<ChainedPlacement>, frozen: set<ChainedPlacement>, start: ChainedPlacement)
    requires start in nodes && Closed(nodes)
    ensures Searching(nodes, frozen, start, {}, {}, [NodeStep(start, 0)], [[]])
  {
    assert [NodeStep(start, 0)][0].node == start;
  }

  lemma SearchFacts(
    nodes: set<ChainedPlacement>, frozen: set<ChainedPlacement>, start: ChainedPlacement,
    visited: set<ChainedPlacement>, changed: set<ChainedPlacement>, stack: seq<NodeStep>,
    trails: seq<seq<ChainedPlacement>>)
    requires Closed(nodes) && Searching(nodes, frozen, start, visited, changed, stack, trails)
    ensures changed <= visited <= nodes && changed !! frozen && |trails| == |stack|
    ensures changed <= Region(nodes, frozen, start)
    ensures forall n | n in changed :: ReachableWithin(nodes, frozen, start, n, MAX_CHAIN_SIZE)
    ensures stack != [] ==> stack[|stack| - 1].node in nodes && stack[|stack| - 1].node.Valid()
  {
    if stack != [] {
      assert IsTrail(nodes, changed, start, stack[|stack| - 1], trails[|stack| - 1]);
    }
  }

  lemma FrozenHasNoRegion(nodes: set<ChainedPlacement>, frozen: set<ChainedPlacement>, start: ChainedPlacement)
    requires start in frozen
    ensures Region(nodes, frozen, start) == {}
  {
  }

  lemma SearchCovers(
    nodes: set<ChainedPlacement>, frozen: set<ChainedPlacement>, start: ChainedPlacement,
    visited: set<ChainedPlacement>, changed: set<ChainedPlacement>, trails: seq<seq<ChainedPlacement>>)
    requires Searching(nodes, frozen, start, visited, changed, [], trails) && start !in frozen
    requires Closed(nodes) && |Region(nodes, frozen, start)| <= MAX_CHAIN_SIZE
    ensures changed == Region(nodes, frozen, start)
  {
    forall n, m | n in changed && m in nodes && m !in frozen && n.Linked(m)
      ensures m in changed
    {
      assert Pushed(visited, [], n);
    }
    forall n | n in Region(nodes, frozen, start)
      ensures n in changed
    {
      var p :| IsPath(nodes, frozen, p) && p[0] == start && p[|p| - 1] == n;
      ClosedCovers(nodes, frozen, changed, p, |p| - 1);
    }
  }

  // ----- the chain of ghost blocks below a placement

  /** The refused placements from n up to its root: n, its parent and so on, ending before the first placement
      that was allowed, and after at most `limit` of them. */
  ghost function Chain(n: ChainedPlacement?, limit: nat, nodes: set<ChainedPlacement>): seq<ChainedPlacement>
    requires Closed(nodes) && (n != null ==> n in nodes)
    reads nodes
    decreases limit
  {
    if n == null || limit == 0 || n.allowed then []
    else [n] + if n.parentFace == NO_FACE then [] else Chain(n.connections[n.parentFace], limit - 1, nodes)
  }

  ghost predicate HasParent(c: ChainedPlacement, parent: ChainedPlacement) reads c {
    c.Valid() && c.parentFace != NO_FACE && c.connections[c.parentFace] == parent
  }

  /** The chain is made of refused placements, each the child of the next, and no longer than the limit. */
  lemma {:induction false} ChainIsBounded(n: ChainedPlacement?, limit: nat, nodes: set<ChainedPlacement>)
    requires Closed(nodes) && (n != null ==> n in nodes)
    ensures |Chain(n, limit, nodes)| <= limit && (Chain(n, limit, nodes) != [] ==> Chain(n, limit, nodes)[0] == n)
    ensures forall i | 0 <= i < |Chain(n, limit, nodes)| :: !Chain(n, limit, nodes)[i].allowed
    ensures forall i | 0 <= i < |Chain(n, limit, nodes)| - 1 ::
      HasParent(Chain(n, limit, nodes)[i], Chain(n, limit, nodes)[i + 1])
    decreases limit
  {
    if n != null && limit != 0 && !n.allowed && n.parentFace != NO_FACE {
      ChainIsBounded(n.connections[n.parentFace], limit - 1, nodes);
    }
  }

  /** The chain ends for a reason: the limit, a missing parent, or a parent that was allowed. */
  lemma {:induction false} ChainIsMaximal(n: ChainedPlacement, limit: nat, nodes: set<ChainedPlacement>)
    requires Closed(nodes) && n in nodes && !n.allowed && 0 < |Chain(n, limit, nodes)| < limit
    ensures var last := Chain(n, limit, nodes)[|Chain(n, limit, nodes)| - 1];
      last in nodes && (last.parentFace == NO_FACE || last.connections[last.parentFace] == null
                        || last.connections[last.parentFace].allowed)
    decreases limit
  {
    if n.parentFace != NO_FACE {
      var parent := n.connections[n.parentFace];
      if parent != null && !parent.allowed {
        ChainIsMaximal(parent, limit - 1, nodes);
      }
    }
  }

  /** The length of the chain and whether any of it is confirmed, counted along the way. */
  ghost function Walk(n: ChainedPlacement?, limit: nat, nodes: set<ChainedPlacement>): (int, bool)
    requires Closed(nodes) && (n != null ==> n in nodes)
    reads nodes
    decreases limit
  {
    if n == null || limit == 0 || n.allowed then (0, false)
    else if n.parentFace == NO_FACE then (1, n.confirmed)
    else var (size, any) := Walk(n.connections[n.parentFace], limit - 1, nodes); (size + 1, any || n.confirmed)
  }

  lemma {:induction false} WalkCountsChain(n: ChainedPlacement?, limit: nat, nodes: set<ChainedPlacement>)
    requires Closed(nodes) && (n != null ==> n in nodes)
    ensures Walk(n, limit, nodes).0 == |Chain(n, limit, nodes)|
    ensures Walk(n, limit, nodes).1 <==> exists c :: c in Chain(n, limit, nodes) && c.confirmed
    decreases limit
  {
    if n != null && limit != 0 && !n.allowed && n.parentFace != NO_FACE {
      WalkCountsChain(n.connections[n.parentFace], limit - 1, nodes);
    }
  }

  /** The size of the chain of ghost blocks that a placement ends, and whether the server has answered for any
      of them.  The walk stops at the size limit, so it ends on cyclic parents too. */
  method GhostBlockChain(n: ChainedPlacement, ghost nodes: set<ChainedPlacement>)
      returns (size: nat, anyConfirmed: bool)
    requires Closed(nodes) && n in nodes
    ensures size == |Chain(n, MAX_CHAIN_SIZE, nodes)|
    ensures anyConfirmed <==> n.allowed || exists c :: c in Chain(n, MAX_CHAIN_SIZE, nodes) && c.confirmed
  {
    WalkCountsChain(n, MAX_CHAIN_SIZE, nodes);
    hide Chain;
    if n.allowed { return 0, true; }
    if n.parentFace == NO_FACE { return 1, n.confirmed; }
    size, anyConfirmed := 1, n.confirmed;
    var parent := n.connections[n.parentFace];
    while parent != null
      invariant 1 <= size < MAX_CHAIN_SIZE && (parent != null ==> parent in nodes)
      invariant Walk(n, MAX_CHAIN_SIZE, nodes).0 == size + Walk(parent, MAX_CHAIN_SIZE - size, nodes).0
      invariant Walk(n, MAX_CHAIN_SIZE, nodes).1 == (anyConfirmed || Walk(parent, MAX_CHAIN_SIZE - size, nodes).1)
      decreases MAX_CHAIN_SIZE - size
    {
      if parent.allowed { return; }
      size := size + 1;
      anyConfirmed := anyConfirmed || parent.confirmed;
      if parent.parentFace == NO_FACE || size == MAX_CHAIN_SIZE { return; }
      parent := parent.connections[parent.parentFace];
    }
  }
}
