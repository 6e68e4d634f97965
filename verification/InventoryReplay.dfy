/** What refusing a request does while another one is outstanding: the refused one is undone, and the next one is
    executed once more on top of what it already did. */
module InventoryReplay {
  import opened InventoryModel
  import opened InventoryRequests

  // ----- the cells of an action

  function CellsOf(a: Action): set<Cell> {
    match a
    case Transfer(_, s, i, d, j, _, _, _) => {CellOf(s, i), CellOf(d, j)}
    case Swap(s, i, d, j, _, _, _) => {CellOf(s, i), CellOf(d, j)}
    case Destroy(_, s, i, _, _) => {CellOf(s, i)}
    case Create(d, j, _, _, _) => {CellOf(d, j)}
    case _ => {}
  }

  /** The cells an action works on, if its windows are there. */
  function Touched(win: Windows, a: Action): set<Cell> { if Acts(win, a) then CellsOf(a) else {} }

  function AllTouched(win: Windows, actions: seq<Action>): set<Cell> {
    if actions == [] then {}
    else AllTouched(win, actions[..|actions| - 1]) + Touched(win, actions[|actions| - 1])
  }

  ghost predicate Alike(a: Windows, b: Windows) { Complete(a) && Complete(b) && a.Keys == b.Keys }

  /** Both inventories hold the same in a cell. */
  ghost predicate Same(a: Windows, b: Windows, c: Cell) {
    Exists(a, c) && Exists(b, c) ==> Get(a, c) == Get(b, c)
  }

  ghost predicate AgreeOn(a: Windows, b: Windows, cells: set<Cell>) { forall c | c in cells :: Same(a, b, c) }

  lemma AgreeEverywhere(a: Windows, b: Windows)
    requires Alike(a, b) && forall c :: Same(a, b, c)
    ensures a == b
  {
    forall c | Exists(a, c)
      ensures Get(a, c) == Get(b, c)
    {
      assert Same(a, b, c);
    }
    SameCells(a, b);
  }

  lemma SetSame(win: Windows, c: Cell, stack: Stack, d: Cell)
    requires Complete(win) && Exists(win, c)
    ensures Alike(Set(win, c, stack), win)
    ensures Exists(win, d) ==> Get(Set(win, c, stack), d) == if c == d then stack else Get(win, d)
  {
    if Exists(win, d) { SetGet(win, c, stack, d); }
  }

  lemma ExecutedFrame(win: Windows, a: Action, c: Cell)
    requires Complete(win) && Fits(a)
    ensures Alike(Executed(win, a), win)
    ensures c !in Touched(win, a) ==> Same(Executed(win, a), win, c)
  {
    hide Set, Get;
    if Acts(win, a) {
      match a
      case Transfer(n, s, i, d, j, _, _, _) =>
        var src, dst := CellOf(s, i), CellOf(d, j);
        var from, to := Get(win, src), Get(win, dst);
        SetSame(win, src, from.Grow(Minus(n)), c);
        SetSame(Set(win, src, from.Grow(Minus(n))), dst, (if to.Empty() then from.Grow(-MAX_INT32) else to).Grow(n), c);
      case Swap(s, i, d, j, _, _, _) =>
        SetSame(win, CellOf(s, i), Get(win, CellOf(d, j)), c);
        SetSame(Set(win, CellOf(s, i), Get(win, CellOf(d, j))), CellOf(d, j), Get(win, CellOf(s, i)), c);
      case Destroy(n, s, i, _, _) => SetSame(win, CellOf(s, i), Get(win, CellOf(s, i)).Grow(Minus(n)), c);
      case Create(d, j, stack, _, _) => SetSame(win, CellOf(d, j), stack, c);
    }
  }

  /** What an action leaves in its cells depends on those cells only. */
  lemma ExecutedLocal(w: Windows, x: Windows, a: Action, c: Cell)
    requires Alike(w, x) && Fits(a) && AgreeOn(w, x, Touched(w, a)) && Same(w, x, c)
    ensures Same(Executed(w, a), Executed(x, a), c)
  {
    hide Set, Get;
    if Acts(w, a) {
      match a
      case Transfer(n, s, i, d, j, _, _, _) =>
        var src, dst := CellOf(s, i), CellOf(d, j);
        assert Same(w, x, src) && Same(w, x, dst);
        var from, to := Get(w, src), Get(w, dst);
        SetBothSame(w, x, src, dst, from.Grow(Minus(n)), (if to.Empty() then from.Grow(-MAX_INT32) else to).Grow(n), c);
      case Swap(s, i, d, j, _, _, _) =>
        var src, dst := CellOf(s, i), CellOf(d, j);
        assert Same(w, x, src) && Same(w, x, dst);
        SetBothSame(w, x, src, dst, Get(w, dst), Get(w, src), c);
      case Destroy(n, s, i, _, _) =>
        assert Same(w, x, CellOf(s, i));
        SetSame(w, CellOf(s, i), Get(w, CellOf(s, i)).Grow(Minus(n)), c);
        SetSame(x, CellOf(s, i), Get(w, CellOf(s, i)).Grow(Minus(n)), c);
      case Create(d, j, stack, _, _) =>
        SetSame(w, CellOf(d, j), stack, c);
        SetSame(x, CellOf(d, j), stack, c);
    }
  }

  lemma SetBothSame(w: Windows, x: Windows, src: Cell, dst: Cell, s: Stack, d: Stack, c: Cell)
    requires Alike(w, x) && Exists(w, src) && Exists(w, dst) && Same(w, x, c)
    ensures Exists(x, src) && Exists(x, dst)
    ensures Same(Set(Set(w, src, s), dst, d), Set(Set(x, src, s), dst, d), c)
  {
    SetSame(w, src, s, c);
    SetSame(x, src, s, c);
    SetSame(Set(w, src, s), dst, d, c);
    SetSame(Set(x, src, s), dst, d, c);
  }

  /** Two cells, the same or not, are given what they hold in another inventory. */
  lemma SetBothGets(x: Windows, src: Cell, dst: Cell, from: Windows, c: Cell)
    requires Alike(from, x) && Exists(x, src) && Exists(x, dst)
    ensures Exists(from, src) && Exists(from, dst)
    ensures var r := Set(Set(x, src, Get(from, src)), dst, Get(from, dst));
      Alike(r, x) && Same(r, if c == src || c == dst then from else x, c)
  {
    hide Set, Get;
    SetSame(x, src, Get(from, src), c);
    SetSame(Set(x, src, Get(from, src)), dst, Get(from, dst), c);
  }

  /** Undone from its snapshot in any other inventory, an action brings back its own cells and nothing else. */
  lemma RevertedWrites(before: Windows, x: Windows, a: Action, c: Cell)
    requires Alike(before, x) && Fits(a)
    ensures Alike(Reverted(x, Snapshot(before, a)), x)
    ensures Same(Reverted(x, Snapshot(before, a)), if c in Touched(before, a) then before else x, c)
  {
    hide Set, Get;
    if Acts(before, a) {
      match a
      case Transfer(_, s, i, d, j, _, _, _) => SetBothGets(x, CellOf(s, i), CellOf(d, j), before, c);
      case Swap(s, i, d, j, _, _, _) => SetBothGets(x, CellOf(s, i), CellOf(d, j), before, c);
      case Destroy(_, s, i, _, _) => SetSame(x, CellOf(s, i), Get(before, CellOf(s, i)), c);
      case Create(d, j, _, _, _) => SetSame(x, CellOf(d, j), Get(before, CellOf(d, j)), c);
    }
  }

  // ----- the cells of a request

  lemma {:induction false} AllFrame(win: Windows, actions: seq<Action>, c: Cell)
    requires Complete(win) && AllFit(actions)
    ensures Alike(ExecutedAll(win, actions).0, win)
    ensures c !in AllTouched(win, actions) ==> Same(ExecutedAll(win, actions).0, win, c)
  {
    hide Executed, Snapshot, Get;
    if actions != [] {
      var n := |actions| - 1;
      AllFrame(win, actions[..n], c);
      ExecutedFrame(ExecutedAll(win, actions[..n]).0, actions[n], c);
    }
  }

  lemma {:induction false} AllLocal(w: Windows, x: Windows, actions: seq<Action>, cells: set<Cell>)
    requires Alike(w, x) && AllFit(actions) && AllTouched(w, actions) <= cells && AgreeOn(w, x, cells)
    ensures AgreeOn(ExecutedAll(w, actions).0, ExecutedAll(x, actions).0, cells)
  {
    hide Executed, Snapshot, Same;
    if actions != [] {
      var n := |actions| - 1;
      AllLocal(w, x, actions[..n], cells);
      var w', x' := ExecutedAll(w, actions[..n]).0, ExecutedAll(x, actions[..n]).0;
      forall c | c in cells
        ensures Same(Executed(w', actions[n]), Executed(x', actions[n]), c)
      {
        ExecutedLocal(w', x', actions[n], c);
      }
    }
  }

  /** Undone from its snapshots in any other inventory, a request brings back its own cells and nothing else. */
  lemma {:induction false} AllRevertedWrites(w: Windows, actions: seq<Action>, x: Windows, c: Cell)
    requires Alike(w, x) && AllFit(actions)
    ensures Alike(RevertedAll(x, ExecutedAll(w, actions).1), x)
    ensures Same(RevertedAll(x, ExecutedAll(w, actions).1), if c in AllTouched(w, actions) then w else x, c)
  {
    hide Executed, Snapshot, Reverted, Get;
    if actions != [] {
      var n := |actions| - 1;
      var (before, taken) := ExecutedAll(w, actions[..n]);
      var last := Snapshot(before, actions[n]);
      assert (taken + [last])[..n] == taken && (taken + [last])[n] == last;
      assert ExecutedAll(w, actions).1 == taken + [last];
      RevertedWrites(before, x, actions[n], c);
      AllFrame(w, actions[..n], c);
      AllRevertedWrites(w, actions[..n], Reverted(x, last), c);
    }
  }

  // ----- snapshots do not matter to an execution

  function Bare(a: Action): Action {
    var none := Stack(0, 0);
    match a
    case Transfer(n, s, i, d, j, _, _, open) => Transfer(n, s, i, d, j, none, none, open)
    case Swap(s, i, d, j, _, _, open) => Swap(s, i, d, j, none, none, open)
    case Destroy(n, s, i, _, open) => Destroy(n, s, i, none, open)
    case Create(d, j, stack, _, open) => Create(d, j, stack, none, open)
    case _ => a
  }

  ghost predicate SameButSnapshots(a: seq<Action>, b: seq<Action>) {
    |a| == |b| && forall i | 0 <= i < |a| :: Bare(a[i]) == Bare(b[i])
  }

  lemma BareExecutes(win: Windows, a: Action, b: Action)
    requires Complete(win) && Fits(a) && Fits(b) && Bare(a) == Bare(b)
    ensures Executed(win, a) == Executed(win, b)
  {
  }

  lemma {:induction false} AllBareExecute(win: Windows, a: seq<Action>, b: seq<Action>)
    requires Complete(win) && AllFit(a) && AllFit(b) && SameButSnapshots(a, b)
    ensures ExecutedAll(win, a).0 == ExecutedAll(win, b).0
  {
    hide Executed, Bare;
    if a != [] {
      var n := |a| - 1;
      AllBareExecute(win, a[..n], b[..n]);
      BareExecutes(ExecutedAll(win, a[..n]).0, a[n], b[n]);
    }
  }

  lemma {:induction false} TakenIsSame(win: Windows, actions: seq<Action>)
    requires Complete(win) && AllFit(actions)
    ensures SameButSnapshots(ExecutedAll(win, actions).1, actions)
  {
    hide Executed;
    if actions != [] { TakenIsSame(win, actions[..|actions| - 1]); }
  }

  // ----- a refusal with a successor

  /** What is left when the first of two requests is undone. */
  function Undone(w: Windows, first: seq<Action>, second: seq<Action>): Windows
    requires Complete(w) && AllFit(first) && AllFit(second)
  {
    var (one, taken) := ExecutedAll(w, first);
    RevertedAll(ExecutedAll(one, second).0, taken)
  }

  lemma UndoneIsAlike(w: Windows, first: seq<Action>, second: seq<Action>)
    requires Complete(w) && AllFit(first) && AllFit(second)
    ensures Alike(Undone(w, first, second), w) && Alike(ExecutedAll(w, second).0, w)
  {
    hide Executed, Snapshot, Reverted, Get;
    var one, c := ExecutedAll(w, first).0, CellOf(HotBar, 0);
    AllFrame(w, first, c);
    AllFrame(one, second, c);
    AllFrame(w, second, c);
    AllRevertedWrites(w, first, ExecutedAll(one, second).0, c);
  }

  /** After a refusal the cells of the refused request are as before it, all others as the next request left them. */
  lemma RefusalUndoes(w: Windows, first: seq<Action>, second: seq<Action>, c: Cell)
    requires Complete(w) && AllFit(first) && AllFit(second)
    ensures var both := ExecutedAll(ExecutedAll(w, first).0, second).0;
            Same(Undone(w, first, second), if c in AllTouched(w, first) then w else both, c)
  {
    hide Executed, Snapshot, Reverted, Get, Same;
    var one := ExecutedAll(w, first).0;
    AllFrame(w, first, c);
    AllFrame(one, second, c);
    AllRevertedWrites(w, first, ExecutedAll(one, second).0, c);
  }

  /** Requests on different cells: what is left is what the second one alone would have done. */
  lemma RefusalOfDisjoint(w: Windows, first: seq<Action>, second: seq<Action>)
    requires Complete(w) && AllFit(first) && AllFit(second) && AllTouched(w, first) !! AllTouched(w, second)
    ensures Undone(w, first, second) == ExecutedAll(w, second).0
  {
    hide Executed, Snapshot, Reverted, Get;
    var (one, taken) := ExecutedAll(w, first);
    var both, alone := ExecutedAll(one, second).0, ExecutedAll(w, second).0;
    var undone := RevertedAll(both, taken);
    SameTouched(w, one, second);
    forall c
      ensures Same(undone, alone, c)
    {
      RefusalUndoes(w, first, second, c);
      AllFrame(w, first, c);
      AllFrame(one, second, c);
      AllFrame(w, second, c);
      AllRevertedWrites(w, first, both, c);
      if c in AllTouched(w, second) {
        forall d | d in AllTouched(w, second)
          ensures Same(one, w, d)
        {
          AllFrame(w, first, d);
        }
        AllLocal(one, w, second, AllTouched(w, second));
        assert Same(both, alone, c);
      }
    }
    AgreeEverywhere(undone, alone);
  }

  /** A second request that stays within the cells of the first: nothing is left of either. */
  lemma RefusalOfContained(w: Windows, first: seq<Action>, second: seq<Action>)
    requires Complete(w) && AllFit(first) && AllFit(second) && AllTouched(w, second) <= AllTouched(w, first)
    ensures Undone(w, first, second) == w
  {
    hide Executed, Snapshot, Reverted, Get;
    var (one, taken) := ExecutedAll(w, first);
    var both := ExecutedAll(one, second).0;
    var undone := RevertedAll(both, taken);
    SameTouched(w, one, second);
    forall c
      ensures Same(undone, w, c)
    {
      RefusalUndoes(w, first, second, c);
      AllFrame(w, first, c);
      AllFrame(one, second, c);
      AllRevertedWrites(w, first, both, c);
    }
    AgreeEverywhere(undone, w);
  }

  lemma {:induction false} SameTouched(w: Windows, x: Windows, actions: seq<Action>)
    requires w.Keys == x.Keys
    ensures AllTouched(w, actions) == AllTouched(x, actions)
  {
    if actions != [] { SameTouched(w, x, actions[..|actions| - 1]); }
  }

  /** The first of two outstanding requests is refused. */
  function Refused(s: State, first: seq<Action>, second: seq<Action>): State
    requires Inv(s) && s.queue == [] && AllFit(first) && AllFit(second)
  {
    Answered(Submitted(Submitted(s, 1, first), 2, second), false)
  }

  lemma RefusedRuns(s: State, first: seq<Action>, second: seq<Action>)
    requires Inv(s) && s.queue == [] && AllFit(first) && AllFit(second)
    ensures Refused(s, first, second).win == ExecutedAll(Undone(s.win, first, second), second).0
  {
    hide ExecutedAll, RevertedAll, Submitted, Answered;
    var (one, taken) := ExecutedAll(s.win, first);
    var (both, taken') := ExecutedAll(one, second);
    TwoSubmitted(s, first, second);
    AnsweredTwo(Submitted(Submitted(s, 1, first), 2, second), taken, taken');
    TakenIsSame(one, second);
    AllBareExecute(RevertedAll(both, taken), taken', second);
  }

  lemma TwoSubmitted(s: State, first: seq<Action>, second: seq<Action>)
    requires Inv(s) && s.queue == [] && AllFit(first) && AllFit(second)
    ensures var (one, taken) := ExecutedAll(s.win, first);
            var (both, taken') := ExecutedAll(one, second);
            Submitted(Submitted(s, 1, first), 2, second)
              == State(both, [Request(1, taken), Request(2, taken')], s.pendingSync)
  {
    hide ExecutedAll;
  }

  lemma AnsweredTwo(s: State, taken: seq<Action>, taken': seq<Action>)
    requires Inv(s) && AllFit(taken) && AllFit(taken') && s.queue == [Request(1, taken), Request(2, taken')]
    ensures Answered(s, false).win == ExecutedAll(RevertedAll(s.win, taken), taken').0
  {
    hide ExecutedAll, RevertedAll;
    assert s.queue[0].actions == taken && s.queue[1..] == [Request(2, taken')];
  }

  /** Refusing the first of two requests on different cells runs the second one twice. */
  lemma RefusalRunsNextTwice(s: State, first: seq<Action>, second: seq<Action>)
    requires Inv(s) && s.queue == [] && AllFit(first) && AllFit(second)
    requires AllTouched(s.win, first) !! AllTouched(s.win, second)
    ensures Refused(s, first, second).win == ExecutedAll(ExecutedAll(s.win, second).0, second).0
    ensures Refused(s, first, second).win == ExecutedAll(s.win, second).0
       <==> ExecutedAll(ExecutedAll(s.win, second).0, second).0 == ExecutedAll(s.win, second).0
  {
    hide ExecutedAll, RevertedAll;
    RefusedRuns(s, first, second);
    RefusalOfDisjoint(s.win, first, second);
  }

  /** If the second one stays within the cells of the first, it ends up executed once, as it should. */
  lemma RefusalRunsContainedOnce(s: State, first: seq<Action>, second: seq<Action>)
    requires Inv(s) && s.queue == [] && AllFit(first) && AllFit(second)
    requires AllTouched(s.win, second) <= AllTouched(s.win, first)
    ensures Refused(s, first, second).win == ExecutedAll(s.win, second).0
  {
    hide ExecutedAll, RevertedAll;
    RefusedRuns(s, first, second);
    RefusalOfContained(s.win, first, second);
  }

  // ----- when a second execution changes nothing

  /** A second execution is turned down, or has nothing left to do. */
  predicate Spent(win: Windows, a: Action)
    requires Complete(win) && Fits(a)
  {
    !Acts(win, a) ||
    match a
    case Transfer(n, s, i, _, _, _, _, _) =>
      n == 0 || Get(win, CellOf(s, i)).Empty() || n > Get(win, CellOf(s, i)).count
    case Swap(s, i, d, j, _, _, _) => Get(win, CellOf(s, i)) == Get(win, CellOf(d, j))
    case Destroy(n, s, i, _, _) => n == 0 || n > Get(win, CellOf(s, i)).count
    case _ => true
  }

  /** `win` holds in the cells of the action what one execution left there. */
  lemma SecondIsIdleIffSpent(before: Windows, win: Windows, a: Action)
    requires Alike(before, win) && Fits(a) && AgreeOn(Executed(before, a), win, Touched(win, a))
    ensures Executed(win, a) == win <==> Spent(win, a)
  {
    if Acts(win, a) {
      ExecutedFrame(before, a, CellOf(HotBar, 0));
      match a
      case Transfer(n, s, i, d, j, _, _, _) => SecondTransfer(before, win, a);
      case Swap(s, i, d, j, _, _, _) => SecondSwap(win, CellOf(s, i), CellOf(d, j));
      case Destroy(n, s, i, _, _) => SecondSet(win, CellOf(s, i), Get(win, CellOf(s, i)).Grow(Minus(n)));
      case Create(d, j, stack, _, _) =>
        assert Same(Executed(before, a), win, CellOf(d, j));
        SetSame(before, CellOf(d, j), stack, CellOf(d, j));
        SecondSet(win, CellOf(d, j), stack);
    }
  }

  lemma SecondSet(win: Windows, c: Cell, stack: Stack)
    requires Complete(win) && Exists(win, c)
    ensures Set(win, c, stack) == win <==> Get(win, c) == stack
  {
    SetSame(win, c, stack, c);
    SetBackOne(win, c, stack);
  }

  lemma SecondSwap(win: Windows, src: Cell, dst: Cell)
    requires Complete(win) && Exists(win, src) && Exists(win, dst)
    ensures Set(Set(win, src, Get(win, dst)), dst, Get(win, src)) == win <==> Get(win, src) == Get(win, dst)
  {
    var one := Set(win, src, Get(win, dst));
    SetSame(win, src, Get(win, dst), src);
    SetSame(win, src, Get(win, dst), dst);
    SetSame(one, dst, Get(win, src), src);
    SetSame(one, dst, Get(win, src), dst);
    SecondSet(win, src, Get(win, dst));
    SecondSet(one, dst, Get(win, src));
  }

  lemma SecondTransfer(before: Windows, win: Windows, a: Action)
    requires Alike(before, win) && Fits(a) && a.Transfer? && Acts(win, a)
    requires AgreeOn(Executed(before, a), win, Touched(win, a))
    ensures Executed(win, a) == win <==> Spent(win, a)
  {
    var src, dst, n := CellOf(a.src, a.srcSlot), CellOf(a.dst, a.dstSlot), a.count;
    assert Same(Executed(before, a), win, src) && Same(Executed(before, a), win, dst);
    var from, to := Get(win, src), Get(win, dst);
    var base := if to.Empty() then from.Grow(-MAX_INT32) else to;
    var one := Set(win, src, from.Grow(Minus(n)));
    SetSame(win, src, from.Grow(Minus(n)), src);
    SetSame(win, src, from.Grow(Minus(n)), dst);
    SetSame(one, dst, base.Grow(n), src);
    SetSame(one, dst, base.Grow(n), dst);
    if Moves(win, n, src) {
      if n == 0 {
        FirstTransfer(before, a);
        SecondSet(win, src, from);
        SecondSet(win, dst, to);
      }
    }
  }

  /** A transfer of nothing leaves an empty destination with the source's kind, or not empty. */
  lemma FirstTransfer(before: Windows, a: Action)
    requires Complete(before) && Fits(a) && a.Transfer? && Acts(before, a) && a.count == 0
    requires !Get(before, CellOf(a.src, a.srcSlot)).Empty()
    ensures var src, dst, after := CellOf(a.src, a.srcSlot), CellOf(a.dst, a.dstSlot), Executed(before, a);
      && Exists(after, src) && Exists(after, dst) && Get(after, src) == Get(before, src)
      && (Get(after, dst).Empty() ==> Get(after, dst) == Get(before, src).Grow(-MAX_INT32))
  {
  }

  /** Actions on different cells. */
  ghost predicate Apart(win: Windows, actions: seq<Action>) {
    forall i, j | 0 <= i < j < |actions| :: Touched(win, actions[i]) !! Touched(win, actions[j])
  }

  lemma {:induction false} TouchedByOne(win: Windows, actions: seq<Action>, c: Cell) returns (i: nat)
    requires c in AllTouched(win, actions)
    ensures i < |actions| && c in Touched(win, actions[i])
  {
    i := |actions| - 1;
    if c !in Touched(win, actions[i]) { i := TouchedByOne(win, actions[..i], c); }
  }

  /** The actions before the last one leave its cells alone. */
  lemma LastIsApart(win: Windows, actions: seq<Action>, c: Cell)
    requires Complete(win) && AllFit(actions) && Apart(win, actions) && actions != []
    requires c in Touched(win, actions[|actions| - 1])
    ensures Same(ExecutedAll(win, actions[..|actions| - 1]).0, win, c)
  {
    hide ExecutedAll, Touched, Same;
    var pre := actions[..|actions| - 1];
    if c in AllTouched(win, pre) { var k := TouchedByOne(win, pre, c); }
    AllFrame(win, pre, c);
  }

  /** Among actions on different cells each does what it would do alone. */
  lemma {:induction false} EachAlone(win: Windows, actions: seq<Action>, i: nat, c: Cell)
    requires Complete(win) && AllFit(actions) && Apart(win, actions) && i < |actions| && c in Touched(win, actions[i])
    ensures Same(ExecutedAll(win, actions).0, Executed(win, actions[i]), c)
  {
    hide Executed, Snapshot, Get, Touched;
    var n := |actions| - 1;
    var before := ExecutedAll(win, actions[..n]).0;
    ExecutedFrame(before, actions[n], c);
    ExecutedFrame(win, actions[i], c);
    AllFrame(win, actions[..n], c);
    TouchedAlike(win, before, actions[n]);
    if i < n {
      EachAlone(win, actions[..n], i, c);
    } else {
      forall d | d in Touched(win, actions[n])
        ensures Same(before, win, d)
      {
        LastIsApart(win, actions, d);
      }
      ExecutedLocal(before, win, actions[n], c);
    }
  }

  lemma OnceIsIdleIffSpent(w: Windows, actions: seq<Action>, i: nat)
    requires Complete(w) && AllFit(actions) && Apart(w, actions) && i < |actions|
    ensures var once := ExecutedAll(w, actions).0;
      && Alike(once, w) && (Executed(once, actions[i]) == once <==> Spent(once, actions[i]))
  {
    hide Executed, Snapshot, Get, Spent, ExecutedAll, Touched;
    var once := ExecutedAll(w, actions).0;
    AllFrame(w, actions, CellOf(HotBar, 0));
    TouchedAlike(w, once, actions[i]);
    forall c | c in Touched(once, actions[i])
      ensures Same(Executed(w, actions[i]), once, c)
    {
      EachAlone(w, actions, i, c);
    }
    SecondIsIdleIffSpent(w, once, actions[i]);
  }

  /** Executed a second time, a request whose actions work on different cells changes nothing if and only if each
      of its actions is spent: nothing left to destroy or to move, equal stacks to swap, or the same to create. */
  lemma SecondRunIsIdle(w: Windows, actions: seq<Action>)
    requires Complete(w) && AllFit(actions) && Apart(w, actions)
    ensures var once := ExecutedAll(w, actions).0;
            ExecutedAll(once, actions).0 == once <==> forall i | 0 <= i < |actions| :: Spent(once, actions[i])
  {
    hide Executed, Snapshot, Get, Spent, ExecutedAll, Touched;
    var once := ExecutedAll(w, actions).0;
    var twice := ExecutedAll(once, actions).0;
    AllFrame(w, actions, CellOf(HotBar, 0));
    AllFrame(once, actions, CellOf(HotBar, 0));
    ApartAlike(w, once, actions);
    forall i | 0 <= i < |actions|
      ensures Executed(once, actions[i]) == once <==> Spent(once, actions[i])
    {
      OnceIsIdleIffSpent(w, actions, i);
    }
    if twice == once {
      forall i | 0 <= i < |actions|
        ensures Executed(once, actions[i]) == once
      {
        ExecutedFrame(once, actions[i], CellOf(HotBar, 0));
        forall c
          ensures Same(Executed(once, actions[i]), once, c)
        {
          ExecutedFrame(once, actions[i], c);
          if c in Touched(once, actions[i]) { EachAlone(once, actions, i, c); }
        }
        AgreeEverywhere(Executed(once, actions[i]), once);
      }
    } else if forall i | 0 <= i < |actions| :: Spent(once, actions[i]) {
      forall c
        ensures Same(twice, once, c)
      {
        AllFrame(once, actions, c);
        if c in AllTouched(once, actions) {
          var i := TouchedByOne(once, actions, c);
          EachAlone(once, actions, i, c);
          assert Executed(once, actions[i]) == once;
        }
      }
      AgreeEverywhere(twice, once);
    }
  }

  lemma TouchedAlike(w: Windows, x: Windows, a: Action)
    requires w.Keys == x.Keys
    ensures Touched(w, a) == Touched(x, a)
  {
  }

  lemma ApartAlike(w: Windows, x: Windows, actions: seq<Action>)
    requires w.Keys == x.Keys && Apart(w, actions)
    ensures Apart(x, actions)
  {
    forall i, j | 0 <= i < j < |actions|
      ensures Touched(x, actions[i]) !! Touched(x, actions[j])
    {
      TouchedAlike(w, x, actions[i]);
      TouchedAlike(w, x, actions[j]);
    }
  }

  // ----- when a refusal does no harm

  /** Within the cells of the refused request an action behind it runs again from where it started. */
  lemma ContainedActionRunsOnce(w: Windows, first: seq<Action>, second: seq<Action>, i: nat, c: Cell)
    requires Complete(w) && AllFit(first) && AllFit(second) && Apart(w, second) && i < |second|
    requires c in Touched(w, second[i]) && Touched(w, second[i]) <= AllTouched(w, first)
    ensures Alike(Undone(w, first, second), w)
    ensures Same(ExecutedAll(Undone(w, first, second), second).0, ExecutedAll(w, second).0, c)
  {
    hide Executed, Snapshot, Reverted, Get, ExecutedAll, Touched, Exists, CellOf;
    var undone := Undone(w, first, second);
    UndoneIsAlike(w, first, second);
    forall d | d in Touched(w, second[i])
      ensures Same(undone, w, d)
    {
      RefusalUndoes(w, first, second, d);
    }
    SameIsShared(undone, w, second, i, c);
  }

  /** Where two inventories agree on the cells of an action, a request with that action agrees there as well. */
  lemma SameIsShared(w: Windows, x: Windows, actions: seq<Action>, i: nat, c: Cell)
    requires Alike(w, x) && AllFit(actions) && Apart(x, actions) && i < |actions|
    requires AgreeOn(w, x, Touched(x, actions[i])) && c in Touched(x, actions[i])
    ensures Alike(ExecutedAll(w, actions).0, x) && Alike(ExecutedAll(x, actions).0, x)
    ensures Same(ExecutedAll(w, actions).0, ExecutedAll(x, actions).0, c)
  {
    hide Executed, Snapshot, Get, ExecutedAll, Touched;
    ApartAlike(x, w, actions);
    TouchedAlike(x, w, actions[i]);
    EachAlone(w, actions, i, c);
    EachAlone(x, actions, i, c);
    ExecutedLocal(w, x, actions[i], c);
    ExecutedFrame(w, actions[i], c);
    ExecutedFrame(x, actions[i], c);
    AllFrame(w, actions, c);
    AllFrame(x, actions, c);
  }

  lemma OtherCellsAreLeft(w: Windows, first: seq<Action>, second: seq<Action>, i: nat, d: Cell)
    requires Complete(w) && AllFit(first) && AllFit(second) && Apart(w, second) && i < |second|
    requires d in Touched(w, second[i]) && Touched(w, second[i]) !! AllTouched(w, first)
    ensures Same(Undone(w, first, second), ExecutedAll(w, second).0, d)
  {
    hide Executed, Snapshot, Reverted, Get, ExecutedAll, RevertedAll, Touched, CellOf;
    var one := ExecutedAll(w, first).0;
    forall e | e in Touched(w, second[i])
      ensures Same(one, w, e)
    {
      AllFrame(w, first, e);
    }
    AllFrame(w, first, d);
    SameIsShared(one, w, second, i, d);
    RefusalUndoes(w, first, second, d);
    UndoneIsAlike(w, first, second);
  }

  /** On other cells it runs again from where its first execution left it. */
  lemma OtherActionRunsAgain(w: Windows, first: seq<Action>, second: seq<Action>, i: nat, c: Cell)
    requires Complete(w) && AllFit(first) && AllFit(second) && Apart(w, second) && i < |second|
    requires c in Touched(w, second[i]) && Touched(w, second[i]) !! AllTouched(w, first)
    ensures var undone, once := Undone(w, first, second), ExecutedAll(w, second).0;
      && Alike(undone, w) && Alike(once, w)
      && Same(ExecutedAll(undone, second).0, Executed(once, second[i]), c)
  {
    hide Executed, Snapshot, Get, ExecutedAll, Touched, CellOf, Undone;
    var once, undone := ExecutedAll(w, second).0, Undone(w, first, second);
    UndoneIsAlike(w, first, second);
    TouchedAlike(w, undone, second[i]);
    forall d | d in Touched(undone, second[i])
      ensures Same(undone, once, d)
    {
      OtherCellsAreLeft(w, first, second, i, d);
    }
    ApartAlike(w, undone, second);
    EachAlone(undone, second, i, c);
    ExecutedLocal(undone, once, second[i], c);
    ExecutedFrame(undone, second[i], c);
    ExecutedFrame(once, second[i], c);
    AllFrame(undone, second, c);
  }

  /** The cells of one action of the second request end up as if the first one had never been. */
  ghost predicate EndsRight(w: Windows, first: seq<Action>, second: seq<Action>, i: nat)
    requires Complete(w) && AllFit(first) && AllFit(second) && i < |second|
  {
    UndoneIsAlike(w, first, second);
    forall c | c in Touched(w, second[i]) ::
      Same(ExecutedAll(Undone(w, first, second), second).0, ExecutedAll(w, second).0, c)
  }

  lemma IdleOnItsCells(win: Windows, a: Action)
    requires Complete(win) && Fits(a)
    ensures Alike(Executed(win, a), win)
    ensures Executed(win, a) == win <==> AgreeOn(Executed(win, a), win, Touched(win, a))
  {
    hide Executed, Touched, Get;
    ExecutedFrame(win, a, CellOf(HotBar, 0));
    if AgreeOn(Executed(win, a), win, Touched(win, a)) {
      forall c
        ensures Same(Executed(win, a), win, c)
      {
        ExecutedFrame(win, a, c);
      }
      AgreeEverywhere(Executed(win, a), win);
    }
  }

  lemma SameChains(a: Windows, b: Windows, x: Windows, c: Cell)
    requires Alike(a, b) && Alike(b, x) && Same(a, b, c)
    ensures Same(a, x, c) <==> Same(b, x, c)
  {
  }

  // ----- an action with one cell among those of the refused request and one elsewhere

  predicate Crosses(w: Windows, refused: set<Cell>, a: Action) {
    !(Touched(w, a) <= refused) && !(Touched(w, a) !! refused)
  }

  /** Source and destination after a transfer between different cells. */
  function MovedPair(s: Stack, d: Stack, n: nat): (Stack, Stack) {
    if s.Empty() || n > s.count then (s, d)
    else (s.Grow(Minus(n)), (if d.Empty() then s.Grow(-MAX_INT32) else d).Grow(n))
  }

  lemma MovedGets(win: Windows, n: nat, src: Cell, dst: Cell)
    requires Complete(win) && Exists(win, src) && Exists(win, dst) && src != dst
    ensures var m, pair := Moved(win, n, src, dst), MovedPair(Get(win, src), Get(win, dst), n);
      Alike(m, win) && Get(m, src) == pair.0 && Get(m, dst) == pair.1
  {
  }

  lemma SwappedGets(win: Windows, src: Cell, dst: Cell)
    requires Complete(win) && Exists(win, src) && Exists(win, dst) && src != dst
    ensures var m := Set(Set(win, src, Get(win, dst)), dst, Get(win, src));
      Alike(m, win) && Get(m, src) == Get(win, dst) && Get(m, dst) == Get(win, src)
  {
  }

  /** What a transfer or swap of two different cells leaves in them. */
  function PairAfter(a: Action, s: Stack, d: Stack): (Stack, Stack)
    requires a.Transfer? || a.Swap?
  {
    if a.Transfer? then MovedPair(s, d, a.count) else (d, s)
  }

  lemma PairExecuted(win: Windows, a: Action)
    requires Complete(win) && Fits(a) && Acts(win, a) && (a.Transfer? || a.Swap?)
    requires CellOf(a.src, a.srcSlot) != CellOf(a.dst, a.dstSlot)
    ensures var src, dst, m := CellOf(a.src, a.srcSlot), CellOf(a.dst, a.dstSlot), Executed(win, a);
      && Alike(m, win) && Exists(win, src) && Exists(win, dst)
      && PairAfter(a, Get(win, src), Get(win, dst)) == (Get(m, src), Get(m, dst))
  {
    hide Set, Get, Moved;
    var src, dst := CellOf(a.src, a.srcSlot), CellOf(a.dst, a.dstSlot);
    if a.Transfer? {
      MovedGets(win, a.count, src, dst);
    } else {
      SwappedGets(win, src, dst);
    }
  }

  /** A transfer whose source was restored takes from it again. */
  lemma MovedOutTwice(restored: Stack, taken: Stack, d: Stack, n: nat)
    requires restored.count <= MAX_INT32 && taken.count <= MAX_INT32
    ensures MovedPair(restored, MovedPair(taken, d, n).1, n) == MovedPair(restored, d, n)
       <==> || taken.Empty() || n > taken.count
            || (n == 0 && (!restored.Empty() || !d.Empty() || d.kind == taken.kind))
  {
  }

  /** A transfer whose destination was restored gives to it again. */
  lemma MovedInTwice(s: Stack, given: Stack, restored: Stack, n: nat)
    ensures MovedPair(MovedPair(s, given, n).0, restored, n) == MovedPair(s, restored, n)
       <==> n == 0 || s.Empty() || n > s.count
  {
  }

  /** Executed again after the refusal, a crossing action leaves its cells as it should.  A transfer out of the
      restored cells must have been turned down the first time, one into them must have nothing to move, and a swap
      must have put the same items there that it took away.  `one` is the inventory after the refused request. */
  predicate CrossesWell(w: Windows, one: Windows, refused: set<Cell>, a: Action)
    requires Complete(w) && Complete(one) && one.Keys == w.Keys && Fits(a)
  {
    Acts(w, a) ==>
      match a
      case Transfer(n, s, i, d, j, _, _, _) =>
        var src, dst := CellOf(s, i), CellOf(d, j);
        if src !in refused then n == 0 || !Moves(w, n, src)
        else
          || !Moves(one, n, src)
          || (n == 0 && (Moves(w, n, src) || !Get(w, dst).Empty() || Get(w, dst).kind == Get(one, src).kind))
      case Swap(s, i, d, j, _, _, _) =>
        var src, dst := CellOf(s, i), CellOf(d, j);
        if src in refused then Get(one, src) == Get(w, dst) else Get(one, dst) == Get(w, src)
      case _ => true
  }

  /** The stacks that a transfer takes from a restored cell are no larger than what it clears an empty one by. */
  predicate Sized(w: Windows, one: Windows, refused: set<Cell>, a: Action)
    requires Complete(w) && Complete(one) && one.Keys == w.Keys && Fits(a)
  {
    a.Transfer? && Acts(w, a) && Crosses(w, refused, a) && CellOf(a.src, a.srcSlot) in refused ==>
      var src := CellOf(a.src, a.srcSlot);
      Get(w, src).count <= MAX_INT32 && Get(one, src).count <= MAX_INT32
  }

  /** Its cells after the refusal, before it runs again. */
  ghost predicate HalfUndone(w: Windows, one: Windows, undone: Windows, refused: set<Cell>, a: Action)
    requires Complete(w) && Complete(one) && Fits(a)
  {
    && Alike(one, w) && Alike(undone, w)
    && (forall c | c in Touched(w, a) :: Same(undone, if c in refused then w else Executed(one, a), c))
    && (forall c | c in Touched(w, a) && c !in refused :: Same(one, w, c))
  }

  lemma CrossingPair(w: Windows, one: Windows, undone: Windows, refused: set<Cell>, a: Action)
    requires Complete(w) && Complete(one) && Fits(a) && HalfUndone(w, one, undone, refused, a)
    requires Crosses(w, refused, a)
    ensures Complete(undone) && Acts(w, a) && (a.Transfer? || a.Swap?)
    ensures var src, dst := CellOf(a.src, a.srcSlot), CellOf(a.dst, a.dstSlot);
      && Exists(w, src) && Exists(w, dst) && Exists(one, src) && Exists(one, dst)
      && (src in refused <==> dst !in refused)
      && var (s, d, after) := (Get(w, src), Get(w, dst), PairAfter(a, Get(one, src), Get(one, dst)));
      && (if src in refused then Get(one, dst) == d else Get(one, src) == s)
      && (AgreeOn(Executed(undone, a), Executed(w, a), Touched(w, a))
          <==> PairAfter(a, if src in refused then s else after.0, if src in refused then after.1 else d)
               == PairAfter(a, s, d))
  {
    hide Executed, Get, PairAfter;
    var src, dst := CellOf(a.src, a.srcSlot), CellOf(a.dst, a.dstSlot);
    PairExecuted(w, a);
    PairExecuted(one, a);
    PairExecuted(undone, a);
    assert Same(undone, if src in refused then w else Executed(one, a), src);
    assert Same(undone, if dst in refused then w else Executed(one, a), dst);
    assert src !in refused ==> Same(one, w, src);
    assert dst !in refused ==> Same(one, w, dst);
  }

  lemma CrossingIff(w: Windows, one: Windows, undone: Windows, refused: set<Cell>, a: Action)
    requires Complete(w) && Complete(one) && Fits(a) && HalfUndone(w, one, undone, refused, a)
    requires Crosses(w, refused, a) && Sized(w, one, refused, a)
    ensures Complete(undone)
    ensures AgreeOn(Executed(undone, a), Executed(w, a), Touched(w, a)) <==> CrossesWell(w, one, refused, a)
  {
    hide Executed, Get, MovedPair, HalfUndone, Touched, AgreeOn;
    CrossingPair(w, one, undone, refused, a);
    var src, dst := CellOf(a.src, a.srcSlot), CellOf(a.dst, a.dstSlot);
    if a.Transfer? && src in refused {
      MovedOutTwice(Get(w, src), Get(one, src), Get(w, dst), a.count);
    } else if a.Transfer? {
      MovedInTwice(Get(w, src), Get(one, dst), Get(w, dst), a.count);
    }
  }

  lemma IsHalfUndone(w: Windows, first: seq<Action>, second: seq<Action>, i: nat)
    requires Complete(w) && AllFit(first) && AllFit(second) && Apart(w, second) && i < |second|
    ensures Complete(ExecutedAll(w, first).0)
    ensures HalfUndone(w, ExecutedAll(w, first).0, Undone(w, first, second), AllTouched(w, first), second[i])
  {
    hide Executed, Snapshot, Reverted, Get, ExecutedAll, RevertedAll, Undone, Touched, Exists, CellOf;
    var one, a := ExecutedAll(w, first).0, second[i];
    UndoneIsAlike(w, first, second);
    AllFrame(w, first, Cell(Main, 0));
    ApartAlike(w, one, second);
    TouchedAlike(w, one, a);
    forall c | c in Touched(w, a)
      ensures Same(Undone(w, first, second), if c in AllTouched(w, first) then w else Executed(one, a), c)
      ensures c !in AllTouched(w, first) ==> Same(one, w, c)
    {
      AllFrame(w, first, c);
      RefusalUndoes(w, first, second, c);
      EachAlone(one, second, i, c);
      ExecutedFrame(one, a, c);
      AllFrame(one, second, c);
      if c !in AllTouched(w, first) {
        SameChains(Undone(w, first, second), ExecutedAll(one, second).0, Executed(one, a), c);
      }
    }
  }

  lemma CrossingEndsRight(w: Windows, first: seq<Action>, second: seq<Action>, i: nat)
    requires Complete(w) && AllFit(first) && AllFit(second) && Apart(w, second) && i < |second|
    requires Crosses(w, AllTouched(w, first), second[i])
    requires Sized(w, ExecutedAll(w, first).0, AllTouched(w, first), second[i])
    ensures EndsRight(w, first, second, i)
       <==> CrossesWell(w, ExecutedAll(w, first).0, AllTouched(w, first), second[i])
  {
    hide Executed, Snapshot, Reverted, Get, ExecutedAll, RevertedAll, Undone, Touched, CrossesWell, Sized, HalfUndone,
        Exists, CellOf, Crosses;
    var one, undone, a := ExecutedAll(w, first).0, Undone(w, first, second), second[i];
    UndoneIsAlike(w, first, second);
    IsHalfUndone(w, first, second, i);
    CrossingIff(w, one, undone, AllTouched(w, first), a);
    ApartAlike(w, undone, second);
    TouchedAlike(w, undone, a);
    forall c | c in Touched(w, a)
      ensures Same(ExecutedAll(undone, second).0, ExecutedAll(w, second).0, c)
         <==> Same(Executed(undone, a), Executed(w, a), c)
    {
      EachAlone(undone, second, i, c);
      EachAlone(w, second, i, c);
      ExecutedFrame(undone, a, c);
      ExecutedFrame(w, a, c);
      AllFrame(undone, second, c);
      AllFrame(w, second, c);
      SameChains(ExecutedAll(undone, second).0, Executed(undone, a), ExecutedAll(w, second).0, c);
      SameChains(ExecutedAll(w, second).0, Executed(w, a), Executed(undone, a), c);
    }
  }

  /** The action ends up executed once, as if the refused request had never been. */
  predicate Survives(w: Windows, one: Windows, once: Windows, refused: set<Cell>, a: Action)
    requires Complete(w) && Complete(one) && one.Keys == w.Keys && Complete(once) && Fits(a)
  {
    if Touched(w, a) <= refused then true
    else if Touched(w, a) !! refused then Spent(once, a)
    else CrossesWell(w, one, refused, a)
  }

  lemma EndsRightIff(w: Windows, first: seq<Action>, second: seq<Action>, i: nat)
    requires Complete(w) && AllFit(first) && AllFit(second) && Apart(w, second) && i < |second|
    requires Sized(w, ExecutedAll(w, first).0, AllTouched(w, first), second[i])
    ensures EndsRight(w, first, second, i)
       <==> Survives(w, ExecutedAll(w, first).0, ExecutedAll(w, second).0, AllTouched(w, first), second[i])
  {
    hide ExecutedAll, Undone, Touched, AllTouched, Apart, Spent, Executed, Get, Exists, CrossesWell, Sized;
    var undone, once, a := Undone(w, first, second), ExecutedAll(w, second).0, second[i];
    UndoneIsAlike(w, first, second);
    TouchedAlike(w, once, a);
    if Touched(w, a) <= AllTouched(w, first) {
      forall c | c in Touched(w, a)
        ensures Same(ExecutedAll(undone, second).0, once, c)
      {
        ContainedActionRunsOnce(w, first, second, i, c);
      }
    } else if Touched(w, a) !! AllTouched(w, first) {
      OnceIsIdleIffSpent(w, second, i);
      IdleOnItsCells(once, a);
      forall c | c in Touched(w, a)
        ensures Same(ExecutedAll(undone, second).0, once, c) <==> Same(Executed(once, a), once, c)
      {
        OtherActionRunsAgain(w, first, second, i, c);
        AllFrame(undone, second, c);
        SameChains(ExecutedAll(undone, second).0, Executed(once, a), once, c);
      }
    } else {
      CrossingEndsRight(w, first, second, i);
    }
  }

  lemma UntouchedEndsRight(w: Windows, first: seq<Action>, second: seq<Action>, c: Cell)
    requires Complete(w) && AllFit(first) && AllFit(second) && c !in AllTouched(w, second)
    ensures Alike(Undone(w, first, second), w)
    ensures Same(ExecutedAll(Undone(w, first, second), second).0, ExecutedAll(w, second).0, c)
  {
    hide Executed, Snapshot, Reverted, Get, ExecutedAll, RevertedAll, Undone;
    var undone, one := Undone(w, first, second), ExecutedAll(w, first).0;
    UndoneIsAlike(w, first, second);
    RefusalUndoes(w, first, second, c);
    AllFrame(w, first, c);
    SameTouched(w, one, second);
    SameTouched(w, undone, second);
    AllFrame(one, second, c);
    AllFrame(undone, second, c);
    AllFrame(w, second, c);
  }

  /** When a refusal does no harm to the request behind it, whose actions work on different cells: exactly when each
      of them survives.  Those within the cells of the refused request do, those away from them must be spent after
      one execution, and those with one cell on each side must cross well. */
  lemma RefusalIsHarmless(s: State, first: seq<Action>, second: seq<Action>)
    requires Inv(s) && s.queue == [] && AllFit(first) && AllFit(second) && Apart(s.win, second)
    requires forall i | 0 <= i < |second| ::
        Sized(s.win, ExecutedAll(s.win, first).0, AllTouched(s.win, first), second[i])
    ensures Refused(s, first, second).win == ExecutedAll(s.win, second).0
       <==> forall i | 0 <= i < |second| ::
              Survives(s.win, ExecutedAll(s.win, first).0, ExecutedAll(s.win, second).0, AllTouched(s.win, first),
                       second[i])
  {
    hide ExecutedAll, Undone, Touched, Refused, Spent, Apart, Sized, Executed, Get, Exists, Survives;
    var undone, once := Undone(s.win, first, second), ExecutedAll(s.win, second).0;
    UndoneIsAlike(s.win, first, second);
    var end := ExecutedAll(undone, second).0;
    RefusedRuns(s, first, second);
    forall i | 0 <= i < |second|
      ensures EndsRight(s.win, first, second, i)
         <==> Survives(s.win, ExecutedAll(s.win, first).0, once, AllTouched(s.win, first), second[i])
    {
      EndsRightIff(s.win, first, second, i);
    }
    AllFrame(undone, second, CellOf(HotBar, 0));
    if forall i | 0 <= i < |second| :: EndsRight(s.win, first, second, i) {
      forall c
        ensures Same(end, once, c)
      {
        if c in AllTouched(s.win, second) {
          var i := TouchedByOne(s.win, second, c);
          assert EndsRight(s.win, first, second, i);
        } else {
          UntouchedEndsRight(s.win, first, second, c);
        }
      }
      AgreeEverywhere(end, once);
    }
  }

  // ----- two moves in a chain

  function Move(n: nat, from: nat, to: nat, win: Windows): (a: Action)
    requires Complete(win) && from < 36 && to < 36
    ensures Fits(a)
  {
    Transfer(n, Inventory, from, Inventory, to, win[Main][from], win[Main][to], true)
  }

  lemma AskedMove(s: State, id: int, n: nat, from: nat, to: nat)
    requires Inv(s) && from < 36 && to < 36
    ensures var a := Move(n, from, to, s.win);
      Asked(s, id, [AskTransfer(n, Inventory, from, Inventory, to)])
        == State(Executed(s.win, a), s.queue + [Request(id, [a])], s.pendingSync)
  {
    var a := Move(n, from, to, s.win);
    SingleAsk(s.win, AskTransfer(n, Inventory, from, Inventory, to));
    SingleAction(s.win, a);
  }

  lemma RefusedFirst(s: State, a0: Action, a1: Action)
    requires Inv(s) && Fits(a0) && Fits(a1) && s.queue == [Request(1, [a0]), Request(2, [a1])]
    ensures Complete(Reverted(s.win, a0))
    ensures Responded(s, [Response(1, false)]).win == Executed(Reverted(s.win, a0), a1)
  {
    hide Executed, Reverted;
    assert s.queue[0].actions == [a0] && s.queue[1].actions == [a1];
    assert AllFit(s.queue[0].actions) && AllFit(s.queue[1].actions);
    SingleAction(s.win, a0);
    SingleAction(Reverted(s.win, a0), a1);
    assert Responded(s, [Response(1, false)]) == Responded(Answered(s, false), []);
  }

  /** A whole stack is moved to an empty slot. */
  lemma MoveToEmpty(win: Windows, n: nat, from: nat, to: nat)
    requires Complete(win) && from < 36 && to < 36 && from != to
    requires win[Main][from].count == n && 0 < n <= MAX_INT32 && win[Main][to].Empty()
    ensures var stack, after := win[Main][from], Executed(win, Move(n, from, to, win));
      && Complete(after) && after == win[Main := win[Main][from := Stack(stack.kind, 0)][to := stack]]
  {
  }

  lemma MoveBack(win: Windows, before: Windows, n: nat, from: nat, to: nat)
    requires Complete(win) && Complete(before) && from < 36 && to < 36
    ensures var after := Reverted(win, Move(n, from, to, before));
      Complete(after) && after == win[Main := win[Main][from := before[Main][from]][to := before[Main][to]]]
  {
  }

  lemma MoveFromEmpty(win: Windows, a: Action, from: nat)
    requires Complete(win) && Fits(a) && from < 36 && win[Main][from].Empty()
    requires a.Transfer? && a.src == Inventory && a.srcSlot == from
    ensures Executed(win, a) == win
  {
  }

  /** The second move starts where the first one ends.  Refusing the first restores its source and destination, but
      what the second one took from there stays where it went: the items are there twice, although there is nothing
      to move when the second one runs again. */
  lemma ChainedMoveDoubles(s: State, kind: int, n: nat)
    requires Inv(s) && s.queue == [] && 0 < n <= MAX_INT32
    requires s.win[Main][0] == Stack(kind, n) && s.win[Main][1].Empty() && s.win[Main][2].Empty()
    ensures var one := Asked(s, 1, [AskTransfer(n, Inventory, 0, Inventory, 1)]);
            var both := Asked(one, 2, [AskTransfer(n, Inventory, 1, Inventory, 2)]);
            var r := Responded(both, [Response(1, false)]);
      && both.win[Main][0].Empty() && both.win[Main][1].Empty() && both.win[Main][2] == Stack(kind, n)
      && r.win[Main][0] == Stack(kind, n) && r.win[Main][2] == Stack(kind, n)
      && Total(both.win) == Total(s.win) && Total(r.win) == Total(s.win) + n
  {
    hide Asked, Responded, Executed, Reverted, Total;
    var a0 := Move(n, 0, 1, s.win);
    AskedMove(s, 1, n, 0, 1);
    MoveToEmpty(s.win, n, 0, 1);
    var one := Asked(s, 1, [AskTransfer(n, Inventory, 0, Inventory, 1)]);
    var a1 := Move(n, 1, 2, one.win);
    AskedMove(one, 2, n, 1, 2);
    MoveToEmpty(one.win, n, 1, 2);
    var both := Asked(one, 2, [AskTransfer(n, Inventory, 1, Inventory, 2)]);
    RefusedFirst(both, a0, a1);
    MoveBack(both.win, s.win, n, 0, 1);
    MoveFromEmpty(Reverted(both.win, a0), a1, 1);
    var r := Responded(both, [Response(1, false)]);
    var slots, empty, full := s.win[Main], Stack(kind, 0), Stack(kind, n);
    assert both.win[Main] == slots[0 := empty][1 := empty][2 := full];
    assert r.win[Main] == slots[2 := full];
    assert both.win == s.win[Main := both.win[Main]] && r.win == s.win[Main := r.win[Main]];
    DoubledTotal(s.win, both.win, r.win, kind, n);
  }

  lemma DoubledTotal(w: Windows, moved: Windows, doubled: Windows, kind: int, n: nat)
    requires Complete(w) && w[Main][0] == Stack(kind, n) && w[Main][1].Empty() && w[Main][2].Empty()
    requires moved == w[Main := w[Main][0 := Stack(kind, 0)][1 := Stack(kind, 0)][2 := Stack(kind, n)]]
    requires doubled == w[Main := w[Main][2 := Stack(kind, n)]]
    ensures Total(moved) == Total(w) && Total(doubled) == Total(w) + n
  {
    hide Total;
    var c0, c1, c2 := Cell(Main, 0), Cell(Main, 1), Cell(Main, 2);
    TotalSet(w, c2, Stack(kind, n));
    assert doubled == Set(w, c2, Stack(kind, n));
    TotalSet(doubled, c1, Stack(kind, 0));
    var cleared := Set(doubled, c1, Stack(kind, 0));
    TotalSet(cleared, c0, Stack(kind, 0));
    assert moved[Main] == Set(cleared, c0, Stack(kind, 0))[Main];
    assert moved == Set(cleared, c0, Stack(kind, 0));
  }
}
