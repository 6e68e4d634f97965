/** The optimistic inventory on values: requests are executed when the client sends them and undone, from
    snapshots, when the server rejects them.  Several container IDs stand for the same window. */
module InventoryModel {

  const MAX_INT32 := 0x7fff_ffff

  datatype Stack = Stack(kind: int, count: nat) {
    predicate Empty() { count == 0 }

    /** A negative result is clamped to zero. */
    function Grow(n: int): (r: Stack) { Stack(kind, if count + n < 0 then 0 else count + n) }
  }

  function Minus(n: int): int { -n }

  type Items = seq<Stack>

  datatype Window = Armour | Main | Offhand | UI | Alt

  /** The windows that are there: the first four always, the last one while a container is open. */
  type Windows = map<Window, Items>

  datatype Container =
    | CraftingInput | CreatedOutput | Cursor | HotBar | Inventory | CombinedHotBarAndInventory | OffhandContainer
    | ArmorContainer | OtherContainer(id: int)

  function Size(window: Window): nat {
    match window case Armour => 4 case Main => 36 case Offhand => 1 case UI => 54 case Alt => 64
  }

  function WindowOf(id: Container): Window {
    match id
    case CraftingInput => UI case CreatedOutput => UI case Cursor => UI
    case HotBar => Main case Inventory => Main case CombinedHotBarAndInventory => Main
    case OffhandContainer => Offhand
    case ArmorContainer => Armour
    case OtherContainer(_) => Alt
  }

  predicate Complete(win: Windows) {
    && Armour in win && Main in win && Offhand in win && UI in win
    && forall w | w in win :: |win[w]| == Size(w)
  }

  datatype Cell = Cell(window: Window, slot: int)

  /** The second slot of the off hand is another name for its only slot. */
  function CellOf(id: Container, slot: int): Cell {
    Cell(WindowOf(id), if WindowOf(id).Offhand? && slot == 1 then 0 else slot)
  }

  predicate Exists(win: Windows, c: Cell) { c.window in win && 0 <= c.slot < |win[c.window]| }

  function Get(win: Windows, c: Cell): Stack
    requires Exists(win, c)
  {
    win[c.window][c.slot]
  }

  function Set(win: Windows, c: Cell, stack: Stack): (r: Windows)
    requires Exists(win, c)
    ensures r.Keys == win.Keys
  {
    win[c.window := win[c.window][c.slot := stack]]
  }

  // ----- actions

  datatype Action =
    | Transfer(count: nat, src: Container, srcSlot: int, dst: Container, dstSlot: int, oldSrc: Stack, oldDst: Stack,
         open: bool)
    | Swap(src: Container, srcSlot: int, dst: Container, dstSlot: int, oldSrc: Stack, oldDst: Stack, open: bool)
    | Destroy(count: nat, src: Container, srcSlot: int, oldSrc: Stack, open: bool)
    | Create(dst: Container, dstSlot: int, stack: Stack, oldDst: Stack, open: bool)
    | Nop
    | Unknown(open: bool)

  /** A slot that the check of a request lets through. */
  predicate InBounds(id: Container, slot: int) { 0 <= slot < Size(WindowOf(id)) }

  predicate Fits(a: Action) {
    && (a.Transfer? || a.Swap? || a.Destroy? ==> InBounds(a.src, a.srcSlot))
    && (a.Transfer? || a.Swap? || a.Create? ==> InBounds(a.dst, a.dstSlot))
  }

  /** Both windows of an action are there. */
  predicate Found(win: Windows, a: Action) {
    && (a.Transfer? || a.Swap? || a.Destroy? ==> WindowOf(a.src) in win)
    && (a.Transfer? || a.Swap? || a.Create? ==> WindowOf(a.dst) in win)
  }

  predicate Acts(win: Windows, a: Action) { !a.Nop? && !a.Unknown? && a.open && Found(win, a) }

  function Snapshot(win: Windows, a: Action): Action
    requires Complete(win) && Fits(a)
  {
    if !Acts(win, a) then a
    else
      match a
      case Transfer(n, s, i, d, j, _, _, open) =>
        Transfer(n, s, i, d, j, Get(win, CellOf(s, i)), Get(win, CellOf(d, j)), open)
      case Swap(s, i, d, j, _, _, _) => a.(oldSrc := Get(win, CellOf(s, i)), oldDst := Get(win, CellOf(d, j)))
      case Destroy(_, s, i, _, _) => a.(oldSrc := Get(win, CellOf(s, i)))
      case Create(d, j, _, _, _) => a.(oldDst := Get(win, CellOf(d, j)))
  }

  function Moved(win: Windows, count: nat, src: Cell, dst: Cell): Windows
    requires Exists(win, src) && Exists(win, dst)
  {
    var s, d := Get(win, src), Get(win, dst);
    if s.Empty() || count > s.count then win
    else
      var base := if d.Empty() then s.Grow(-MAX_INT32) else d;
      Set(Set(win, src, s.Grow(Minus(count))), dst, base.Grow(count))
  }

  function Executed(win: Windows, a: Action): Windows
    requires Complete(win) && Fits(a)
  {
    if !Acts(win, a) then win
    else
      match a
      case Transfer(n, s, i, d, j, _, _, _) => Moved(win, n, CellOf(s, i), CellOf(d, j))
      case Swap(s, i, d, j, _, _, _) =>
        Set(Set(win, CellOf(s, i), Get(win, CellOf(d, j))), CellOf(d, j), Get(win, CellOf(s, i)))
      case Destroy(n, s, i, _, _) =>
        var stack := Get(win, CellOf(s, i));
        if n > stack.count then win else Set(win, CellOf(s, i), stack.Grow(Minus(n)))
      case Create(d, j, stack, _, _) => Set(win, CellOf(d, j), stack)
  }

  function Reverted(win: Windows, a: Action): Windows
    requires Complete(win) && Fits(a)
  {
    if !Acts(win, a) then win
    else
      match a
      case Transfer(_, s, i, d, j, oldSrc, oldDst, _) => Set(Set(win, CellOf(s, i), oldSrc), CellOf(d, j), oldDst)
      case Swap(s, i, d, j, oldSrc, oldDst, _) => Set(Set(win, CellOf(s, i), oldSrc), CellOf(d, j), oldDst)
      case Destroy(_, s, i, oldSrc, _) => Set(win, CellOf(s, i), oldSrc)
      case Create(d, j, _, oldDst, _) => Set(win, CellOf(d, j), oldDst)
  }

  function ClosedAction(a: Action): Action { if a.Nop? then a else a.(open := false) }

  /** Actions that do nothing any more. */
  predicate GivenUp(actions: seq<Action>) {
    forall i | 0 <= i < |actions| :: actions[i].Nop? || !actions[i].open
  }

  /** A reverted action of unknown kind asks the server for everything. */
  predicate AsksForSync(a: Action) { a.Unknown? && a.open }

  // ----- requests

  ghost predicate AllFit(actions: seq<Action>) { forall i | 0 <= i < |actions| :: Fits(actions[i]) }

  function ExecutedAll(win: Windows, actions: seq<Action>): (r: (Windows, seq<Action>))
    requires Complete(win) && AllFit(actions)
    ensures Complete(r.0) && r.0.Keys == win.Keys && AllFit(r.1) && |r.1| == |actions|
  {
    if actions == [] then (win, [])
    else
      var n := |actions| - 1;
      var (before, taken) := ExecutedAll(win, actions[..n]);
      (Executed(before, actions[n]), taken + [Snapshot(before, actions[n])])
  }

  /** Last to first. */
  function RevertedAll(win: Windows, actions: seq<Action>): (r: Windows)
    requires Complete(win) && AllFit(actions)
    ensures Complete(r) && r.Keys == win.Keys
  {
    if actions == [] then win
    else RevertedAll(Reverted(win, actions[|actions| - 1]), actions[..|actions| - 1])
  }

  // ----- undoing

  lemma SetGet(win: Windows, c: Cell, stack: Stack, d: Cell)
    requires Exists(win, c) && Exists(win, d)
    ensures Exists(Set(win, c, stack), d) && Get(Set(win, c, stack), d) == if c == d then stack else Get(win, d)
  {
  }

  lemma SameCells(a: Windows, b: Windows)
    requires a.Keys == b.Keys && forall w | w in a :: |a[w]| == |b[w]|
    requires forall c | Exists(a, c) :: Get(a, c) == Get(b, c)
    ensures a == b
  {
    forall w | w in a
      ensures a[w] == b[w]
    {
      forall i | 0 <= i < |a[w]|
        ensures a[w][i] == b[w][i]
      {
        assert Exists(a, Cell(w, i)) && Get(a, Cell(w, i)) == a[w][i];
      }
    }
  }

  lemma SetBackOne(win: Windows, c: Cell, s: Stack)
    requires Exists(win, c)
    ensures Set(Set(win, c, s), c, Get(win, c)) == win && Set(win, c, Get(win, c)) == win
  {
    SameCells(Set(Set(win, c, s), c, Get(win, c)), win);
    SameCells(Set(win, c, Get(win, c)), win);
  }

  /** Writing two cells, the same or not, is undone by writing their old contents in the same order. */
  lemma SetBack(win: Windows, src: Cell, dst: Cell, s: Stack, d: Stack)
    requires Exists(win, src) && Exists(win, dst)
    ensures Set(Set(Set(Set(win, src, s), dst, d), src, Get(win, src)), dst, Get(win, dst)) == win
    ensures Set(Set(win, src, Get(win, src)), dst, Get(win, dst)) == win
  {
    SetBackOne(win, src, s);
    SetBackOne(win, dst, s);
    SameCells(Set(Set(Set(Set(win, src, s), dst, d), src, Get(win, src)), dst, Get(win, dst)), win);
  }

  /** One action, undone from its own snapshot, leaves no trace; whatever its guards decided, and even when both
      of its cells are the same. */
  lemma ActionUndone(win: Windows, a: Action)
    requires Complete(win) && Fits(a)
    ensures Reverted(Executed(win, a), Snapshot(win, a)) == win
  {
    hide Set, Get;
    if Acts(win, a) {
      match a
      case Transfer(n, s, i, d, j, _, _, _) =>
        var src, dst := CellOf(s, i), CellOf(d, j);
        var from, to := Get(win, src), Get(win, dst);
        SetBack(win, src, dst, from.Grow(Minus(n)), (if to.Empty() then from.Grow(-MAX_INT32) else to).Grow(n));
      case Swap(s, i, d, j, _, _, _) =>
        SetBack(win, CellOf(s, i), CellOf(d, j), Get(win, CellOf(d, j)), Get(win, CellOf(s, i)));
      case Destroy(n, s, i, _, _) => SetBackOne(win, CellOf(s, i), Get(win, CellOf(s, i)).Grow(Minus(n)));
      case Create(d, j, stack, _, _) => SetBackOne(win, CellOf(d, j), stack);
    }
  }

  /** Executing any list of actions and undoing it backwards restores every cell of every window. */
  lemma {:induction false} ExecuteThenRevert(win: Windows, actions: seq<Action>)
    requires Complete(win) && AllFit(actions)
    ensures var (after, taken) := ExecutedAll(win, actions); RevertedAll(after, taken) == win
  {
    hide Executed, Reverted, Snapshot;
    if actions != [] {
      var n := |actions| - 1;
      var (before, taken) := ExecutedAll(win, actions[..n]);
      ExecuteThenRevert(win, actions[..n]);
      ActionUndone(before, actions[n]);
      assert (taken + [Snapshot(before, actions[n])])[..n] == taken;
    }
  }

  lemma ExecutedOneMore(win: Windows, actions: seq<Action>, i: nat)
    requires Complete(win) && AllFit(actions) && i < |actions|
    ensures Fits(actions[i]) && AllFit(actions[..i]) && AllFit(actions[..i + 1])
    ensures var (before, taken) := ExecutedAll(win, actions[..i]);
            ExecutedAll(win, actions[..i + 1]) == (Executed(before, actions[i]), taken + [Snapshot(before, actions[i])])
  {
    assert actions[..i + 1][..i] == actions[..i];
  }

  lemma RevertedOneMore(win: Windows, actions: seq<Action>, i: nat)
    requires Complete(win) && AllFit(actions) && i < |actions|
    ensures Fits(actions[i]) && AllFit(actions[..i]) && AllFit(actions[..i + 1]) && Complete(Reverted(win, actions[i]))
    ensures RevertedAll(win, actions[..i + 1]) == RevertedAll(Reverted(win, actions[i]), actions[..i])
  {
    assert actions[..i + 1][..i] == actions[..i];
  }

  lemma SingleAction(win: Windows, a: Action)
    requires Complete(win) && Fits(a)
    ensures ExecutedAll(win, [a]) == (Executed(win, a), [Snapshot(win, a)])
    ensures RevertedAll(win, [a]) == Reverted(win, a)
  {
    assert [a][..0] == [];
    assert ExecutedAll(win, []) == (win, []);
    assert [] + [Snapshot(win, a)] == [Snapshot(win, a)];
    assert RevertedAll(Reverted(win, a), []) == Reverted(win, a);
  }

  // ----- counting

  function ItemsTotal(items: Items): nat {
    if items == [] then 0 else ItemsTotal(items[..|items| - 1]) + items[|items| - 1].count
  }

  function TotalIn(win: Windows, w: Window): nat { if w in win then ItemsTotal(win[w]) else 0 }

  function Total(win: Windows): nat {
    TotalIn(win, Armour) + TotalIn(win, Main) + TotalIn(win, Offhand) + TotalIn(win, UI) + TotalIn(win, Alt)
  }

  lemma {:induction false} ItemsTotalSet(items: Items, i: nat, stack: Stack)
    requires i < |items|
    ensures ItemsTotal(items[i := stack]) == ItemsTotal(items) - items[i].count + stack.count
  {
    var n := |items| - 1;
    assert items[i := stack][..n] == if i < n then items[..n][i := stack] else items[..n];
    if i < n { ItemsTotalSet(items[..n], i, stack); }
  }

  lemma TotalSet(win: Windows, c: Cell, stack: Stack)
    requires Exists(win, c)
    ensures Total(Set(win, c, stack)) == Total(win) - Get(win, c).count + stack.count
  {
    forall w: Window
      ensures TotalIn(Set(win, c, stack), w)
           == TotalIn(win, w) + (if w == c.window then stack.count - Get(win, c).count else 0)
    {
      if w == c.window { ItemsTotalSet(win[w], c.slot, stack); }
    }
    hide TotalIn, Set, Get;
  }

  lemma {:induction false} ItemWithin(items: Items, i: nat)
    requires i < |items|
    ensures items[i].count <= ItemsTotal(items)
  {
    if i < |items| - 1 { ItemWithin(items[..|items| - 1], i); }
  }

  lemma StackWithin(win: Windows, c: Cell)
    requires Exists(win, c)
    ensures Get(win, c).count <= Total(win)
  {
    ItemWithin(win[c.window], c.slot);
    assert TotalIn(win, c.window) <= Total(win) by {
      match c.window case Armour => case Main => case Offhand => case UI => case Alt =>
    }
  }

  /** The guard of a transfer lets it through. */
  predicate Moves(win: Windows, count: nat, src: Cell)
    requires Exists(win, src)
  {
    !Get(win, src).Empty() && count <= Get(win, src).count
  }

  /** A transfer keeps the number of items exactly when it moves between two different cells, or moves nothing; one
      that names the same cell twice, under whatever IDs, adds its count out of nothing. */
  lemma TransferKeepsTotal(win: Windows, count: nat, src: Cell, dst: Cell)
    requires Exists(win, src) && Exists(win, dst) && Get(win, src).count <= MAX_INT32
    ensures Total(Moved(win, count, src, dst)) == Total(win) <==> src != dst || !Moves(win, count, src) || count == 0
    ensures src == dst && Moves(win, count, src) ==> Total(Moved(win, count, src, dst)) == Total(win) + count
  {
    hide Total;
    if Moves(win, count, src) {
      var s := Get(win, src);
      var base := if Get(win, dst).Empty() then s.Grow(-MAX_INT32) else Get(win, dst);
      var between := Set(win, src, s.Grow(Minus(count)));
      TotalSet(win, src, s.Grow(Minus(count)));
      SetGet(win, src, s.Grow(Minus(count)), dst);
      TotalSet(between, dst, base.Grow(count));
    }
  }

  /** A cell that two container IDs share: moving one item from it to itself makes one item more. */
  lemma SelfTransferCreatesItems(win: Windows, i: nat)
    requires Complete(win) && i < 36 && 0 < win[Main][i].count <= MAX_INT32
    ensures CellOf(HotBar, i) == CellOf(Inventory, i)
    ensures Total(Moved(win, 1, CellOf(HotBar, i), CellOf(Inventory, i))) == Total(win) + 1
  {
    TransferKeepsTotal(win, 1, CellOf(HotBar, i), CellOf(Inventory, i));
  }

  // ----- counting one kind of item

  function ItemsOf(items: Items, kind: int): nat {
    if items == [] then 0
    else
      var last := items[|items| - 1];
      ItemsOf(items[..|items| - 1], kind) + if last.kind == kind then last.count else 0
  }

  function KindIn(win: Windows, w: Window, kind: int): nat { if w in win then ItemsOf(win[w], kind) else 0 }

  function TotalOf(win: Windows, kind: int): nat {
    KindIn(win, Armour, kind) + KindIn(win, Main, kind) + KindIn(win, Offhand, kind) + KindIn(win, UI, kind)
    + KindIn(win, Alt, kind)
  }

  function CountOf(stack: Stack, kind: int): nat { if stack.kind == kind then stack.count else 0 }

  lemma {:induction false} ItemsOfSet(items: Items, i: nat, stack: Stack, kind: int)
    requires i < |items|
    ensures ItemsOf(items[i := stack], kind) == ItemsOf(items, kind) - CountOf(items[i], kind) + CountOf(stack, kind)
  {
    var n := |items| - 1;
    assert items[i := stack][..n] == if i < n then items[..n][i := stack] else items[..n];
    if i < n { ItemsOfSet(items[..n], i, stack, kind); }
  }

  lemma TotalOfSet(win: Windows, c: Cell, stack: Stack, kind: int)
    requires Exists(win, c)
    ensures TotalOf(Set(win, c, stack), kind) == TotalOf(win, kind) - CountOf(Get(win, c), kind) + CountOf(stack, kind)
  {
    forall w: Window
      ensures KindIn(Set(win, c, stack), w, kind)
           == KindIn(win, w, kind) + (if w == c.window then CountOf(stack, kind) - CountOf(Get(win, c), kind) else 0)
    {
      if w == c.window { ItemsOfSet(win[w], c.slot, stack, kind); }
    }
    hide KindIn, CountOf, Set, Get;
  }

  /** The merge does not look at kinds: a transfer between two cells keeps the number of items of every kind exactly
      when it moves nothing, or the destination is empty or holds the same kind.  Otherwise the moved items turn
      into the kind they land on. */
  lemma TransferKeepsKinds(win: Windows, count: nat, src: Cell, dst: Cell)
    requires Exists(win, src) && Exists(win, dst) && src != dst && Get(win, src).count <= MAX_INT32
    ensures (forall kind :: TotalOf(Moved(win, count, src, dst), kind) == TotalOf(win, kind))
       <==> !Moves(win, count, src) || count == 0 || Get(win, dst).Empty() || Get(win, dst).kind == Get(win, src).kind
  {
    hide TotalOf;
    if Moves(win, count, src) {
      var s, d := Get(win, src), Get(win, dst);
      var base := if d.Empty() then s.Grow(-MAX_INT32) else d;
      var between := Set(win, src, s.Grow(Minus(count)));
      SetGet(win, src, s.Grow(Minus(count)), dst);
      forall kind: int
        ensures TotalOf(Moved(win, count, src, dst), kind)
             == TotalOf(win, kind) - (if s.kind == kind then count else 0) + (if base.kind == kind then count else 0)
      {
        TotalOfSet(win, src, s.Grow(Minus(count)), kind);
        TotalOfSet(between, dst, base.Grow(count), kind);
      }
      assert TotalOf(Moved(win, count, src, dst), s.kind)
          == TotalOf(win, s.kind) - count + (if base.kind == s.kind then count else 0);
    }
  }

  // ----- whole requests

  lemma SwapKeepsTotal(win: Windows, src: Cell, dst: Cell)
    requires Exists(win, src) && Exists(win, dst)
    ensures Total(Set(Set(win, src, Get(win, dst)), dst, Get(win, src))) == Total(win)
  {
    hide Total;
    TotalSet(win, src, Get(win, dst));
    SetGet(win, src, Get(win, dst), dst);
    TotalSet(Set(win, src, Get(win, dst)), dst, Get(win, src));
  }

  /** A destroy takes exactly its count away, or nothing. */
  lemma DestroyTakesCount(win: Windows, a: Action)
    requires Complete(win) && Fits(a) && a.Destroy?
    ensures var c := CellOf(a.src, a.srcSlot);
            Total(Executed(win, a)) ==
            Total(win) - (if Acts(win, a) && a.count <= Get(win, c).count then a.count else 0)
  {
    hide Total;
    if Acts(win, a) {
      TotalSet(win, CellOf(a.src, a.srcSlot), Get(win, CellOf(a.src, a.srcSlot)).Grow(Minus(a.count)));
    }
  }

  /** Transfers between different cells, swaps, and actions without effect. */
  predicate Conserving(a: Action) {
    match a
    case Transfer(_, s, i, d, j, _, _, _) => CellOf(s, i) != CellOf(d, j)
    case Destroy(_, _, _, _, _) => false
    case Create(_, _, _, _, _) => false
    case _ => true
  }

  lemma ActionConserves(win: Windows, a: Action)
    requires Complete(win) && Fits(a) && Conserving(a) && Total(win) <= MAX_INT32
    ensures Total(Executed(win, a)) == Total(win)
  {
    hide Total, Moved, Set, Get;
    if Acts(win, a) {
      match a
      case Transfer(n, s, i, d, j, _, _, _) =>
        StackWithin(win, CellOf(s, i));
        TransferKeepsTotal(win, n, CellOf(s, i), CellOf(d, j));
      case Swap(s, i, d, j, _, _, _) => SwapKeepsTotal(win, CellOf(s, i), CellOf(d, j));
    }
  }

  /** A request of transfers between different cells and of swaps neither makes nor loses items, however its cells
      overlap and whichever of its actions the guards turn down. */
  lemma {:induction false} RequestConserves(win: Windows, actions: seq<Action>)
    requires Complete(win) && AllFit(actions) && Total(win) <= MAX_INT32
    requires forall i | 0 <= i < |actions| :: Conserving(actions[i])
    ensures Total(ExecutedAll(win, actions).0) == Total(win)
  {
    hide Total, Executed, Snapshot;
    if actions != [] {
      var n := |actions| - 1;
      RequestConserves(win, actions[..n]);
      ActionConserves(ExecutedAll(win, actions[..n]).0, actions[n]);
    }
  }
}
