/** What actions and requests do to the inventory, cell by cell. */
module InventoryEffects {
  import opened Common
  import opened InventoryModel
  import opened InventoryRequests

  // ----- actions

  /** A cell after a transfer between two different cells, for a source of at most 2^31-1 items. */
  predicate Transferred(win: Windows, n: nat, src: Cell, dst: Cell, c: Cell, now: Stack)
    requires Exists(win, src) && Exists(win, dst) && Exists(win, c)
  {
    var s, d := Get(win, src), Get(win, dst);
    now == if s.count == 0 || n > s.count then Get(win, c)
           else if c == src then Stack(s.kind, s.count - n)
           else if c == dst then Stack(if d.count == 0 then s.kind else d.kind, d.count + n)
           else Get(win, c)
  }

  /** Every cell after one action: what a transfer, a swap, a destroy or a create does to its own cells, and that it
      leaves all others alone. */
  predicate Effect(win: Windows, a: Action, c: Cell, now: Stack)
    requires Complete(win) && Fits(a) && Found(win, a) && Exists(win, c)
  {
    match a
    case Transfer(n, s, i, d, j, _, _, _) => Transferred(win, n, CellOf(s, i), CellOf(d, j), c, now)
    case Swap(s, i, d, j, _, _, _) =>
      now == Get(win, if c == CellOf(s, i) then CellOf(d, j) else if c == CellOf(d, j) then CellOf(s, i) else c)
    case Destroy(n, s, i, _, _) =>
      var was := Get(win, c);
      now == if c == CellOf(s, i) && n <= was.count then Stack(was.kind, was.count - n) else was
    case Create(d, j, stack, _, _) => now == if c == CellOf(d, j) then stack else Get(win, c)
    case _ => now == Get(win, c)
  }

  /** The transfer is between different cells and takes from a stack of at most 2^31-1 items. */
  predicate Plain(win: Windows, a: Action)
    requires Complete(win) && Fits(a) && Found(win, a)
  {
    a.Transfer? ==>
      CellOf(a.src, a.srcSlot) != CellOf(a.dst, a.dstSlot)
      && Get(win, CellOf(a.src, a.srcSlot)).count <= 0x7fff_ffff
  }

  lemma ActionEffect(win: Windows, a: Action, c: Cell)
    requires Complete(win) && Fits(a) && Exists(win, c)
    ensures Complete(Executed(win, a)) && Exists(Executed(win, a), c)
    ensures Found(win, a) && (a.Nop? || a.Unknown? || a.open) && Plain(win, a) ==>
              Effect(win, a, c, Get(Executed(win, a), c))
    ensures !Found(win, a) || (!a.Nop? && !a.open) ==> Executed(win, a) == win
  {
    hide Set, Get;
    if Acts(win, a) {
      match a
      case Transfer(n, s, i, d, j, _, _, _) =>
        var from, to := Get(win, CellOf(s, i)), Get(win, CellOf(d, j));
        TwoSet(win, CellOf(s, i), from.Grow(Minus(n)), CellOf(d, j),
               (if to.Empty() then from.Grow(-MAX_INT32) else to).Grow(n), c);
      case Swap(s, i, d, j, _, _, _) =>
        TwoSet(win, CellOf(s, i), Get(win, CellOf(d, j)), CellOf(d, j), Get(win, CellOf(s, i)), c);
      case Destroy(n, s, i, _, _) => OneSet(win, CellOf(s, i), Get(win, CellOf(s, i)).Grow(Minus(n)), c);
      case Create(d, j, stack, _, _) => OneSet(win, CellOf(d, j), stack, c);
    }
  }

  lemma OneSet(win: Windows, a: Cell, s: Stack, c: Cell)
    requires Complete(win) && Exists(win, a) && Exists(win, c)
    ensures Complete(Set(win, a, s)) && Exists(Set(win, a, s), c)
    ensures Get(Set(win, a, s), c) == if c == a then s else Get(win, c)
  {
    SetGet(win, a, s, c);
  }

  lemma TwoSet(win: Windows, a: Cell, s: Stack, b: Cell, d: Stack, c: Cell)
    requires Complete(win) && Exists(win, a) && Exists(win, b) && Exists(win, c)
    ensures Exists(Set(win, a, s), b)
    ensures var r := Set(Set(win, a, s), b, d);
      Complete(r) && Exists(r, c) && Get(r, c) == if c == b then d else if c == a then s else Get(win, c)
  {
    OneSet(win, a, s, b);
    OneSet(win, a, s, c);
    OneSet(Set(win, a, s), b, d, c);
  }

  /** A create changes the number of items by what it puts in place of what was there. */
  lemma CreateAdds(win: Windows, a: Action)
    requires Complete(win) && Fits(a) && a.Create? && a.open && Found(win, a)
    ensures Exists(win, CellOf(a.dst, a.dstSlot))
    ensures Total(Executed(win, a)) == Total(win) - Get(win, CellOf(a.dst, a.dstSlot)).count + a.stack.count
  {
    TotalSet(win, CellOf(a.dst, a.dstSlot), a.stack);
  }

  // ----- requests of one action

  /** The slots of a request are there. */
  predicate Reachable(win: Windows, id: Container, slot: nat) {
    WindowOf(id) in win && slot < |win[WindowOf(id)]|
  }

  lemma ReachableIsCell(win: Windows, id: Container, slot: nat)
    requires Complete(win) && Reachable(win, id, slot)
    ensures InBounds(id, slot) && Exists(win, CellOf(id, slot))
  {
  }

  lemma AskedOne(s: State, id: int, ask: Ask, a: Action)
    requires Inv(s) && Built(s.win, ask) == [a] && Fits(a)
    ensures Asked(s, id, [ask])
         == State(Executed(s.win, a), s.queue + [Request(id, [Snapshot(s.win, a)])], s.pendingSync)
  {
    SingleAsk(s.win, ask);
    SingleAction(s.win, a);
  }

  lemma AskedRuns(s: State, id: int, ask: Ask)
    requires Inv(s)
    ensures Asked(s, id, [ask]).win == ExecutedAll(s.win, Built(s.win, ask)).0
  {
    hide Executed, Snapshot, Built;
    SingleAsk(s.win, ask);
  }

  lemma AskedNone(s: State, id: int, ask: Ask)
    requires Inv(s) && Built(s.win, ask) == []
    ensures Asked(s, id, [ask]) == s
  {
    SingleAsk(s.win, ask);
  }

  /** A transfer moves its count from slot to slot if both are there and the source has it, and is forgotten
      otherwise. */
  lemma AskedTransfer(s: State, id: int, n: nat, src: Container, srcSlot: nat, dst: Container, dstSlot: nat, c: Cell)
    requires Inv(s) && Exists(s.win, c)
    requires Reachable(s.win, src, srcSlot) && Reachable(s.win, dst, dstSlot) ==>
               CellOf(src, srcSlot) != CellOf(dst, dstSlot) && Exists(s.win, CellOf(src, srcSlot))
               && Get(s.win, CellOf(src, srcSlot)).count <= 0x7fff_ffff
    ensures var t := Asked(s, id, [AskTransfer(n, src, srcSlot, dst, dstSlot)]);
      if Reachable(s.win, src, srcSlot) && Reachable(s.win, dst, dstSlot) then
        && |t.queue| == |s.queue| + 1 && Exists(s.win, CellOf(dst, dstSlot)) && Exists(t.win, c)
        && Transferred(s.win, n, CellOf(src, srcSlot), CellOf(dst, dstSlot), c, Get(t.win, c))
      else t == s
  {
    hide Asked, Executed, Snapshot, Transferred, Get;
    var ask := AskTransfer(n, src, srcSlot, dst, dstSlot);
    if Reachable(s.win, src, srcSlot) && Reachable(s.win, dst, dstSlot) {
      ReachableIsCell(s.win, src, srcSlot);
      ReachableIsCell(s.win, dst, dstSlot);
      var a := Built(s.win, ask)[0];
      AskedOne(s, id, ask, a);
      ActionEffect(s.win, a, c);
    } else {
      AskedNone(s, id, ask);
    }
  }

  /** A swap exchanges two slots if both are there. */
  lemma AskedSwap(s: State, id: int, src: Container, srcSlot: nat, dst: Container, dstSlot: nat, c: Cell)
    requires Inv(s) && Exists(s.win, c)
    ensures var t := Asked(s, id, [AskSwap(src, srcSlot, dst, dstSlot)]);
      if Reachable(s.win, src, srcSlot) && Reachable(s.win, dst, dstSlot) then
        && |t.queue| == |s.queue| + 1 && Exists(t.win, c)
        && var (a, b) := (CellOf(src, srcSlot), CellOf(dst, dstSlot));
           Exists(s.win, a) && Exists(s.win, b)
           && Get(t.win, c) == Get(s.win, if c == a then b else if c == b then a else c)
      else t == s
  {
    hide Asked, Executed, Snapshot, Get;
    var ask := AskSwap(src, srcSlot, dst, dstSlot);
    if Reachable(s.win, src, srcSlot) && Reachable(s.win, dst, dstSlot) {
      ReachableIsCell(s.win, src, srcSlot);
      ReachableIsCell(s.win, dst, dstSlot);
      var a := Built(s.win, ask)[0];
      AskedOne(s, id, ask, a);
      ActionEffect(s.win, a, c);
    } else {
      AskedNone(s, id, ask);
    }
  }

  /** A destroy or drop takes its count from a slot that is there and has it. */
  lemma AskedDestroyTakes(s: State, id: int, n: nat, src: Container, srcSlot: nat, c: Cell)
    requires Inv(s) && Exists(s.win, c)
    ensures var t := Asked(s, id, [AskDestroy(n, src, srcSlot)]);
      if Reachable(s.win, src, srcSlot) then
        && |t.queue| == |s.queue| + 1 && Exists(t.win, c)
        && var was := Get(s.win, c);
           Get(t.win, c) == if c == CellOf(src, srcSlot) && n <= was.count then Stack(was.kind, was.count - n) else was
      else t == s
  {
    hide Asked, Executed, Snapshot, Get;
    var ask := AskDestroy(n, src, srcSlot);
    if Reachable(s.win, src, srcSlot) {
      ReachableIsCell(s.win, src, srcSlot);
      var a := Built(s.win, ask)[0];
      AskedOne(s, id, ask, a);
      ActionEffect(s.win, a, c);
    } else {
      AskedNone(s, id, ask);
    }
  }

  /** In creative mode the output slot holds the item asked for, and no other slot changes. */
  lemma AskedCreativeGives(s: State, id: int, item: Option<Stack>, c: Cell)
    requires Inv(s) && Exists(s.win, c)
    ensures var t := Asked(s, id, [AskCreative(item)]);
      if item.Some? then
        && |t.queue| == |s.queue| + 1 && Exists(t.win, c)
        && Get(t.win, c) == if c == Cell(UI, 50) then item.value else Get(s.win, c)
      else t == s
  {
    hide Asked, Executed, Snapshot, Get;
    if item.Some? {
      AskedOne(s, id, AskCreative(item), CreateOf(item.value));
      ActionEffect(s.win, CreateOf(item.value), c);
    } else {
      AskedNone(s, id, AskCreative(item));
    }
  }

  /** An action that was given up does nothing any more, done or undone. */
  lemma ClosedDoesNothing(win: Windows, a: Action)
    requires Complete(win) && Fits(a)
    ensures var closed := ClosedAction(a);
      && Fits(closed) && Executed(win, closed) == win && Reverted(win, closed) == win && !AsksForSync(closed)
      && (Acts(win, a) ==> closed != a)
  {
  }

  /** An answer makes the server send everything again only if it refuses an action of unknown kind. */
  lemma OnlyUnknownSyncs(s: State, ok: bool)
    requires Inv(s) && s.queue != []
    ensures Answered(s, ok).pendingSync <==> s.pendingSync || (!ok && Unknown(true) in s.queue[0].actions)
  {
  }

  /** An action of unknown kind changes nothing, and makes the server send everything again if it is refused. */
  lemma AskedUnknownSyncs(s: State, id: int)
    requires Inv(s) && s.queue == []
    ensures var t := Asked(s, id, [AskUnknown]);
      && t.win == s.win && |t.queue| == 1 && t.pendingSync == s.pendingSync
      && Responded(t, [Response(id, false)]).pendingSync
      && Responded(t, [Response(id, true)]).pendingSync == s.pendingSync
      && Responded(t, [Response(id, false)]).win == s.win
  {
    AskedOne(s, id, AskUnknown, Unknown(true));
    var t := Asked(s, id, [AskUnknown]);
    RefusedRequestLeavesNoTrace(s, id, [AskUnknown]);
    assert t.queue[0].actions == [Unknown(true)] && Unknown(true) in t.queue[0].actions;
    assert AsksForSync(Unknown(true)) && WantsSync(t.queue[0].actions);
    assert Responded(t, [Response(id, false)]) == Responded(Answered(t, false), []);
    assert Responded(t, [Response(id, true)]) == Responded(Answered(t, true), []);
  }

  // ----- crafts

  lemma {:induction false} ExecutedAppends(win: Windows, a: seq<Action>, b: seq<Action>)
    requires Complete(win) && AllFit(a) && AllFit(b)
    ensures AllFit(a + b) && ExecutedAll(win, a + b).0 == ExecutedAll(ExecutedAll(win, a).0, b).0
  {
    hide Executed, Snapshot;
    if b == [] {
      assert a + b == a;
    } else {
      assert (a + b)[..|a + b| - 1] == a + b[..|b| - 1];
      ExecutedAppends(win, a, b[..|b| - 1]);
    }
  }

  /** So many items of a stack are gone. */
  predicate Lost(was: Stack, now: Stack, n: nat) { now.kind == was.kind && now.count + n == was.count }

  /** Destroys from different slots, each of which has enough, all happen. */
  lemma {:induction false} DestroysTake(win: Windows, destroys: seq<Action>, consumed: set<nat>, c: Cell)
    requires Complete(win) && AllFit(destroys) && TakesApart(win[UI], destroys, consumed) && Exists(win, c)
    ensures var after := ExecutedAll(win, destroys).0;
      && Exists(after, c)
      && (forall i | 0 <= i < |destroys| && c == Cell(UI, destroys[i].srcSlot) ::
            Lost(Get(win, c), Get(after, c), destroys[i].count))
      && ((forall i | 0 <= i < |destroys| :: c != Cell(UI, destroys[i].srcSlot)) ==> Get(after, c) == Get(win, c))
  {
    hide Executed, Snapshot, Takes;
    if destroys != [] {
      var n := |destroys| - 1;
      var pre, a := destroys[..n], destroys[n];
      TakesFewer(win[UI], destroys, consumed, n);
      DestroysTake(win, pre, consumed, c);
      OneDestroy(ExecutedAll(win, pre).0, win[UI], a, consumed, c);
    }
  }

  lemma TakesFewer(items: Items, destroys: seq<Action>, consumed: set<nat>, n: nat)
    requires TakesApart(items, destroys, consumed) && n < |destroys|
    ensures TakesApart(items, destroys[..n], consumed) && Takes(items, destroys[n], consumed) && destroys[n].Destroy?
    ensures forall i | 0 <= i < n :: destroys[i].Destroy? && destroys[i].srcSlot != destroys[n].srcSlot
  {
    forall i | 0 <= i < n
      ensures Takes(items, destroys[..n][i], consumed) && destroys[i].Destroy?
    {
      assert Takes(items, destroys[i], consumed);
    }
    assert Takes(items, destroys[n], consumed);
  }

  lemma OneDestroy(win: Windows, items: Items, a: Action, consumed: set<nat>, c: Cell)
    requires Complete(win) && Fits(a) && Takes(items, a, consumed) && Exists(win, c) && |items| == Size(UI)
    ensures Exists(Executed(win, a), c)
    ensures c != Cell(UI, a.srcSlot) ==> Get(Executed(win, a), c) == Get(win, c)
    ensures c == Cell(UI, a.srcSlot) && Get(win, c) == items[a.srcSlot] ==>
              Lost(Get(win, c), Get(Executed(win, a), c), a.count)
  {
    hide Executed;
    ActionEffect(win, a, c);
  }

  /** Of several results the last one is left in the output slot. */
  lemma {:induction false} CreatesFill(win: Windows, outputs: seq<Stack>, c: Cell)
    requires Complete(win) && Exists(win, c)
    ensures var after := ExecutedAll(win, CreatesOf(outputs)).0;
      && Exists(after, c)
      && Get(after, c) == if c == Cell(UI, 50) && outputs != [] then outputs[|outputs| - 1] else Get(win, c)
  {
    hide Executed, Snapshot;
    if outputs != [] {
      var n := |outputs| - 1;
      assert CreatesOf(outputs)[..n] == CreatesOf(outputs[..n]);
      CreatesFill(win, outputs[..n], c);
      ActionEffect(ExecutedAll(win, CreatesOf(outputs[..n])).0, CreateOf(outputs[n]), c);
    }
  }

  /** What a craft leaves in a cell, if `served` tells which ingredient each of the `slots` of the grid served. */
  ghost predicate CraftEffect(
    win: Windows, after: Windows, recipe: Recipe, crafts: nat, slots: seq<nat>, served: seq<nat>, allowed: bool,
    c: Cell)
    requires Exists(win, c) && Exists(after, c) && |slots| == |served|
    requires forall i | 0 <= i < |served| :: served[i] < |recipe.inputs|
  {
    if allowed && recipe.outputs != [] && c == Cell(UI, 50) then
      Get(after, c) == recipe.outputs[|recipe.outputs| - 1]
    else
      && (forall i | 0 <= i < |slots| && c == Cell(UI, slots[i]) ::
            Lost(Get(win, c), Get(after, c), recipe.inputs[served[i]].count * crafts))
      && ((forall i | 0 <= i < |slots| :: c != Cell(UI, slots[i])) ==> Get(after, c) == Get(win, c))
  }

  /** A craft takes each ingredient that it finds out of its own slot of the grid, in the order of the recipe; if all
      are found, and only then, the output slot holds the last result.  No other cell changes. */
  lemma CraftMakes(s: State, id: int, recipe: Recipe, crafts: int, c: Cell)
    returns (slots: seq<nat>, served: seq<nat>, allowed: bool)
    requires Inv(s) && Exists(s.win, c) && recipe.atTable && crafts >= 1
    ensures |slots| == |served| && (forall i | 0 <= i < |served| :: served[i] < |recipe.inputs|)
    ensures forall i | 0 <= i < |slots| ::
              if Alt in s.win then 32 <= slots[i] < 41 else 28 <= slots[i] < 32
    ensures allowed <==> FindsAll(s.win[UI], GridOffset(s.win), GridSize(s.win), recipe.inputs, crafts)
    ensures allowed <==> |slots| == Needed(recipe.inputs)
    ensures var t := Asked(s, id, [AskCraft(Some(recipe), crafts)]);
      Exists(t.win, c) && CraftEffect(s.win, t.win, recipe, crafts, slots, served, allowed, c)
  {
    hide Executed, Snapshot, ExecutedAll, Crafted, FindsAll, FindsNone, Get, Exists;
    var win := s.win;
    var offset, size := GridOffset(win), GridSize(win);
    var cr := Crafted(win[UI], offset, size, recipe.inputs, crafts);
    CraftTakesApart(win[UI], offset, size, recipe.inputs, crafts);
    CraftFinds(win[UI], offset, size, recipe.inputs, crafts);
    CraftInGrid(win[UI], offset, size, recipe.inputs, crafts);
    served := CraftServes(win[UI], offset, size, recipe.inputs, crafts);
    allowed := cr.allowed;
    slots := seq(|cr.destroys|, i requires 0 <= i < |cr.destroys| && InGrid(cr.destroys[i], offset, size) =>
      cr.destroys[i].srcSlot);
    CraftLeaves(win, recipe, crafts, c);
    AskedRuns(s, id, AskCraft(Some(recipe), crafts));
    forall i | 0 <= i < |slots|
      ensures cr.destroys[i].Destroy? && slots[i] == cr.destroys[i].srcSlot
      ensures cr.destroys[i].count == recipe.inputs[served[i]].count * crafts
    {
      assert InGrid(cr.destroys[i], offset, size);
      assert ServedBy(win[UI], cr.destroys[i], recipe.inputs[served[i]], crafts);
    }
    assert Built(win, AskCraft(Some(recipe), crafts)) == CraftActions(win, recipe, crafts);
    var after := Asked(s, id, [AskCraft(Some(recipe), crafts)]).win;
    if !(allowed && recipe.outputs != [] && c == Cell(UI, 50)) {
      if forall i | 0 <= i < |slots| :: c != Cell(UI, slots[i]) {
        forall i | 0 <= i < |cr.destroys| && cr.destroys[i].Destroy?
          ensures c != Cell(UI, cr.destroys[i].srcSlot)
        {
          assert slots[i] == cr.destroys[i].srcSlot;
        }
        assert Get(after, c) == Get(win, c);
      }
      forall i | 0 <= i < |slots| && c == Cell(UI, slots[i])
        ensures Lost(Get(win, c), Get(after, c), recipe.inputs[served[i]].count * crafts)
      {
        assert c == Cell(UI, cr.destroys[i].srcSlot);
      }
    }
  }

  predicate InGrid(a: Action, offset: nat, size: nat) { a.Destroy? && offset <= a.srcSlot < offset + size }

  lemma {:induction false} CraftInGrid(ui: Items, offset: nat, size: nat, inputs: seq<Expected>, crafts: nat)
    requires offset + size <= |ui| == Size(UI)
    ensures forall i | 0 <= i < |Crafted(ui, offset, size, inputs, crafts).destroys| ::
              InGrid(Crafted(ui, offset, size, inputs, crafts).destroys[i], offset, size)
  {
    if inputs != [] { CraftInGrid(ui, offset, size, inputs[..|inputs| - 1], crafts); }
  }

  lemma CraftLeaves(win: Windows, recipe: Recipe, crafts: int, c: Cell)
    requires Complete(win) && Exists(win, c) && recipe.atTable && crafts >= 1
    ensures var cr := Crafted(win[UI], GridOffset(win), GridSize(win), recipe.inputs, crafts);
            var after := ExecutedAll(win, CraftActions(win, recipe, crafts)).0;
      && Exists(after, c)
      && (if cr.allowed && recipe.outputs != [] && c == Cell(UI, 50) then
            Get(after, c) == recipe.outputs[|recipe.outputs| - 1]
          else
            && (forall i | 0 <= i < |cr.destroys| && cr.destroys[i].Destroy? && c == Cell(UI, cr.destroys[i].srcSlot) ::
                  Lost(Get(win, c), Get(after, c), cr.destroys[i].count))
            && ((forall i | 0 <= i < |cr.destroys| && cr.destroys[i].Destroy? :: c != Cell(UI, cr.destroys[i].srcSlot))
                  ==> Get(after, c) == Get(win, c)))
  {
    hide Executed, Snapshot, ExecutedAll, Crafted, Get, Exists;
    var cr := Crafted(win[UI], GridOffset(win), GridSize(win), recipe.inputs, crafts);
    CraftTakesApart(win[UI], GridOffset(win), GridSize(win), recipe.inputs, crafts);
    forall i | 0 <= i < |cr.destroys|
      ensures cr.destroys[i].Destroy?
    {
      assert Takes(win[UI], cr.destroys[i], cr.consumed);
    }
    DestroysTake(win, cr.destroys, cr.consumed, c);
    var outputs := if cr.allowed then recipe.outputs else [];
    CreatesFill(ExecutedAll(win, cr.destroys).0, outputs, c);
    ExecutedAppends(win, cr.destroys, CreatesOf(outputs));
    assert CraftActions(win, recipe, crafts) == cr.destroys + CreatesOf(outputs);
  }

  /** Away from the table, or for no crafts, nothing happens. */
  lemma NoCraft(s: State, id: int, recipe: Option<Recipe>, crafts: int)
    requires Inv(s) && (recipe.None? || !recipe.value.atTable || crafts < 1)
    ensures Asked(s, id, [AskCraft(recipe, crafts)]) == s
  {
    AskedNone(s, id, AskCraft(recipe, crafts));
  }

  // ----- containers

  /** Which container IDs show the same cells: three stand for the player's user interface, three for the main
      inventory; the off hand has one cell under two slots. */
  lemma SharedCells(a: Container, i: int, b: Container, j: int)
    requires InBounds(a, i) && InBounds(b, j) && a != b
    requires !a.OtherContainer? || !b.OtherContainer?
    ensures CellOf(a, i) == CellOf(b, j) <==>
      i == j && (({a, b} <= {CraftingInput, CreatedOutput, Cursor})
                 || ({a, b} <= {HotBar, Inventory, CombinedHotBarAndInventory}))
  {
  }

  /** The slots of the containers, and the one slot with two names. */
  lemma SlotsOf(id: Container, slot: int)
    ensures var size := if id in {CraftingInput, CreatedOutput, Cursor} then 54
                        else if id in {HotBar, Inventory, CombinedHotBarAndInventory} then 36
                        else if id == OffhandContainer then 1 else if id == ArmorContainer then 4 else 64;
            InBounds(id, slot) <==> 0 <= slot < size
    ensures CellOf(id, slot).slot == if id == OffhandContainer && slot == 1 then 0 else slot
  {
  }

  /** A session starts without items. */
  lemma NothingAtFirst(kind: int)
    ensures Total(START.win) == 0 && TotalOf(START.win, kind) == 0
  {
    forall w | w in START.win
      ensures ItemsTotal(START.win[w]) == 0 && ItemsOf(START.win[w], kind) == 0
    {
      EmptyItems(Size(w), kind);
    }
  }

  lemma {:induction false} EmptyItems(n: nat, kind: int)
    ensures ItemsTotal(seq(n, _ => Stack(0, 0))) == 0 && ItemsOf(seq(n, _ => Stack(0, 0)), kind) == 0
  {
    var items := seq(n, _ => Stack(0, 0));
    if n > 0 {
      assert items[..n - 1] == seq(n - 1, _ => Stack(0, 0));
      EmptyItems(n - 1, kind);
    }
  }

  /** Windows come and go empty, and the server writes into slots that are there. */
  lemma WindowEvents(s: State, c: Cell, d: Cell, stack: Stack)
    requires Inv(s)
    ensures var t := Happened(s, OpensWindow);
      && t == s.(win := t.win)
      && (Exists(t.win, c) <==> if c.window.Alt? then 0 <= c.slot < 64 else Exists(s.win, c))
      && (Exists(t.win, c) ==> Get(t.win, c) == if c.window.Alt? then Stack(0, 0) else Get(s.win, c))
    ensures var t := Happened(s, ClosesWindow);
      && t == s.(win := t.win)
      && (Exists(t.win, c) <==> !c.window.Alt? && Exists(s.win, c))
      && (Exists(t.win, c) ==> Get(t.win, c) == Get(s.win, c))
    ensures var t := Happened(s, ServerWrites(d, stack));
      && t == s.(win := t.win)
      && (Exists(t.win, c) <==> Exists(s.win, c))
      && (Exists(t.win, c) ==> Get(t.win, c) == if c == d then stack else Get(s.win, c))
  {
  }

  /** Two requests that are both refused: undoing the second, which ran again, leaves exactly what undoing the first
      had left. */
  lemma BothRefused(s: State)
    requires Inv(s) && |s.queue| == 2
    ensures var t := Answered(Answered(s, false), false);
            t.queue == [] && t.win == RevertedAll(s.win, s.queue[0].actions)
  {
    var undone := RevertedAll(s.win, s.queue[0].actions);
    ExecuteThenRevert(undone, s.queue[1].actions);
    var t := Answered(s, false);
    assert t.queue == [s.queue[1].(actions := ExecutedAll(undone, s.queue[1].actions).1)];
  }
}
