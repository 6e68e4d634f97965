/** Item stack requests on values: what a request asks for becomes a list of actions, executed at once and queued
    until the server answers.  Answers must come in the order of the requests. */
module InventoryRequests {
  import opened Common
  import opened InventoryModel

  /** An ingredient: which kinds of item will do, and how many for one craft. */
  datatype Expected = Expected(kinds: set<int>, count: nat)

  datatype Recipe = Recipe(atTable: bool, inputs: seq<Expected>, outputs: seq<Stack>)

  datatype Ask =
    | AskTransfer(count: nat, src: Container, srcSlot: nat, dst: Container, dstSlot: nat)
    | AskSwap(src: Container, srcSlot: nat, dst: Container, dstSlot: nat)
    | AskDestroy(count: nat, src: Container, srcSlot: nat)
    | AskCreative(item: Option<Stack>)          // nothing outside creative mode, and for unknown items
    | AskCraft(recipe: Option<Recipe>, crafts: int)
    | AskNothing
    | AskUnknown

  // ----- crafting

  const OUTPUT_SLOT := 50

  function GridOffset(win: Windows): nat { if Alt in win then 32 else 28 }

  function GridSize(win: Windows): nat { if Alt in win then 9 else 4 }

  predicate Serves(stack: Stack, expected: Expected, crafts: int) {
    !stack.Empty() && stack.count >= expected.count * crafts && stack.kind in expected.kinds
  }

  /** The first slot of the crafting grid, from some slot on, that is not consumed and serves the ingredient. */
  function FirstServing(items: Items, from: nat, end: nat, consumed: set<nat>, expected: Expected, crafts: int)
    : (r: Option<nat>)
    requires from <= end <= |items|
    ensures r.Some? ==> from <= r.value < end && r.value !in consumed && Serves(items[r.value], expected, crafts)
    ensures forall k | from <= k < (if r.Some? then r.value else end) ::
        k in consumed || !Serves(items[k], expected, crafts)
    decreases end - from
  {
    if from == end then None
    else if from !in consumed && Serves(items[from], expected, crafts) then Some(from)
    else FirstServing(items, from + 1, end, consumed, expected, crafts)
  }

  datatype Crafting = Crafting(destroys: seq<Action>, consumed: set<nat>, allowed: bool)

  function DestroyAt(slot: nat, count: nat, stack: Stack): Action { Destroy(count, CraftingInput, slot, stack, true) }

  function Crafted(ui: Items, offset: nat, size: nat, inputs: seq<Expected>, crafts: nat): (r: Crafting)
    requires offset + size <= |ui| == Size(UI)
    ensures AllFit(r.destroys)
  {
    if inputs == [] then Crafting([], {}, true)
    else
      var r := Crafted(ui, offset, size, inputs[..|inputs| - 1], crafts);
      var e := inputs[|inputs| - 1];
      if e.count == 0 then r
      else
        match FirstServing(ui, offset, offset + size, r.consumed, e, crafts)
        case None => r.(allowed := false)
        case Some(slot) =>
          Crafting(r.destroys + [DestroyAt(slot, e.count * crafts, ui[slot])], r.consumed + {slot}, r.allowed)
  }

  function CreateOf(stack: Stack): Action { Create(CreatedOutput, OUTPUT_SLOT, stack, Stack(0, 0), true) }

  function CreatesOf(outputs: seq<Stack>): seq<Action> {
    seq(|outputs|, i requires 0 <= i < |outputs| => CreateOf(outputs[i]))
  }

  function CraftActions(win: Windows, recipe: Recipe, crafts: int): (r: seq<Action>)
    requires Complete(win)
    ensures AllFit(r)
  {
    if !recipe.atTable || crafts < 1 then []
    else
      var c := Crafted(win[UI], GridOffset(win), GridSize(win), recipe.inputs, crafts);
      c.destroys + if c.allowed then CreatesOf(recipe.outputs) else []
  }

  /** Destroys from different slots of the grid, each of which is consumed and holds enough when its turn comes. */
  ghost predicate TakesApart(items: Items, destroys: seq<Action>, consumed: set<nat>) {
    && (forall i | 0 <= i < |destroys| :: Takes(items, destroys[i], consumed))
    && (forall i, j | 0 <= i < j < |destroys| && destroys[i].Destroy? && destroys[j].Destroy? ::
          destroys[i].srcSlot != destroys[j].srcSlot)
  }

  predicate Takes(items: Items, a: Action, consumed: set<nat>) {
    a.Destroy? && a.open && a.src == CraftingInput && 0 <= a.srcSlot < |items| && a.srcSlot in consumed
      && a.count <= items[a.srcSlot].count
  }

  lemma TakesOneMore(items: Items, destroys: seq<Action>, consumed: set<nat>, slot: nat, count: nat)
    requires TakesApart(items, destroys, consumed) && slot !in consumed && slot < |items| && count <= items[slot].count
    ensures TakesApart(items, destroys + [DestroyAt(slot, count, items[slot])], consumed + {slot})
  {
    var more, a := destroys + [DestroyAt(slot, count, items[slot])], DestroyAt(slot, count, items[slot]);
    forall i | 0 <= i < |more|
      ensures Takes(items, more[i], consumed + {slot}) && (i < |destroys| ==> Takes(items, more[i], consumed))
    {
      if i < |destroys| { assert Takes(items, destroys[i], consumed); }
    }
  }

  /** The stack is of a kind that will do, and there is enough of it. */
  predicate Offers(stack: Stack, e: Expected, crafts: nat) {
    stack.count > 0 && stack.count >= e.count * crafts && stack.kind in e.kinds
  }

  /** An ingredient finds a slot of the grid when its turn comes, after the ones before it took theirs. */
  predicate Finds(ui: Items, offset: nat, size: nat, inputs: seq<Expected>, crafts: nat, k: nat)
    requires offset + size <= |ui| == Size(UI) && k < |inputs|
  {
    var consumed, e := Crafted(ui, offset, size, inputs[..k], crafts).consumed, inputs[k];
    exists slot :: offset <= slot < offset + size && slot !in consumed && Offers(ui[slot], e, crafts)
  }

  ghost predicate FindsAll(ui: Items, offset: nat, size: nat, inputs: seq<Expected>, crafts: nat)
    requires offset + size <= |ui| == Size(UI)
  {
    forall k | 0 <= k < |inputs| && inputs[k].count != 0 :: Finds(ui, offset, size, inputs, crafts, k)
  }

  ghost predicate FindsNone(ui: Items, offset: nat, size: nat, inputs: seq<Expected>, crafts: nat)
    requires offset + size <= |ui| == Size(UI)
  {
    forall k | 0 <= k < |inputs| && inputs[k].count != 0 :: !Finds(ui, offset, size, inputs, crafts, k)
  }

  /** How many ingredients a recipe needs. */
  function Needed(inputs: seq<Expected>): nat {
    if inputs == [] then 0 else Needed(inputs[..|inputs| - 1]) + if inputs[|inputs| - 1].count != 0 then 1 else 0
  }

  lemma FindsEarlier(ui: Items, offset: nat, size: nat, inputs: seq<Expected>, crafts: nat, k: nat)
    requires offset + size <= |ui| == Size(UI) && k < |inputs| - 1
    ensures Finds(ui, offset, size, inputs, crafts, k) == Finds(ui, offset, size, inputs[..|inputs| - 1], crafts, k)
  {
    assert inputs[..|inputs| - 1][..k] == inputs[..k];
  }

  /** A craft is allowed if and only if every ingredient finds a slot, and destroys nothing if and only if none does. */
  lemma {:induction false} CraftFinds(ui: Items, offset: nat, size: nat, inputs: seq<Expected>, crafts: nat)
    requires offset + size <= |ui| == Size(UI)
    ensures var c := Crafted(ui, offset, size, inputs, crafts);
      && (c.allowed <==> FindsAll(ui, offset, size, inputs, crafts))
      && (c.destroys == [] <==> FindsNone(ui, offset, size, inputs, crafts))
      && |c.destroys| <= Needed(inputs)
      && (|c.destroys| == Needed(inputs) <==> FindsAll(ui, offset, size, inputs, crafts))
  {
    hide FirstServing, FindsAll, FindsNone;
    if inputs == [] {
      NothingToFind(ui, offset, size, crafts);
    } else {
      CraftFinds(ui, offset, size, inputs[..|inputs| - 1], crafts);
      FindsOneMore(ui, offset, size, inputs, crafts);
    }
  }

  lemma NothingToFind(ui: Items, offset: nat, size: nat, crafts: nat)
    requires offset + size <= |ui| == Size(UI)
    ensures FindsAll(ui, offset, size, [], crafts) && FindsNone(ui, offset, size, [], crafts)
  {
  }

  lemma FindsOneMore(ui: Items, offset: nat, size: nat, inputs: seq<Expected>, crafts: nat)
    requires offset + size <= |ui| == Size(UI) && inputs != []
    ensures var n := |inputs| - 1;
      var last := Finds(ui, offset, size, inputs, crafts, n);
      && (FindsAll(ui, offset, size, inputs, crafts)
          <==> FindsAll(ui, offset, size, inputs[..n], crafts) && (inputs[n].count != 0 ==> last))
      && (FindsNone(ui, offset, size, inputs, crafts)
          <==> FindsNone(ui, offset, size, inputs[..n], crafts) && (inputs[n].count != 0 ==> !last))
  {
    hide Finds;
    var n := |inputs| - 1;
    forall k | 0 <= k < n
      ensures inputs[k] == inputs[..n][k]
      ensures Finds(ui, offset, size, inputs, crafts, k) == Finds(ui, offset, size, inputs[..n], crafts, k)
    {
      FindsEarlier(ui, offset, size, inputs, crafts, k);
    }
  }

  /** A craft destroys what it needs and creates the results, or does nothing at all. */
  ghost predicate AllOrNothing(recipe: Recipe, actions: seq<Action>) {
    actions == [] ||
    (|actions| == Needed(recipe.inputs) + |recipe.outputs|
     && (forall i | 0 <= i < Needed(recipe.inputs) :: actions[i].Destroy?)
     && actions[Needed(recipe.inputs)..] == CreatesOf(recipe.outputs))
  }

  /** A craft is all or nothing if and only if all of its ingredients find a slot or none does. */
  lemma CraftIsAllOrNothing(win: Windows, recipe: Recipe, crafts: int)
    requires Complete(win) && recipe.atTable && crafts >= 1
    ensures AllOrNothing(recipe, CraftActions(win, recipe, crafts))
       <==> || FindsAll(win[UI], GridOffset(win), GridSize(win), recipe.inputs, crafts)
            || FindsNone(win[UI], GridOffset(win), GridSize(win), recipe.inputs, crafts)
  {
    hide FindsAll, FindsNone, Crafted;
    var c := Crafted(win[UI], GridOffset(win), GridSize(win), recipe.inputs, crafts);
    CraftFinds(win[UI], GridOffset(win), GridSize(win), recipe.inputs, crafts);
    var served := CraftServes(win[UI], GridOffset(win), GridSize(win), recipe.inputs, crafts);
    var actions := CraftActions(win, recipe, crafts);
    if c.allowed {
      assert actions[|c.destroys|..] == CreatesOf(recipe.outputs);
    } else {
      assert actions == c.destroys;
    }
  }

  /** The destroy takes what the ingredient asks for from a slot that has it. */
  predicate ServedBy(ui: Items, a: Action, e: Expected, crafts: nat) {
    && a.Destroy? && a.src == CraftingInput && 0 <= a.srcSlot < |ui| && a.count == e.count * crafts
    && Offers(ui[a.srcSlot], e, crafts)
  }

  /** Each destroy of a craft serves an ingredient that is needed, in the order of the recipe. */
  lemma {:induction false} CraftServes(ui: Items, offset: nat, size: nat, inputs: seq<Expected>, crafts: nat)
    returns (served: seq<nat>)
    requires offset + size <= |ui| == Size(UI)
    ensures var c := Crafted(ui, offset, size, inputs, crafts);
      && |served| == |c.destroys|
      && (forall i | 0 <= i < |served| :: served[i] < |inputs|
           && ServedBy(ui, c.destroys[i], inputs[served[i]], crafts))
      && (forall i, j | 0 <= i < j < |served| :: served[i] < served[j])
  {
    served := [];
    if inputs != [] {
      var n := |inputs| - 1;
      var r, e := Crafted(ui, offset, size, inputs[..n], crafts), inputs[n];
      served := CraftServes(ui, offset, size, inputs[..n], crafts);
      var slot := FirstServing(ui, offset, offset + size, r.consumed, e, crafts);
      if e.count != 0 && slot.Some? {
        var a := DestroyAt(slot.value, e.count * crafts, ui[slot.value]);
        assert ServedBy(ui, a, e, crafts);
        var c := Crafted(ui, offset, size, inputs, crafts);
        assert c.destroys == r.destroys + [a];
        forall i | 0 <= i < |served|
          ensures ServedBy(ui, c.destroys[i], inputs[served[i]], crafts)
        {
          assert ServedBy(ui, r.destroys[i], inputs[..n][served[i]], crafts);
        }
        served := served + [n];
      } else {
        forall i | 0 <= i < |served|
          ensures ServedBy(ui, r.destroys[i], inputs[served[i]], crafts)
        {
          assert ServedBy(ui, r.destroys[i], inputs[..n][served[i]], crafts);
        }
      }
    }
  }

  /** A craft takes from different slots, and none of its destroys is turned down for lack of items. */
  lemma {:induction false} CraftTakesApart(ui: Items, offset: nat, size: nat, inputs: seq<Expected>, crafts: nat)
    requires offset + size <= |ui| == Size(UI)
    ensures var c := Crafted(ui, offset, size, inputs, crafts); TakesApart(ui, c.destroys, c.consumed)
  {
    hide TakesApart;
    if inputs == [] {
      NothingTaken(ui);
    } else {
      var r, e := Crafted(ui, offset, size, inputs[..|inputs| - 1], crafts), inputs[|inputs| - 1];
      CraftTakesApart(ui, offset, size, inputs[..|inputs| - 1], crafts);
      var slot := FirstServing(ui, offset, offset + size, r.consumed, e, crafts);
      if e.count != 0 && slot.Some? { TakesOneMore(ui, r.destroys, r.consumed, slot.value, e.count * crafts); }
    }
  }

  lemma NothingTaken(items: Items)
    ensures TakesApart(items, [], {})
  {
  }

  /** A craft that lacks an ingredient creates nothing, but what it found for the others is still destroyed. */
  lemma FailedCraftStillDestroys(win: Windows, kind: int)
    requires Complete(win) && Alt !in win && win[UI][28] == Stack(kind, 5)
    requires forall k | 29 <= k < 32 :: win[UI][k] == Stack(kind, 0)
    ensures CraftActions(win, Recipe(true, [Expected({kind}, 1), Expected({kind}, 1)], [Stack(kind, 1)]), 1)
         == [DestroyAt(28, 1, Stack(kind, 5))]
  {
    var one := Expected({kind}, 1);
    var found := FirstServing(win[UI], 28, 32, {}, one, 1);
    assert found == Some(28);
    assert [one][..0] == [];
    assert Crafted(win[UI], 28, 4, [], 1) == Crafting([], {}, true);
    var first := Crafted(win[UI], 28, 4, [one], 1);
    assert first.destroys == [DestroyAt(28, 1, Stack(kind, 5))];
    assert first.consumed == {28};
    assert FirstServing(win[UI], 28, 32, {28}, one, 1) == None;
    assert [one, one][..1] == [one];
    assert Crafted(win[UI], 28, 4, [one, one], 1) == first.(allowed := false);
  }

  // ----- from asking to acting

  function Built(win: Windows, ask: Ask): (r: seq<Action>)
    requires Complete(win)
    ensures AllFit(r)
  {
    match ask
    case AskTransfer(n, s, i, d, j) =>
      if WindowOf(s) !in win || WindowOf(d) !in win || i >= |win[WindowOf(s)]| || j >= |win[WindowOf(d)]| then []
      else [Transfer(n, s, i, d, j, Get(win, CellOf(s, i)), Get(win, CellOf(d, j)), true)]
    case AskSwap(s, i, d, j) =>
      if WindowOf(s) !in win || WindowOf(d) !in win || i >= |win[WindowOf(s)]| || j >= |win[WindowOf(d)]| then []
      else [Swap(s, i, d, j, Get(win, CellOf(s, i)), Get(win, CellOf(d, j)), true)]
    case AskDestroy(n, s, i) =>
      if WindowOf(s) !in win || i >= |win[WindowOf(s)]| then []
      else [Destroy(n, s, i, Get(win, CellOf(s, i)), true)]
    case AskCreative(item) => if item.Some? then [CreateOf(item.value)] else []
    case AskCraft(recipe, crafts) => if recipe.Some? then CraftActions(win, recipe.value, crafts) else []
    case AskNothing => [Nop]
    case AskUnknown => [Unknown(true)]
  }

  function BuiltAll(win: Windows, asks: seq<Ask>): (r: seq<Action>)
    requires Complete(win)
    ensures AllFit(r)
  {
    if asks == [] then [] else BuiltAll(win, asks[..|asks| - 1]) + Built(win, asks[|asks| - 1])
  }

  // ----- the queue

  datatype Request = Request(id: int, actions: seq<Action>)

  datatype Response = Response(id: int, ok: bool)

  datatype State = State(win: Windows, queue: seq<Request>, pendingSync: bool)

  ghost predicate Inv(s: State) { Complete(s.win) && forall i | 0 <= i < |s.queue| :: AllFit(s.queue[i].actions) }

  function Submitted(s: State, id: int, actions: seq<Action>): (r: State)
    requires Inv(s) && AllFit(actions)
    ensures Inv(r)
  {
    var (win, taken) := ExecutedAll(s.win, actions);
    s.(win := win, queue := s.queue + [Request(id, taken)])
  }

  function Asked(s: State, id: int, asks: seq<Ask>): (r: State)
    requires Inv(s)
    ensures Inv(r)
  {
    var actions := BuiltAll(s.win, asks);
    if actions == [] then s else Submitted(s, id, actions)
  }

  predicate WantsSync(actions: seq<Action>) { exists a :: a in actions && AsksForSync(a) }

  /** The first request is answered: undone if it was refused, and then the next one executed again. */
  function Answered(s: State, ok: bool): (r: State)
    requires Inv(s) && s.queue != []
    ensures Inv(r)
  {
    var first, rest := s.queue[0], s.queue[1..];
    if ok then s.(queue := rest)
    else
      var undone := RevertedAll(s.win, first.actions);
      var sync := s.pendingSync || WantsSync(first.actions);
      if rest == [] then State(undone, rest, sync)
      else
        var (win, taken) := ExecutedAll(undone, rest[0].actions);
        State(win, rest[0 := rest[0].(actions := taken)], sync)
  }

  /** A response that nothing was asked for makes the server send everything again; the others answer the first
      request if they carry its ID. */
  predicate Expects(s: State, response: Response) { s.queue == [] || s.queue[0].id == response.id }

  function AnsweredBy(s: State, response: Response): (r: State)
    requires Inv(s)
    ensures Inv(r)
  {
    if !Expects(s, response) then s
    else if s.queue == [] then s.(pendingSync := true)
    else Answered(s, response.ok)
  }

  /** The responses of a packet; the first one with an unexpected ID ends it. */
  function Responded(s: State, responses: seq<Response>): (r: State)
    requires Inv(s)
    ensures Inv(r)
    decreases responses
  {
    if responses == [] || !Expects(s, responses[0]) then s
    else Responded(AnsweredBy(s, responses[0]), responses[1..])
  }

  // ----- undoing at the level of the protocol

  /** With nothing else outstanding, a refused request leaves the inventory exactly as it was. */
  lemma RefusedRequestLeavesNoTrace(s: State, id: int, asks: seq<Ask>)
    requires Inv(s) && s.queue == []
    ensures var r := Responded(Asked(s, id, asks), [Response(id, false)]); r.win == s.win && r.queue == []
  {
    var actions := BuiltAll(s.win, asks);
    var asked := Asked(s, id, asks);
    if actions != [] {
      ExecuteThenRevert(s.win, actions);
      assert Responded(asked, [Response(id, false)]) == Responded(Answered(asked, false), []);
    } else {
      assert Responded(s, [Response(id, false)]) == Responded(s.(pendingSync := true), []);
    }
  }

  /** Of two outstanding requests the first is granted and the second refused: what the first did stays, and the
      second leaves no trace, whether or not they share cells. */
  lemma GrantThenRefusal(s: State, id1: int, first: seq<Action>, id2: int, second: seq<Action>)
    requires Inv(s) && s.queue == [] && AllFit(first) && AllFit(second)
    ensures var one := Submitted(s, id1, first);
            var r := Responded(Submitted(one, id2, second), [Response(id1, true), Response(id2, false)]);
            r.win == one.win && r.queue == []
  {
    hide ExecutedAll, RevertedAll;
    var one := Submitted(s, id1, first);
    var both := Submitted(one, id2, second);
    ExecuteThenRevert(one.win, second);
    var granted := AnsweredBy(both, Response(id1, true));
    var refused := AnsweredBy(granted, Response(id2, false));
    assert both.queue[1..] == [both.queue[1]];
    assert [Response(id1, true), Response(id2, false)][1..] == [Response(id2, false)];
    assert Responded(granted, [Response(id2, false)]) == Responded(refused, []);
  }

  /** With another request outstanding this fails: the next request is executed again on top of what it already
      did.  Two requests take one item each from different slots; refusing the first takes two from the second. */
  lemma RefusalRepeatsNextRequest(s: State, kind: int)
    requires Inv(s) && s.queue == []
    requires s.win[Main][0] == Stack(kind, 9) && s.win[Main][1] == Stack(kind, 9)
    ensures var both := Asked(Asked(s, 1, [AskDestroy(1, Inventory, 0)]), 2, [AskDestroy(1, Inventory, 1)]);
            var r := Responded(both, [Response(1, false)]);
            both.win[Main][1].count == 8 && r.win[Main][0].count == 9 && r.win[Main][1].count == 7
  {
    hide Asked, Answered;
    var a0, a1 := Destroy(1, Inventory, 0, Stack(kind, 9), true), Destroy(1, Inventory, 1, Stack(kind, 9), true);
    var one := Asked(s, 1, [AskDestroy(1, Inventory, 0)]);
    AskedDestroy(s, 1, 0);
    var both := Asked(one, 2, [AskDestroy(1, Inventory, 1)]);
    AskedDestroy(one, 2, 1);
    RefusedDestroys(both, a0, a1);
    assert Responded(both, [Response(1, false)]) == Responded(Answered(both, false), []);
  }

  lemma AskedDestroy(s: State, id: int, slot: nat)
    requires Inv(s) && slot < 36 && s.win[Main][slot].count == 9
    ensures var a := Destroy(1, Inventory, slot, s.win[Main][slot], true);
            Asked(s, id, [AskDestroy(1, Inventory, slot)])
              == s.(win := s.win[Main := s.win[Main][slot := Stack(s.win[Main][slot].kind, 8)]],
                    queue := s.queue + [Request(id, [a])])
  {
    var a := Destroy(1, Inventory, slot, s.win[Main][slot], true);
    SingleAsk(s.win, AskDestroy(1, Inventory, slot));
    SingleAction(s.win, a);
    assert Minus(1) == -1;
  }

  lemma RefusedDestroys(s: State, a0: Action, a1: Action)
    requires Inv(s) && s.queue == [Request(1, [a0]), Request(2, [a1])]
    requires a0.Destroy? && a0.open && a0.src == Inventory && a0.srcSlot == 0 && a0.oldSrc.count == 9
    requires a1.Destroy? && a1.open && a1.src == Inventory && a1.srcSlot == 1 && a1.count == 1
        && s.win[Main][1].count == 8
    ensures Answered(s, false).win[Main][0].count == 9 && Answered(s, false).win[Main][1].count == 7
  {
    assert s.queue[0].actions == [a0] && s.queue[1].actions == [a1];
    assert AllFit(s.queue[0].actions) && AllFit(s.queue[1].actions);
    assert Fits([a0][0]) && Fits([a1][0]);
    SingleAction(s.win, a0);
    SingleAction(Reverted(s.win, a0), a1);
    assert Minus(1) == -1;
  }

  lemma SingleAsk(win: Windows, ask: Ask)
    requires Complete(win)
    ensures BuiltAll(win, [ask]) == Built(win, ask)
  {
    assert [ask][..0] == [] && BuiltAll(win, []) == [];
  }

  // ----- every run

  datatype Event =
    | Asks(id: int, asks: seq<Ask>)
    | Responses(responses: seq<Response>)
    | OpensWindow
    | ClosesWindow
    | ServerWrites(cell: Cell, stack: Stack)

  function Fresh(window: Window): Items { seq(Size(window), _ => Stack(0, 0)) }

  function Happened(s: State, event: Event): (r: State)
    requires Inv(s)
    ensures Inv(r)
  {
    match event
    case Asks(id, asks) => Asked(s, id, asks)
    case Responses(responses) => Responded(s, responses)
    case OpensWindow => s.(win := s.win[Alt := Fresh(Alt)])
    case ClosesWindow => s.(win := s.win - {Alt})
    case ServerWrites(cell, stack) => if Exists(s.win, cell) then s.(win := Set(s.win, cell, stack)) else s
  }

  const START := State(map[Armour := Fresh(Armour), Main := Fresh(Main), Offhand := Fresh(Offhand), UI := Fresh(UI)],
    [], false)

  function After(events: seq<Event>): (r: State)
    ensures Inv(r)
  {
    if events == [] then START else Happened(After(events[..|events| - 1]), events[|events| - 1])
  }

  function Ids(queue: seq<Request>): seq<int> { seq(|queue|, i requires 0 <= i < |queue| => queue[i].id) }

  /** The requests that an event adds to the queue. */
  function Adds(s: State, event: Event): seq<int>
    requires Inv(s)
  {
    if event.Asks? && BuiltAll(s.win, event.asks) != [] then [event.id] else []
  }

  function AllAdded(events: seq<Event>): seq<int> {
    if events == [] then []
    else AllAdded(events[..|events| - 1]) + Adds(After(events[..|events| - 1]), events[|events| - 1])
  }

  lemma {:induction false} RespondedPops(s: State, responses: seq<Response>) returns (n: nat)
    requires Inv(s)
    ensures n <= |s.queue| && n <= |responses| && Ids(Responded(s, responses).queue) == Ids(s.queue)[n..]
    decreases responses
  {
    n := 0;
    if responses != [] {
      if s.queue == [] {
        n := RespondedPops(s.(pendingSync := true), responses[1..]);
      } else if responses[0].id == s.queue[0].id {
        var t := Answered(s, responses[0].ok);
        assert Ids(t.queue) == Ids(s.queue)[1..];
        n := RespondedPops(t, responses[1..]);
        n := n + 1;
      }
    }
  }

  lemma HappenedQueue(s: State, event: Event) returns (n: nat)
    requires Inv(s)
    ensures n <= |s.queue| && Ids(Happened(s, event).queue) == Ids(s.queue)[n..] + Adds(s, event)
  {
    hide BuiltAll, Built, ExecutedAll, RevertedAll, Set, Inv, Complete, AllFit, Responded;
    n := 0;
    if event.Responses? { n := RespondedPops(s, event.responses); }
  }

  /** The queue is first in, first out over every run: what is outstanding is always the tail of what was asked. */
  lemma {:induction false} OutstandingIsTail(events: seq<Event>) returns (answered: nat)
    ensures answered <= |AllAdded(events)| && Ids(After(events).queue) == AllAdded(events)[answered..]
  {
    hide Happened, Adds, Inv;
    answered := 0;
    if events != [] {
      var pre, event := events[..|events| - 1], events[|events| - 1];
      answered := OutstandingIsTail(pre);
      var n := HappenedQueue(After(pre), event);
      answered := answered + n;
    }
  }
}
