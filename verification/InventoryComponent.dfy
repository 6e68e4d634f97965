/** The inventory component: windows over arrays of stacks, requests in a doubly linked list. */
module InventoryComponent {
  import opened Common
  import opened InventoryModel
  import opened InventoryRequests

  /** A window.  Reading or writing a slot outside of it panics, which is what the preconditions rule out. */
  class PlayerInventory {
    const items: array<Stack>
    var specialSlots: map<int, int>

    constructor (size: nat)
      ensures fresh(items) && items.Length == size && specialSlots == map[]
      ensures items[..] == seq(size, _ => Stack(0, 0))
    {
      items := new Stack[size](_ => Stack(0, 0));
      specialSlots := map[];
    }

    method SetSpecialSlot(slot: int, specialSlot: int)
      modifies this`specialSlots
      ensures specialSlots == old(specialSlots)[slot := specialSlot]
    {
      specialSlots := specialSlots[slot := specialSlot];
    }

    function Index(slot: int): int reads this`specialSlots { if slot in specialSlots then specialSlots[slot] else slot }

    function Slot(slot: int): Stack
      requires 0 <= Index(slot) < items.Length
      reads this`specialSlots, items
    {
      items[Index(slot)]
    }

    method SetSlot(slot: int, it: Stack)
      requires 0 <= Index(slot) < items.Length
      modifies items
      ensures items[..] == old(items[..])[Index(slot) := it]
    {
      var s := slot;
      if s in specialSlots { s := specialSlots[s]; }
      items[s] := it;
    }
  }

  class InvReq {
    const id: int
    var prev: InvReq?
    var next: InvReq?
    var actions: seq<Action>

    constructor (id: int)
      ensures this.id == id && prev == null && next == null && actions == []
    {
      this.id, prev, next, actions := id, null, null, [];
    }

    /** Gives the actions up.  A request that still has a predecessor panics, which the precondition rules out. */
    method Accept()
      requires prev == null
      modifies this`actions
      ensures |actions| == |old(actions)| && forall i | 0 <= i < |actions| ::
          actions[i] == ClosedAction(old(actions)[i])
      ensures GivenUp(actions)
    {
      for i := 0 to |actions|
        invariant |actions| == |old(actions)|
        invariant forall k | 0 <= k < |actions| ::
            actions[k] == if k < i then ClosedAction(old(actions)[k]) else old(actions)[k]
      {
        actions := actions[i := ClosedAction(actions[i])];
      }
    }
  }

  class Component {
    const pArmour: PlayerInventory
    const pInventory: PlayerInventory
    const pOffhand: PlayerInventory
    const pUiInventory: PlayerInventory
    var altOpenWindow: PlayerInventory?
    var altOpenWindowId: int
    var firstRequest: InvReq?
    var currentRequest: InvReq?
    var pendingInventorySync: bool
    ghost var queue: seq<InvReq>

    constructor ()
      ensures WindowsValid() && Contents() == START.win && queue == [] && firstRequest == null && currentRequest == null
      ensures pInventory.items[..] == seq(36, _ => Stack(0, 0)) && pArmour.items[..] == seq(4, _ => Stack(0, 0))
      ensures pOffhand.items[..] == seq(1, _ => Stack(0, 0)) && pUiInventory.items[..] == seq(54, _ => Stack(0, 0))
      ensures !pendingInventorySync && altOpenWindow == null && altOpenWindowId == 0
    {
      pInventory := new PlayerInventory(36);
      pArmour := new PlayerInventory(4);
      pOffhand := new PlayerInventory(1);
      pUiInventory := new PlayerInventory(54);
      altOpenWindow, altOpenWindowId, firstRequest, currentRequest, pendingInventorySync := null, 0, null, null, false;
      queue := [];
      new;
      hide Contents;
      pOffhand.SetSpecialSlot(1, 0);
      NewContents();
    }

    lemma NewContents()
      requires altOpenWindow == null && pArmour.items[..] == Fresh(Armour) && pInventory.items[..] == Fresh(Main)
      requires pOffhand.items[..] == Fresh(Offhand) && pUiInventory.items[..] == Fresh(UI)
      ensures Contents() == START.win
    {
      forall w: Window
        ensures InventoryOf(w) != null ==> w in START.win && InventoryOf(w).items[..] == START.win[w]
        ensures w in START.win ==> InventoryOf(w) != null
      {
      }
    }

    ghost function InventoryOf(w: Window): PlayerInventory?
      reads this`altOpenWindow
    {
      match w
      case Armour => pArmour
      case Main => pInventory
      case Offhand => pOffhand
      case UI => pUiInventory
      case Alt => altOpenWindow
    }

    /** Five different windows of the right sizes; only the off hand has a special slot. */
    ghost predicate WindowsValid()
      reads this`altOpenWindow, pArmour, pInventory, pOffhand, pUiInventory, altOpenWindow
    {
      && (forall v, w | v != w && InventoryOf(v) != null && InventoryOf(w) != null ::
            InventoryOf(v) != InventoryOf(w) && InventoryOf(v).items != InventoryOf(w).items)
      && (forall w | InventoryOf(w) != null :: InventoryOf(w).items.Length == Size(w))
      && (forall w | InventoryOf(w) != null ::
            InventoryOf(w).specialSlots == if w.Offhand? then map[1 := 0] else map[])
    }

    ghost function Arrays(): set<object>
      reads this`altOpenWindow
    {
      {pArmour.items, pInventory.items, pOffhand.items, pUiInventory.items}
      + if altOpenWindow != null then {altOpenWindow.items} else {}
    }

    ghost function Contents(): Windows
      reads this`altOpenWindow, Arrays()
    {
      map w: Window | InventoryOf(w) != null :: InventoryOf(w).items[..]
    }

    function WindowFromContainerID(id: Container): (inv: PlayerInventory?)
      reads this`altOpenWindow
      ensures inv == InventoryOf(WindowOf(id))
    {
      match id
      case CraftingInput => pUiInventory
      case CreatedOutput => pUiInventory
      case Cursor => pUiInventory
      case HotBar => pInventory
      case Inventory => pInventory
      case CombinedHotBarAndInventory => pInventory
      case OffhandContainer => pOffhand
      case ArmorContainer => pArmour
      case OtherContainer(_) => altOpenWindow
    }

    /** A window that a container ID stands for, and what it shows at a slot. */
    lemma WindowShows(id: Container, slot: int)
      requires WindowsValid()
      ensures WindowFromContainerID(id) != null <==> WindowOf(id) in Contents()
      ensures WindowFromContainerID(id) != null ==>
                var inv := WindowFromContainerID(id);
                inv.items in Arrays() && inv.items.Length == Size(WindowOf(id))
                  && Contents()[WindowOf(id)] == inv.items[..]
      ensures WindowFromContainerID(id) != null && InBounds(id, slot) ==>
                var inv := WindowFromContainerID(id);
                && 0 <= inv.Index(slot) < inv.items.Length && Exists(Contents(), CellOf(id, slot))
                && inv.Slot(slot) == Get(Contents(), CellOf(id, slot)) && inv.Index(slot) == CellOf(id, slot).slot
    {
    }

    lemma ContentsComplete()
      requires WindowsValid()
      ensures Complete(Contents())
      ensures forall w | w in Contents() :: InventoryOf(w) != null && Contents()[w] == InventoryOf(w).items[..]
    {
    }

    method WriteSlot(inv: PlayerInventory, slot: int, it: Stack, ghost id: Container)
      requires WindowsValid() && inv == InventoryOf(WindowOf(id)) && InBounds(id, slot)
      modifies inv.items
      ensures WindowsValid() && Exists(old(Contents()), CellOf(id, slot))
      ensures Contents() == Set(old(Contents()), CellOf(id, slot), it)
    {
      hide WindowsValid;
      WindowShows(id, slot);
      WindowsApart();
      inv.SetSlot(slot, it);
    }

    lemma WindowsApart()
      requires WindowsValid()
      ensures forall v, w | v != w && InventoryOf(v) != null && InventoryOf(w) != null ::
          InventoryOf(v).items != InventoryOf(w).items
    {
    }

    method WriteBoth(srcInv: PlayerInventory, srcSlot: int, s: Stack, dstInv: PlayerInventory, dstSlot: int, d: Stack,
                     ghost src: Container, ghost dst: Container)
      requires WindowsValid() && InBounds(src, srcSlot) && InBounds(dst, dstSlot)
      requires srcInv == InventoryOf(WindowOf(src)) && dstInv == InventoryOf(WindowOf(dst))
      modifies srcInv.items, dstInv.items
      ensures WindowsValid() && Exists(old(Contents()), CellOf(src, srcSlot))
          && Exists(old(Contents()), CellOf(dst, dstSlot))
      ensures Contents() == Set(Set(old(Contents()), CellOf(src, srcSlot), s), CellOf(dst, dstSlot), d)
    {
      hide WindowsValid, Contents, Set, Get;
      WindowShows(dst, dstSlot);
      WriteSlot(srcInv, srcSlot, s, src);
      WriteSlot(dstInv, dstSlot, d, dst);
    }

    /** Runs one action and returns it with what it found in its cells. */
    method ExecuteAction(a: Action) returns (taken: Action)
      requires WindowsValid() && Fits(a)
      modifies Arrays()
      ensures WindowsValid() && Complete(old(Contents()))
      ensures Contents() == Executed(old(Contents()), a) && taken == Snapshot(old(Contents()), a)
    {
      hide WindowsValid, Contents, Executed, Snapshot, Complete, InventoryOf;
      match a
      case Transfer(_, _, _, _, _, _, _, _) => taken := ExecuteTransfer(a);
      case Swap(_, _, _, _, _, _, _) => taken := ExecuteSwap(a);
      case Destroy(_, _, _, _, _) => taken := ExecuteDestroy(a);
      case Create(_, _, _, _, _) => taken := ExecuteCreate(a);
      case Nop => taken := Unmoved(a);
      case Unknown(_) => taken := Unmoved(a);
    }

    method Unmoved(a: Action) returns (taken: Action)
      requires WindowsValid() && (a.Nop? || a.Unknown?)
      ensures Complete(Contents()) && taken == a && Contents() == Executed(Contents(), a)
          && a == Snapshot(Contents(), a)
    {
      ContentsComplete();
      taken := a;
    }

    method ExecuteTransfer(a: Action) returns (taken: Action)
      requires WindowsValid() && Fits(a) && a.Transfer?
      modifies Arrays()
      ensures WindowsValid() && Complete(old(Contents()))
      ensures Contents() == Executed(old(Contents()), a) && taken == Snapshot(old(Contents()), a)
    {
      hide WindowsValid, Contents, Set, Get, Complete, InventoryOf;
      ContentsComplete();
      WindowShows(a.src, a.srcSlot);
      WindowShows(a.dst, a.dstSlot);
      taken := a;
      if !a.open { return; }
      var srcInv := WindowFromContainerID(a.src);
      if srcInv == null { return; }
      var dstInv := WindowFromContainerID(a.dst);
      if dstInv == null { return; }
      var srcItem := srcInv.Slot(a.srcSlot);
      var dstItem := dstInv.Slot(a.dstSlot);
      taken := Transfer(a.count, a.src, a.srcSlot, a.dst, a.dstSlot, srcItem, dstItem, a.open);
      if srcItem.Empty() { return; }
      if a.count > srcItem.count { return; }
      if dstItem.Empty() { dstItem := srcItem.Grow(-MAX_INT32); }
      WriteBoth(srcInv, a.srcSlot, srcItem.Grow(Minus(a.count)), dstInv, a.dstSlot, dstItem.Grow(a.count), a.src,
        a.dst);
    }

    method ExecuteSwap(a: Action) returns (taken: Action)
      requires WindowsValid() && Fits(a) && a.Swap?
      modifies Arrays()
      ensures WindowsValid() && Complete(old(Contents()))
      ensures Contents() == Executed(old(Contents()), a) && taken == Snapshot(old(Contents()), a)
    {
      hide WindowsValid, Contents, Set, Get, Complete, InventoryOf;
      ContentsComplete();
      WindowShows(a.src, a.srcSlot);
      WindowShows(a.dst, a.dstSlot);
      taken := a;
      if !a.open { return; }
      var srcInv := WindowFromContainerID(a.src);
      if srcInv == null { return; }
      var dstInv := WindowFromContainerID(a.dst);
      if dstInv == null { return; }
      var srcItem := srcInv.Slot(a.srcSlot);
      var dstItem := dstInv.Slot(a.dstSlot);
      taken := Swap(a.src, a.srcSlot, a.dst, a.dstSlot, srcItem, dstItem, a.open);
      WriteBoth(srcInv, a.srcSlot, dstItem, dstInv, a.dstSlot, srcItem, a.src, a.dst);
    }

    method ExecuteDestroy(a: Action) returns (taken: Action)
      requires WindowsValid() && Fits(a) && a.Destroy?
      modifies Arrays()
      ensures WindowsValid() && Complete(old(Contents()))
      ensures Contents() == Executed(old(Contents()), a) && taken == Snapshot(old(Contents()), a)
    {
      hide WindowsValid, Contents, Set, Get, Complete, InventoryOf;
      ContentsComplete();
      WindowShows(a.src, a.srcSlot);
      taken := a;
      if !a.open { return; }
      var inv := WindowFromContainerID(a.src);
      if inv == null { return; }
      var srcItem := inv.Slot(a.srcSlot);
      taken := Destroy(a.count, a.src, a.srcSlot, srcItem, a.open);
      if a.count > srcItem.count { return; }
      WriteSlot(inv, a.srcSlot, srcItem.Grow(Minus(a.count)), a.src);
    }

    method ExecuteCreate(a: Action) returns (taken: Action)
      requires WindowsValid() && Fits(a) && a.Create?
      modifies Arrays()
      ensures WindowsValid() && Complete(old(Contents()))
      ensures Contents() == Executed(old(Contents()), a) && taken == Snapshot(old(Contents()), a)
    {
      hide WindowsValid, Contents, Set, Get, Complete, InventoryOf;
      ContentsComplete();
      WindowShows(a.dst, a.dstSlot);
      taken := a;
      if !a.open { return; }
      var inv := WindowFromContainerID(a.dst);
      if inv == null { return; }
      var oldStack := inv.Slot(a.dstSlot);
      taken := Create(a.dst, a.dstSlot, a.stack, oldStack, a.open);
      WriteSlot(inv, a.dstSlot, a.stack, a.dst);
    }

    method RevertAction(a: Action)
      requires WindowsValid() && Fits(a)
      modifies Arrays(), this`pendingInventorySync
      ensures WindowsValid() && Complete(old(Contents()))
      ensures Contents() == Reverted(old(Contents()), a)
      ensures pendingInventorySync == (old(pendingInventorySync) || AsksForSync(a))
    {
      hide WindowsValid, Contents, Set, Get;
      ContentsComplete();
      match a
      case Transfer(_, src, srcSlot, dst, dstSlot, oldSrc, oldDst, open) =>
        if open { RestoreBoth(src, srcSlot, dst, dstSlot, oldSrc, oldDst); }
      case Swap(src, srcSlot, dst, dstSlot, oldSrc, oldDst, open) =>
        if open { RestoreBoth(src, srcSlot, dst, dstSlot, oldSrc, oldDst); }
      case Destroy(_, src, srcSlot, oldSrc, open) =>
        if open { Restore(src, srcSlot, oldSrc); }
      case Create(dst, dstSlot, _, oldDst, open) =>
        if open { Restore(dst, dstSlot, oldDst); }
      case Nop =>
      case Unknown(open) =>
        if open { ForceSync(); }
    }

    method Restore(id: Container, slot: int, it: Stack)
      requires WindowsValid() && InBounds(id, slot)
      modifies Arrays()
      ensures WindowsValid() && Complete(old(Contents()))
      ensures Contents() == if WindowOf(id) in old(Contents()) then Set(old(Contents()), CellOf(id, slot), it)
          else old(Contents())
    {
      hide WindowsValid, Contents, Set, Get;
      ContentsComplete();
      var inv := WindowFromContainerID(id);
      WindowShows(id, slot);
      if inv != null { WriteSlot(inv, slot, it, id); }
    }

    method RestoreBoth(src: Container, srcSlot: int, dst: Container, dstSlot: int, oldSrc: Stack, oldDst: Stack)
      requires WindowsValid() && InBounds(src, srcSlot) && InBounds(dst, dstSlot)
      modifies Arrays()
      ensures WindowsValid() && Complete(old(Contents()))
      ensures Contents() ==
                if WindowOf(src) in old(Contents()) && WindowOf(dst) in old(Contents()) then
                  Set(Set(old(Contents()), CellOf(src, srcSlot), oldSrc), CellOf(dst, dstSlot), oldDst)
                else old(Contents())
    {
      hide WindowsValid, Contents, Set, Get;
      ContentsComplete();
      WindowShows(src, srcSlot);
      WindowShows(dst, dstSlot);
      var srcInv := WindowFromContainerID(src);
      if srcInv == null { return; }
      var dstInv := WindowFromContainerID(dst);
      if dstInv == null { return; }
      WriteBoth(srcInv, srcSlot, oldSrc, dstInv, dstSlot, oldDst, src, dst);
    }

    /** Asks the server for everything, unless it was asked already. */
    method ForceSync()
      modifies this`pendingInventorySync
      ensures pendingInventorySync
    {
      if pendingInventorySync { return; }
      pendingInventorySync := true;
    }

    // ----- requests

    /** The requests form a doubly linked list from the first to the current one. */
    ghost predicate QueueValid()
      reads this`firstRequest, this`currentRequest, this`queue, queue`prev, queue`next
    {
      && firstRequest == (if queue == [] then null else queue[0])
      && currentRequest == (if queue == [] then null else queue[|queue| - 1])
      && (forall i, j | 0 <= i < j < |queue| :: queue[i] != queue[j])
      && (forall i | 0 <= i < |queue| :: LinkedAt(queue, i))
    }

    /** The links of one request lead to its neighbours. */
    static ghost predicate LinkedAt(requests: seq<InvReq>, i: int)
      requires 0 <= i < |requests|
      reads requests`prev, requests`next
    {
      && requests[i].prev == (if i == 0 then null else requests[i - 1])
      && requests[i].next == (if i == |requests| - 1 then null else requests[i + 1])
    }

    static ghost predicate RequestsFit(requests: seq<InvReq>)
      reads requests`actions
    {
      forall i | 0 <= i < |requests| :: AllFit(requests[i].actions)
    }

    static ghost function Requests(requests: seq<InvReq>): (r: seq<Request>)
      reads requests
      ensures |r| == |requests| && forall i | 0 <= i < |r| :: r[i] == Request(requests[i].id, requests[i].actions)
    {
      seq(|requests|, i requires 0 <= i < |requests| reads requests => Request(requests[i].id, requests[i].actions))
    }

    ghost predicate Valid()
      reads this, pArmour, pInventory, pOffhand, pUiInventory, altOpenWindow, queue
    {
      WindowsValid() && QueueValid() && RequestsFit(queue)
    }

    ghost function Model(): State
      reads this, Arrays(), queue
    {
      State(Contents(), Requests(queue), pendingInventorySync)
    }

    method ExecuteRequest(req: InvReq)
      requires WindowsValid() && AllFit(req.actions)
      modifies Arrays(), req`actions
      ensures WindowsValid() && Complete(old(Contents()))
      ensures (Contents(), req.actions) == ExecutedAll(old(Contents()), old(req.actions))
    {
      hide WindowsValid, Contents, Executed, Snapshot, Fits, AllFit, ExecutedAll, InventoryOf, Complete;
      ContentsComplete();
      ghost var actions := req.actions;
      NothingExecuted(Contents(), actions);
      for i := 0 to |req.actions|
        invariant WindowsValid() && |req.actions| == |actions| && req.actions[i..] == actions[i..]
            && AllFit(actions[..i])
        invariant (Contents(), req.actions[..i]) == ExecutedAll(old(Contents()), actions[..i])
      {
        ExecutedOneMore(old(Contents()), actions, i);
        assert req.actions[i] == actions[i] by { assert req.actions[i..][0] == actions[i..][0]; }
        var taken := ExecuteAction(req.actions[i]);
        Advanced(req.actions, i, taken, actions);
        req.actions := req.actions[i := taken];
      }
      assert actions[..|actions|] == actions && req.actions[..|actions|] == req.actions;
    }

    static lemma Advanced(list: seq<Action>, i: nat, taken: Action, rest: seq<Action>)
      requires i < |list| == |rest| && list[i..] == rest[i..]
      ensures list[i := taken][..i + 1] == list[..i] + [taken] && list[i := taken][i + 1..] == rest[i + 1..]
    {
      forall k | i < k < |list|
        ensures list[k] == rest[k]
      {
        assert list[i..][k - i] == rest[i..][k - i];
      }
    }

    static lemma NothingExecuted(win: Windows, actions: seq<Action>)
      requires Complete(win)
      ensures AllFit(actions[..0]) && ExecutedAll(win, actions[..0]) == (win, [])
    {
    }

    /** Undoes the request from the last action to the first and gives its actions up, then runs the next request
        again. */
    method Reject(req: InvReq)
      requires WindowsValid() && AllFit(req.actions)
          && (req.next != null ==> req.next != req && AllFit(req.next.actions))
      modifies Arrays(), req`actions, this`pendingInventorySync
      modifies (if req.next != null then {req.next} else {})`actions
      ensures WindowsValid() && Complete(old(Contents()))
      ensures pendingInventorySync == (old(pendingInventorySync) || WantsSync(old(req.actions)))
      ensures var undone := RevertedAll(old(Contents()), old(req.actions));
              if req.next == null then Contents() == undone
              else (Contents(), req.next.actions) == ExecutedAll(undone, old(req.next.actions))
      ensures GivenUp(req.actions)
    {
      hide WindowsValid, Contents, Executed, Snapshot, Fits, AllFit, ExecutedAll, RevertedAll, Reverted, InventoryOf,
          Complete, GivenUp;
      Undo(req);
      if req.next != null { ExecuteRequest(req.next); }
    }

    method Undo(req: InvReq)
      requires WindowsValid() && AllFit(req.actions)
      modifies Arrays(), req`actions, this`pendingInventorySync
      ensures WindowsValid() && Complete(old(Contents()))
      ensures Contents() == RevertedAll(old(Contents()), old(req.actions))
      ensures pendingInventorySync == (old(pendingInventorySync) || WantsSync(old(req.actions)))
      ensures GivenUp(req.actions)
    {
      hide WindowsValid, Contents, Executed, Snapshot, Fits, AllFit, ExecutedAll, RevertedAll, Reverted;
      hide InventoryOf, Complete, WantsSync, AsksForSync, GivenUp, ClosedAction;
      ContentsComplete();
      assert GivenUp([]) by { NoneGivenUp(); }
      ghost var actions := req.actions;
      assert actions[..|actions|] == actions && actions[|actions|..] == [];
      assert !WantsSync([]) by { NoSync(); }
      var i := |req.actions|;
      while i > 0
        invariant WindowsValid() && 0 <= i <= |req.actions| == |actions| && req.actions[..i] == actions[..i]
        invariant AllFit(actions[..i]) && Complete(Contents())
        invariant RevertedAll(Contents(), actions[..i]) == RevertedAll(old(Contents()), actions)
        invariant pendingInventorySync == (old(pendingInventorySync) || WantsSync(actions[i..]))
        invariant GivenUp(req.actions[i..])
      {
        i := i - 1;
        OneMoreGivenUp(req.actions, i);
        RevertedOneMore(Contents(), actions, i);
        assert req.actions[i] == actions[i] by { assert req.actions[..i + 1][i] == actions[..i + 1][i]; }
        SyncFrom(actions, i);
        RevertAction(req.actions[i]);
        req.actions := req.actions[i := ClosedAction(req.actions[i])];
        assert req.actions[..i] == actions[..i + 1][..i];
      }
      NothingReverted(Contents(), actions);
      assert actions[0..] == actions && req.actions[0..] == req.actions;
    }

    static lemma NoneGivenUp()
      ensures GivenUp([])
    {
    }

    static lemma OneMoreGivenUp(actions: seq<Action>, i: nat)
      requires i < |actions| && GivenUp(actions[i + 1..])
      ensures GivenUp(actions[i := ClosedAction(actions[i])][i..])
    {
      assert actions[i := ClosedAction(actions[i])][i..] == [ClosedAction(actions[i])] + actions[i + 1..];
    }

    static lemma NothingReverted(win: Windows, actions: seq<Action>)
      requires Complete(win)
      ensures AllFit(actions[..0]) && RevertedAll(win, actions[..0]) == win
    {
    }

    static lemma NoSync()
      ensures !WantsSync([])
    {
    }

    static lemma SyncFrom(actions: seq<Action>, i: nat)
      requires i < |actions|
      ensures WantsSync(actions[i..]) == (AsksForSync(actions[i]) || WantsSync(actions[i + 1..]))
    {
      assert actions[i..] == [actions[i]] + actions[i + 1..];
    }

    // ----- what a client asks for

    /** Both windows are there and hold the slots. */
    method Reaches(src: Container, srcSlot: nat, dst: Container, dstSlot: nat)
        returns (ok: bool, srcItem: Stack, dstItem: Stack)
      requires WindowsValid()
      ensures Complete(Contents())
      ensures ok ==> InBounds(src, srcSlot) && InBounds(dst, dstSlot) && Exists(Contents(), CellOf(src, srcSlot))
                     && Exists(Contents(), CellOf(dst, dstSlot))
                     && srcItem == Get(Contents(), CellOf(src, srcSlot))
                     && dstItem == Get(Contents(), CellOf(dst, dstSlot))
      ensures ok <==> && WindowOf(src) in Contents() && srcSlot < |Contents()[WindowOf(src)]|
                      && WindowOf(dst) in Contents() && dstSlot < |Contents()[WindowOf(dst)]|
    {
      hide WindowsValid, Contents, Get;
      ContentsComplete();
      WindowShows(src, srcSlot);
      WindowShows(dst, dstSlot);
      ok, srcItem, dstItem := false, Stack(0, 0), Stack(0, 0);
      var srcInv := WindowFromContainerID(src);
      if srcInv == null { return; }
      var dstInv := WindowFromContainerID(dst);
      if dstInv == null { return; }
      if srcSlot >= srcInv.items.Length || dstSlot >= dstInv.items.Length { return; }
      srcItem := srcInv.Slot(srcSlot);
      dstItem := dstInv.Slot(dstSlot);
      ok := true;
    }

    method HandleTransferRequest(tx: InvReq, ask: Ask)
      requires WindowsValid() && ask.AskTransfer?
      modifies tx`actions
      ensures Complete(Contents()) && tx.actions == old(tx.actions) + Built(Contents(), ask)
    {
      hide WindowsValid, Contents, Get, Complete, InventoryOf;
      var ok, srcItem, dstItem := Reaches(ask.src, ask.srcSlot, ask.dst, ask.dstSlot);
      if !ok { return; }
      assert (tx as object) !in Arrays();
      tx.actions := tx.actions
        + [Transfer(ask.count, ask.src, ask.srcSlot, ask.dst, ask.dstSlot, srcItem, dstItem, true)];
    }

    method HandleSwapRequest(tx: InvReq, ask: Ask)
      requires WindowsValid() && ask.AskSwap?
      modifies tx`actions
      ensures Complete(Contents()) && tx.actions == old(tx.actions) + Built(Contents(), ask)
    {
      hide WindowsValid, Contents, Get, Complete, InventoryOf;
      var ok, srcItem, dstItem := Reaches(ask.src, ask.srcSlot, ask.dst, ask.dstSlot);
      if !ok { return; }
      assert (tx as object) !in Arrays();
      tx.actions := tx.actions + [Swap(ask.src, ask.srcSlot, ask.dst, ask.dstSlot, srcItem, dstItem, true)];
    }

    method HandleDestroyRequest(tx: InvReq, ask: Ask)
      requires WindowsValid() && ask.AskDestroy?
      modifies tx`actions
      ensures Complete(Contents()) && tx.actions == old(tx.actions) + Built(Contents(), ask)
    {
      hide WindowsValid, Contents, Get, Complete, InventoryOf;
      var ok, srcItem, _ := Reaches(ask.src, ask.srcSlot, ask.src, ask.srcSlot);
      if !ok { return; }
      assert (tx as object) !in Arrays();
      tx.actions := tx.actions + [Destroy(ask.count, ask.src, ask.srcSlot, srcItem, true)];
    }

    /** Searches the grid for every ingredient, slot by slot, without using a slot twice. */
    method HandleCraftStackRequest(tx: InvReq, recipe: Option<Recipe>, crafts: int)
      requires WindowsValid()
      modifies tx`actions
      ensures Complete(Contents()) && tx.actions == old(tx.actions) + Built(Contents(), AskCraft(recipe, crafts))
    {
      hide Contents, Crafted, Complete;
      ContentsComplete();
      if recipe.None? { return; }
      if !recipe.value.atTable { return; }
      if crafts < 1 { return; }
      WindowShows(CraftingInput, 28);
      WindowShows(OtherContainer(0), 0);
      var big := altOpenWindow != null;
      var offset, size := if big then 32 else 28, if big then 9 else 4;
      var destroys, allowed := FindIngredients(pUiInventory, offset, size, recipe.value.inputs, crafts);
      var creates := [];
      if allowed { creates := CreatesOf(recipe.value.outputs); }
      assert (tx as object) !in Arrays();
      tx.actions := tx.actions + (destroys + creates);
    }

    static method FindIngredients(grid: PlayerInventory, offset: nat, size: nat, inputs: seq<Expected>, crafts: nat)
      returns (destroys: seq<Action>, allowed: bool)
      requires offset + size <= grid.items.Length == Size(UI) && grid.specialSlots == map[] && crafts > 0
      ensures var c := Crafted(grid.items[..], offset, size, inputs, crafts);
          destroys == c.destroys && allowed == c.allowed
    {
      hide FirstServing;
      destroys, allowed := [], true;
      var consumed: set<nat> := {};
      for i := 0 to |inputs|
        invariant Crafting(destroys, consumed, allowed) == Crafted(grid.items[..], offset, size, inputs[..i], crafts)
      {
        assert inputs[..i + 1][..i] == inputs[..i];
        if inputs[i].count == 0 { continue; }
        var slot, has := FindServing(grid, offset, size, consumed, inputs[i], crafts);
        match slot
        case None => allowed := false;
        case Some(s) =>
          consumed := consumed + {s};
          destroys := destroys + [DestroyAt(s, inputs[i].count * crafts, has)];
      }
      assert inputs[..|inputs|] == inputs;
    }

    static method FindServing(grid: PlayerInventory, offset: nat, size: nat, consumed: set<nat>, expected: Expected,
        crafts: nat)
      returns (slot: Option<nat>, has: Stack)
      requires offset + size <= grid.items.Length && grid.specialSlots == map[]
      ensures slot == FirstServing(grid.items[..], offset, offset + size, consumed, expected, crafts)
      ensures slot.Some? ==> has == grid.items[slot.value]
    {
      hide Serves;
      has := Stack(0, 0);
      var s := offset;
      while s < offset + size
        invariant offset <= s <= offset + size
        invariant FirstServing(grid.items[..], offset, offset + size, consumed, expected, crafts)
               == FirstServing(grid.items[..], s, offset + size, consumed, expected, crafts)
      {
        if s !in consumed {
          has := grid.Slot(s);
          if Serves(has, expected, crafts) { return Some(s), has; }
        }
        s := s + 1;
      }
      slot := None;
    }

    method HandleAsk(tx: InvReq, ask: Ask)
      requires WindowsValid()
      modifies tx`actions
      ensures Complete(Contents()) && tx.actions == old(tx.actions) + Built(Contents(), ask)
    {
      hide WindowsValid, Contents, Get, Complete, InventoryOf, CraftActions;
      ContentsComplete();
      assert (tx as object) !in Arrays();
      match ask
      case AskTransfer(_, _, _, _, _) => HandleTransferRequest(tx, ask);
      case AskSwap(_, _, _, _) => HandleSwapRequest(tx, ask);
      case AskDestroy(_, _, _) => HandleDestroyRequest(tx, ask);
      case AskCreative(item) =>
        if item.Some? { tx.actions := tx.actions + [CreateOf(item.value)]; }
      case AskCraft(recipe, crafts) => HandleCraftStackRequest(tx, recipe, crafts);
      case AskNothing => tx.actions := tx.actions + [Nop];
      case AskUnknown => tx.actions := tx.actions + [Unknown(true)];
    }

    method BuildRequest(id: int, asks: seq<Ask>) returns (tx: InvReq)
      requires WindowsValid()
      ensures Complete(Contents()) && tx.actions == BuiltAll(Contents(), asks)
      ensures fresh(tx) && tx.id == id && tx.prev == null && tx.next == null
    {
      hide WindowsValid, Contents, Complete, InventoryOf, Built;
      tx := new InvReq(id);
      ContentsComplete();
      ghost var win := Contents();
      for i := 0 to |asks|
        invariant fresh(tx) && tx.prev == null && tx.next == null
        invariant Contents() == win && tx.actions == BuiltAll(win, asks[..i])
      {
        assert asks[..i + 1][..i] == asks[..i];
        assert (tx as object) !in Arrays();
        HandleAsk(tx, asks[i]);
      }
      assert asks[..|asks|] == asks;
    }

    /** Puts a request at the end of the list. */
    method Link(tx: InvReq)
      requires QueueValid() && tx !in queue && tx.prev == null && tx.next == null
      modifies this`firstRequest, this`currentRequest, this`queue, currentRequest, tx
      ensures QueueValid() && queue == old(queue) + [tx] && tx.actions == old(tx.actions)
      ensures forall r | r in old(queue) :: r.actions == old(r.actions)
      ensures Requests(queue) == old(Requests(queue)) + [Request(tx.id, tx.actions)]
    {
      ghost var q, n := queue, |queue|;
      assert n > 0 ==> LinkedAt(q, n - 1);
      if firstRequest == null {
        firstRequest := tx;
        currentRequest := tx;
      } else {
        tx.prev := currentRequest;
        currentRequest.next := tx;
        currentRequest := tx;
      }
      queue := queue + [tx];
      forall i | 0 <= i < |queue|
        ensures LinkedAt(queue, i)
      {
        if i < n {
          assert old(LinkedAt(q, i));
          assert q[i] != tx && (i < n - 1 ==> q[i] != q[n - 1]);
        }
      }
    }

    /** Takes the first request off the list. */
    method Unlink()
      requires QueueValid() && queue != []
      modifies this`firstRequest, this`currentRequest, this`queue, queue
      ensures QueueValid() && queue == old(queue)[1..] && Requests(queue) == old(Requests(queue))[1..]
      ensures old(queue)[0].next == null && old(queue)[0].actions == old(queue[0].actions)
    {
      ghost var q, n := queue, |queue|;
      assert LinkedAt(q, 0) && (n > 1 ==> LinkedAt(q, 1));
      if firstRequest == currentRequest {
        firstRequest := null;
        currentRequest := null;
      } else {
        var nextReq := firstRequest.next;
        nextReq.prev := null;
        firstRequest.next := null;
        firstRequest := nextReq;
      }
      queue := queue[1..];
      forall i | 0 <= i < |queue|
        ensures LinkedAt(queue, i)
      {
        assert old(LinkedAt(q, i + 1));
        assert queue[i] == q[i + 1] && q[i + 1] != q[0] && (i > 0 ==> q[i + 1] != q[1]);
      }
    }

    /** Executing a request that is not in the list leaves the list alone. */
    method ExecuteApart(tx: InvReq)
      requires WindowsValid() && QueueValid() && tx !in queue && AllFit(tx.actions)
      modifies Arrays(), tx`actions
      ensures WindowsValid() && Complete(old(Contents())) && QueueValid() && Requests(queue) == old(Requests(queue))
      ensures (Contents(), tx.actions) == ExecutedAll(old(Contents()), old(tx.actions))
    {
      hide WindowsValid, Contents, Complete, AllFit, InventoryOf, ExecutedAll, QueueValid, Requests, LinkedAt;
      assert forall r | r in queue :: (r as object) !in Arrays();
      ExecuteRequest(tx);
    }

    method Submit(tx: InvReq)
      requires Valid() && tx !in queue && tx.prev == null && tx.next == null && AllFit(tx.actions)
      modifies this`firstRequest, this`currentRequest, this`queue, Arrays(), currentRequest, tx
      ensures Valid() && Inv(old(Model())) && Model() == Submitted(old(Model()), tx.id, old(tx.actions))
    {
      hide WindowsValid, Contents, Complete, AllFit, InventoryOf, ExecutedAll, QueueValid, Requests, RequestsFit,
          LinkedAt, Inv;
      ContentsComplete();
      QueueFits();
      ExecuteApart(tx);
      ghost var win := Contents();
      Link(tx);
      assert Contents() == win;
      ModelFits();
    }

    /** Executes a request at once and puts it at the end of the list. */
    method HandleSingleRequest(id: int, asks: seq<Ask>)
      requires Valid()
      modifies this`firstRequest, this`currentRequest, this`queue, Arrays(), currentRequest
      ensures Valid() && Inv(old(Model())) && Model() == Asked(old(Model()), id, asks)
    {
      hide Valid, Model, Complete, AllFit, BuiltAll, Submitted, Inv;
      QueueFits();
      ContentsOfModel();
      var tx := BuildRequest(id, asks);
      if |tx.actions| > 0 { Submit(tx); }
    }

    lemma ContentsOfModel()
      requires Valid()
      ensures WindowsValid() && Complete(Contents()) && Model().win == Contents()
    {
      ContentsComplete();
    }

    lemma ModelFits()
      requires Inv(Model())
      ensures RequestsFit(queue)
    {
      forall i | 0 <= i < |queue|
        ensures AllFit(queue[i].actions)
      {
        assert Model().queue[i] == Request(queue[i].id, queue[i].actions);
      }
    }

    lemma QueueFits()
      requires Valid()
      ensures Inv(Model())
    {
      ContentsComplete();
      forall i | 0 <= i < |queue|
        ensures AllFit(Model().queue[i].actions)
      {
        assert Model().queue[i] == Request(queue[i].id, queue[i].actions);
      }
    }

    /** The first request is answered and leaves the list. */
    method AnswerFirst(ok: bool)
      requires Valid() && queue != []
      modifies this`firstRequest, this`currentRequest, this`queue, this`pendingInventorySync, Arrays(), queue
      ensures Valid() && Inv(old(Model())) && Model() == Answered(old(Model()), ok) && queue == old(queue)[1..]
    {
      hide WindowsValid, Contents, Complete, AllFit, InventoryOf, ExecutedAll, RevertedAll, Requests, RequestsFit, Inv,
          WantsSync;
      ContentsComplete();
      QueueFits();
      if ok {
        Grant();
      } else {
        Refuse();
      }
      ModelFits();
    }

    method Grant()
      requires WindowsValid() && QueueValid() && RequestsFit(queue) && queue != []
      modifies this`firstRequest, this`currentRequest, this`queue, queue
      ensures QueueValid() && queue == old(queue)[1..] && Requests(queue) == old(Requests(queue))[1..]
      ensures GivenUp(old(queue)[0].actions) && old(queue)[0].next == null
    {
      hide GivenUp;
      ghost var q := queue;
      assert LinkedAt(q, 0);
      firstRequest.Accept();
      forall i | 0 <= i < |q|
        ensures LinkedAt(q, i) && (i > 0 ==> q[i].actions == old(q[i].actions))
      {
        assert old(LinkedAt(q, i)) && (i > 0 ==> q[i] != q[0]);
      }
      Unlink();
    }

    method RejectFirst()
      requires WindowsValid() && QueueValid() && RequestsFit(queue) && queue != []
      modifies this`pendingInventorySync, Arrays(), queue`actions
      ensures WindowsValid() && Complete(old(Contents()))
      ensures pendingInventorySync == (old(pendingInventorySync) || WantsSync(old(queue[0].actions)))
      ensures var undone := RevertedAll(old(Contents()), old(queue[0].actions));
              if |queue| == 1 then Contents() == undone
              else (Contents(), queue[1].actions) == ExecutedAll(undone, old(queue[1].actions))
      ensures forall i | 1 < i < |queue| :: queue[i].actions == old(queue[i].actions)
      ensures GivenUp(queue[0].actions)
    {
      hide WindowsValid, Contents, Complete, AllFit, InventoryOf, ExecutedAll, RevertedAll, WantsSync, GivenUp;
      assert LinkedAt(queue, 0);
      assert forall i | 1 < i < |queue| :: queue[i] != queue[0] && queue[i] != queue[1];
      Reject(firstRequest);
    }

    method Refuse()
      requires WindowsValid() && QueueValid() && RequestsFit(queue) && queue != []
      modifies this`firstRequest, this`currentRequest, this`queue, this`pendingInventorySync, Arrays(), queue
      ensures WindowsValid() && Complete(old(Contents())) && QueueValid() && queue == old(queue)[1..]
      ensures pendingInventorySync == (old(pendingInventorySync) || WantsSync(old(Requests(queue)[0].actions)))
      ensures var undone, rest := RevertedAll(old(Contents()), old(Requests(queue)[0].actions)),
          old(Requests(queue))[1..];
              if rest == [] then Contents() == undone && Requests(queue) == []
              else
                var (win, taken) := ExecutedAll(undone, rest[0].actions);
                Contents() == win && Requests(queue) == rest[0 := rest[0].(actions := taken)]
      ensures GivenUp(old(queue)[0].actions) && old(queue)[0].next == null
    {
      hide WindowsValid, Contents, Complete, AllFit, InventoryOf, ExecutedAll, RevertedAll, WantsSync, QueueValid,
          Requests, GivenUp;
      ghost var before := Requests(queue);
      RejectFirst();
      ghost var win := Contents();
      Unlink();
      assert Contents() == win;
      ghost var rest := before[1..];
      RequestsAre(queue, if rest == [] then [] else rest[0 := rest[0].(actions := queue[0].actions)]);
    }

    lemma RequestsAre(requests: seq<InvReq>, values: seq<Request>)
      requires |values| == |requests|
      requires forall i | 0 <= i < |requests| :: values[i] == Request(requests[i].id, requests[i].actions)
      ensures Requests(requests) == values
    {
    }

    method HandleResponse(response: Response) returns (expected: bool)
      requires Valid()
      modifies this`firstRequest, this`currentRequest, this`queue, this`pendingInventorySync, Arrays(), queue
      ensures Valid() && Inv(old(Model())) && forall k | 0 <= k < |queue| :: queue[k] in old(queue)
      ensures expected == Expects(old(Model()), response) && Model() == AnsweredBy(old(Model()), response)
    {
      hide WindowsValid, Contents, RequestsFit, Inv, Answered;
      QueueFits();
      if firstRequest == null {
        ForceSync();
        return true;
      }
      if response.id != firstRequest.id { return false; }
      AnswerFirst(response.ok);
      expected := true;
    }

    /** Answers in the order of the requests; an unexpected ID ends the packet. */
    method HandleItemStackResponse(responses: seq<Response>)
      requires Valid()
      modifies this`firstRequest, this`currentRequest, this`queue, this`pendingInventorySync, Arrays(), queue
      ensures Valid() && Inv(old(Model())) && Model() == Responded(old(Model()), responses)
    {
      hide Valid, Model, Inv, Answered, Expects;
      QueueFits();
      for i := 0 to |responses|
        invariant Valid() && Inv(Model()) && Responded(Model(), responses[i..]) == Responded(old(Model()), responses)
        invariant altOpenWindow == old(altOpenWindow) && forall k | 0 <= k < |queue| :: queue[k] in old(queue)
      {
        assert responses[i..][0] == responses[i] && responses[i..][1..] == responses[i + 1..];
        var expected := HandleResponse(responses[i]);
        if !expected { return; }
        QueueFits();
      }
    }

    /** Opens a container.  A window without a container, and one of the player's own windows, is left alone. */
    method CreateWindow(windowId: int, containerType: int, ownWindows: set<int>)
      requires Valid()
      modifies this`altOpenWindow, this`altOpenWindowId
      ensures Valid() && Complete(old(Contents()))
      ensures var ignored := containerType == 255 || windowId in ownWindows;
        && Contents() == (if ignored then old(Contents()) else old(Contents())[Alt := Fresh(Alt)])
        && altOpenWindowId == if ignored then old(altOpenWindowId) else windowId
      ensures Requests(queue) == old(Requests(queue))
    {
      hide QueueValid, RequestsFit, Requests;
      ContentsComplete();
      if containerType == 255 || windowId in ownWindows { return; }
      altOpenWindow := new PlayerInventory(64);
      altOpenWindowId := windowId;
    }

    method RemoveWindow(windowId: int)
      requires Valid()
      modifies this`altOpenWindow
      ensures Valid() && Complete(old(Contents()))
      ensures Contents() == if windowId == altOpenWindowId then old(Contents()) - {Alt} else old(Contents())
      ensures Requests(queue) == old(Requests(queue))
    {
      hide QueueValid, RequestsFit, Requests;
      ContentsComplete();
      if windowId != altOpenWindowId { return; }
      altOpenWindow := null;
    }
  }
}
