/** The record of client-visible state that survives a dimension change and has to be removed by hand when
    another backend takes over. */
module StateTracker {
  import opened Common
  import opened ProxyPackets

  datatype Tracked = Tracked(
    bossBars: set<int>, effects: set<int>, entities: set<int>, players: set<int>, scoreboards: set<string>)

  const NOTHING := Tracked({}, {}, {}, {}, {})

  function ListedAfter(players: set<int>, entries: seq<ListEntry>): set<int> {
    if entries == [] then players
    else
      var e := entries[|entries| - 1];
      var before := ListedAfter(players, entries[..|entries| - 1]);
      if e.add then before + {e.uuid} else before - {e.uuid}
  }

  function Handled(t: Tracked, pk: Packet, clientRuntimeID: int): Tracked {
    match pk
    case Spawn(_, _, u) => t.(entities := t.entities + {u})
    case RemoveActor(u) => t.(entities := t.entities - {u})
    case BossEvent(b, hidden) => t.(bossBars := if hidden then t.bossBars - {b} else t.bossBars + {b})
    case MobEffect(r, e, op) =>
      if r != clientRuntimeID then t
      else if op.EffectAdd? || op.EffectModify? then t.(effects := t.effects + {e})
      else if op.EffectRemove? then t.(effects := t.effects - {e})
      else t
    case PlayerList(entries) => t.(players := ListedAfter(t.players, entries))
    case SetDisplayObjective(o) => t.(scoreboards := t.scoreboards + {o})
    case RemoveObjective(o) => t.(scoreboards := t.scoreboards - {o})
    case _ => t
  }

  // ----- what a client that receives the packets can see

  datatype Thing = Entity(id: int) | BossBar(id: int) | Effect(id: int) | Listed(id: int) | Scoreboard(name: string)

  /** The last word of a player list packet about one player. */
  function LastWord(entries: seq<ListEntry>, uuid: int): Option<bool> {
    if entries == [] then None
    else
      var e := entries[|entries| - 1];
      if e.uuid == uuid then Some(e.add) else LastWord(entries[..|entries| - 1], uuid)
  }

  /** What a packet tells the client about a thing: that it is there, that it is gone, or nothing. */
  function Says(pk: Packet, thing: Thing, player: int): Option<bool> {
    match thing
    case Entity(u) =>
      if pk.Spawn? && pk.uniqueID == u then Some(true)
      else if pk.RemoveActor? && pk.uniqueID == u then Some(false) else None
    case BossBar(b) => if pk.BossEvent? && pk.bossID == b then Some(!pk.hidden) else None
    case Effect(e) =>
      if pk.MobEffect? && pk.runtimeID == player && pk.effect == e && !pk.operation.EffectUnknown? then
        Some(!pk.operation.EffectRemove?)
      else None
    case Listed(u) => if pk.PlayerList? then LastWord(pk.entries, u) else None
    case Scoreboard(o) =>
      if pk.SetDisplayObjective? && pk.objective == o then Some(true)
      else if pk.RemoveObjective? && pk.objective == o then Some(false) else None
  }

  /** A thing is visible when the last packet about it said that it is there. */
  predicate Visible(history: seq<Packet>, thing: Thing, player: int) {
    history != [] &&
    match Says(history[|history| - 1], thing, player)
    case Some(there) => there
    case None => Visible(history[..|history| - 1], thing, player)
  }

  predicate Holds(t: Tracked, thing: Thing) {
    match thing
    case Entity(u) => u in t.entities
    case BossBar(b) => b in t.bossBars
    case Effect(e) => e in t.effects
    case Listed(u) => u in t.players
    case Scoreboard(o) => o in t.scoreboards
  }

  function TrackedAfter(t: Tracked, history: seq<Packet>, player: int): Tracked {
    if history == [] then t
    else Handled(TrackedAfter(t, history[..|history| - 1], player), history[|history| - 1], player)
  }

  lemma {:induction false} ListFollows(players: set<int>, entries: seq<ListEntry>, uuid: int)
    ensures uuid in ListedAfter(players, entries)
       <==> match LastWord(entries, uuid) case Some(add) => add case None => uuid in players
  {
    if entries != [] { ListFollows(players, entries[..|entries| - 1], uuid); }
  }

  /** The record holds exactly what a client that received the packets can see. */
  ghost predicate Mirrors(t: Tracked, history: seq<Packet>, player: int) {
    forall thing :: Holds(t, thing) <==> Visible(history, thing, player)
  }

  lemma MirrorsOneMore(t: Tracked, history: seq<Packet>, pk: Packet, player: int)
    requires Mirrors(t, history, player)
    ensures Mirrors(Handled(t, pk, player), history + [pk], player)
  {
    forall thing
      ensures Holds(Handled(t, pk, player), thing) <==> Visible(history + [pk], thing, player)
    {
      assert (history + [pk])[..|history + [pk]| - 1] == history;
      if thing.Listed? && pk.PlayerList? { ListFollows(t.players, pk.entries, thing.id); }
    }
  }

  /** The tracker mirrors the client after any run of forwarded packets. */
  lemma {:induction false} TrackerMirrorsClient(history: seq<Packet>, player: int)
    ensures Mirrors(TrackedAfter(NOTHING, history, player), history, player)
  {
    if history != [] {
      var pre, pk := history[..|history| - 1], history[|history| - 1];
      TrackerMirrorsClient(pre, player);
      MirrorsOneMore(TrackedAfter(NOTHING, pre, player), pre, pk, player);
      assert pre + [pk] == history;
    }
  }

  /** The packets take away everything held, and say nothing else. */
  ghost predicate Clears(packets: seq<Packet>, t: Tracked, player: int) {
    && (forall thing, i | 0 <= i < |packets| :: TakesOnly(packets[i], t, thing, player))
    && (forall thing | Holds(t, thing) :: Mentioned(packets, thing, player))
    && (forall i | 0 <= i < |packets| :: TakesAway(packets[i]))
  }

  /** The kinds of packets that take something away. */
  predicate TakesAway(pk: Packet) {
    pk.RemoveActor? || pk.BossEvent? || pk.MobEffect? || pk.PlayerList? || pk.RemoveObjective?
  }

  /** If the packet speaks of the thing at all, it takes it away, and the thing was held. */
  predicate TakesOnly(pk: Packet, t: Tracked, thing: Thing, player: int) {
    Says(pk, thing, player).Some? ==> !Says(pk, thing, player).value && Holds(t, thing)
  }

  ghost predicate Mentioned(packets: seq<Packet>, thing: Thing, player: int) {
    exists pk :: pk in packets && Says(pk, thing, player).Some?
  }

  lemma {:induction false} GoneAfter(history: seq<Packet>, packets: seq<Packet>, thing: Thing, player: int)
    requires forall pk | pk in packets && Says(pk, thing, player).Some? :: !Says(pk, thing, player).value
    ensures Visible(history + packets, thing, player) ==>
        Visible(history, thing, player) && !Mentioned(packets, thing, player)
  {
    if packets == [] {
      assert history + packets == history;
    } else {
      var n := |packets| - 1;
      assert (history + packets)[..|history + packets| - 1] == history + packets[..n];
      assert forall pk :: pk in packets <==> pk in packets[..n] || pk == packets[n];
      GoneAfter(history, packets[..n], thing, player);
    }
  }

  /** In whatever order the record is walked, sending the clear packets leaves nothing visible. */
  lemma ClearingEmptiesClient(t: Tracked, history: seq<Packet>, packets: seq<Packet>, player: int)
    requires Mirrors(t, history, player) && Clears(packets, t, player)
    ensures forall thing :: !Visible(history + packets, thing, player)
    ensures Mirrors(NOTHING, history + packets, player)
  {
    hide Visible, Says;
    forall thing
      ensures !Visible(history + packets, thing, player)
    {
      forall pk | pk in packets
        ensures TakesOnly(pk, t, thing, player)
      {
        var i :| 0 <= i < |packets| && packets[i] == pk;
      }
      GoneAfter(history, packets, thing, player);
    }
  }

  /** Packets that speak of nothing tracked change nothing. */
  lemma {:induction false} MirrorsMore(t: Tracked, history: seq<Packet>, packets: seq<Packet>, player: int)
    requires Mirrors(t, history, player)
    requires forall pk, thing | pk in packets :: Says(pk, thing, player) == None
    ensures Mirrors(t, history + packets, player)
  {
    if packets == [] {
      assert history + packets == history;
    } else {
      var pre, pk := packets[..|packets| - 1], packets[|packets| - 1];
      MirrorsMore(t, history, pre, player);
      assert (history + packets)[..|history + packets| - 1] == history + pre;
      assert forall thing :: Says(pk, thing, player) == None;
    }
  }

  function With(t: Tracked, thing: Thing): Tracked {
    match thing
    case Entity(u) => t.(entities := t.entities + {u})
    case BossBar(b) => t.(bossBars := t.bossBars + {b})
    case Effect(e) => t.(effects := t.effects + {e})
    case Listed(u) => t.(players := t.players + {u})
    case Scoreboard(o) => t.(scoreboards := t.scoreboards + {o})
  }

  /** The packet that takes one thing away. */
  function Removal(thing: Thing, player: int): Packet {
    match thing
    case Entity(u) => RemoveActor(u)
    case BossBar(b) => BossEvent(b, true)
    case Effect(e) => MobEffect(player, e, EffectRemove)
    case Listed(u) => PlayerList([ListEntry(u, false)])
    case Scoreboard(o) => RemoveObjective(o)
  }

  lemma NothingToClear(player: int)
    ensures Clears([], NOTHING, player)
  {
  }

  lemma ClearsOneMore(packets: seq<Packet>, t: Tracked, player: int, pk: Packet, after: Tracked)
    requires Clears(packets, t, player)
    requires forall thing | Holds(t, thing) :: Holds(after, thing)
    requires forall thing | Holds(after, thing) :: Holds(t, thing) || Says(pk, thing, player).Some?
    requires forall thing :: TakesOnly(pk, after, thing, player)
    requires TakesAway(pk)
    ensures Clears(packets + [pk], after, player)
  {
    hide Says, Holds;
    var ps := packets + [pk];
    forall thing, i | 0 <= i < |ps|
      ensures TakesOnly(ps[i], after, thing, player)
    {
      assert ps[i] == if i < |packets| then packets[i] else pk;
      assert i < |packets| ==> TakesOnly(packets[i], t, thing, player);
    }
    forall i | 0 <= i < |ps|
      ensures TakesAway(ps[i])
    {
      assert ps[i] == if i < |packets| then packets[i] else pk;
    }
    forall thing | Holds(after, thing)
      ensures Mentioned(ps, thing, player)
    {
      if Holds(t, thing) {
        var p :| p in packets && Says(p, thing, player).Some?;
        assert p in ps;
      } else {
        assert pk in ps;
      }
    }
  }

  lemma RemovesOne(packets: seq<Packet>, t: Tracked, player: int, pk: Packet, thing: Thing)
    requires Clears(packets, t, player)
    requires pk == Removal(thing, player) && !thing.Listed?
    ensures Clears(packets + [pk], With(t, thing), player)
  {
    hide Clears;
    ClearsOneMore(packets, t, player, pk, With(t, thing));
  }

  lemma {:induction false} AllRemoved(entries: seq<ListEntry>, uuid: int)
    requires forall e | e in entries :: !e.add
    ensures LastWord(entries, uuid) == if exists e :: e in entries && e.uuid == uuid then Some(false) else None
  {
    if entries != [] {
      var pre, last := entries[..|entries| - 1], entries[|entries| - 1];
      AllRemoved(pre, uuid);
      assert forall e :: e in entries <==> e in pre || e == last;
    }
  }

  lemma RemovesPlayers(packets: seq<Packet>, t: Tracked, player: int, listed: set<int>, entries: seq<ListEntry>)
    requires Clears(packets, t, player) && t.players == {}
    requires forall e :: e in entries <==> !e.add && e.uuid in listed
    ensures Clears(packets + [PlayerList(entries)], t.(players := listed), player)
  {
    hide Clears;
    forall uuid: int
      ensures LastWord(entries, uuid) == if uuid in listed then Some(false) else None
    {
      AllRemoved(entries, uuid);
      assert uuid in listed ==> ListEntry(uuid, false) in entries;
    }
    ClearsOneMore(packets, t, player, PlayerList(entries), t.(players := listed));
  }

  /** One entry that takes a player off the list, for every listed player. */
  method RemoveEntries(players: set<int>) returns (entries: seq<ListEntry>)
    ensures forall e :: e in entries <==> !e.add && e.uuid in players
  {
    entries := [];
    var todo := players;
    while todo != {}
      invariant todo <= players
      invariant forall e :: e in entries <==> !e.add && e.uuid in players - todo
      decreases todo
    {
      var p := AnyOf(todo);
      entries, todo := entries + [ListEntry(p, false)], todo - {p};
    }
  }

  class BackendStateTracker {
    var bossBars: set<int>
    var effects: set<int>
    var entities: set<int>
    var players: set<int>
    var scoreboards: set<string>

    ghost function Model(): Tracked reads this { Tracked(bossBars, effects, entities, players, scoreboards) }

    constructor ()
      ensures Model() == NOTHING
    {
      bossBars, effects, entities, players, scoreboards := {}, {}, {}, {}, {};
    }

    method Handle(pk: Packet, clientRuntimeID: int)
      modifies this
      ensures Model() == Handled(old(Model()), pk, clientRuntimeID)
    {
      match pk
      case Spawn(_, _, u) => entities := entities + {u};
      case RemoveActor(u) => entities := entities - {u};
      case BossEvent(b, hidden) =>
        if hidden {
          bossBars := bossBars - {b};
        } else {
          bossBars := bossBars + {b};
        }
      case MobEffect(r, e, op) =>
        if r != clientRuntimeID { return; }
        if op.EffectAdd? || op.EffectModify? {
          effects := effects + {e};
        } else if op.EffectRemove? {
          effects := effects - {e};
        }
      case PlayerList(entries) =>
        for i := 0 to |entries|
          invariant Model() == old(Model()).(players := ListedAfter(old(players), entries[..i]))
        {
          assert entries[..i + 1][..i] == entries[..i];
          if entries[i].add {
            players := players + {entries[i].uuid};
          } else {
            players := players - {entries[i].uuid};
          }
        }
        assert entries[..|entries|] == entries;
      case SetDisplayObjective(o) => scoreboards := scoreboards + {o};
      case RemoveObjective(o) => scoreboards := scoreboards - {o};
      case _ =>
    }

    /** The packets that remove everything tracked, in the arbitrary order of the sets, and an empty record. */
    method ClearPackets(clientRuntimeID: int) returns (packets: seq<Packet>)
      modifies this
      ensures Model() == NOTHING
      ensures Clears(packets, old(Model()), clientRuntimeID)
    {
      hide Clears, Says, Holds, Handled, Visible, TrackedAfter, LastWord, ListedAfter, Mentioned, TakesOnly;
      packets := [];
      NothingToClear(clientRuntimeID);
      ghost var all, done := Model(), NOTHING;
      var todo := entities;
      while todo != {}
        invariant done == NOTHING.(entities := done.entities) && done.entities + todo == entities
        invariant Clears(packets, done, clientRuntimeID)
        invariant Model() == all
        decreases todo
      {
        var u := AnyOf(todo);
        RemovesOne(packets, done, clientRuntimeID, RemoveActor(u), Entity(u));
        done := With(done, Entity(u));
        packets, todo := packets + [RemoveActor(u)], todo - {u};
      }
      assert done.entities == entities;
      todo := bossBars;
      while todo != {}
        invariant done == NOTHING.(entities := entities, bossBars := done.bossBars) && done.bossBars + todo == bossBars
        invariant Clears(packets, done, clientRuntimeID)
        invariant Model() == all
        decreases todo
      {
        var b := AnyOf(todo);
        RemovesOne(packets, done, clientRuntimeID, BossEvent(b, true), BossBar(b));
        done := With(done, BossBar(b));
        packets, todo := packets + [BossEvent(b, true)], todo - {b};
      }
      assert done.bossBars == bossBars;
      todo := effects;
      while todo != {}
        invariant done == all.(effects := done.effects, players := {}, scoreboards := {})
        invariant done.effects + todo == effects && Clears(packets, done, clientRuntimeID)
        invariant Model() == all
        decreases todo
      {
        var e := AnyOf(todo);
        RemovesOne(packets, done, clientRuntimeID, MobEffect(clientRuntimeID, e, EffectRemove), Effect(e));
        done := With(done, Effect(e));
        packets, todo := packets + [MobEffect(clientRuntimeID, e, EffectRemove)], todo - {e};
      }
      assert done.effects == effects;
      if players != {} {
        var entries := RemoveEntries(players);
        RemovesPlayers(packets, done, clientRuntimeID, players, entries);
        packets := packets + [PlayerList(entries)];
      }
      done := all.(scoreboards := {});
      var names := scoreboards;
      while names != {}
        invariant done == all.(scoreboards := done.scoreboards) && done.scoreboards + names == scoreboards
        invariant Clears(packets, done, clientRuntimeID)
        invariant Model() == all
        decreases names
      {
        var o := AnyOf(names);
        RemovesOne(packets, done, clientRuntimeID, RemoveObjective(o), Scoreboard(o));
        done := With(done, Scoreboard(o));
        packets, names := packets + [RemoveObjective(o)], names - {o};
      }
      assert done.scoreboards == scoreboards;
      assert done == all;
      bossBars, effects, entities, players, scoreboards := {}, {}, {}, {}, {};
    }
  }
}
