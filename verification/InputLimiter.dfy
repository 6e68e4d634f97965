/** The input limiter: every server tick adds credit, every accepted input spends some of it. */
module InputLimiter {

  const START_CREDIT := 65535

  datatype State = State(firstInput: bool, allowed: int, clientTick: int, serverTick: int)

  /** What can happen to a player: an input arrives, the server ticks some milliseconds after the last tick, the
      client's tick is synchronised, another backend takes over. */
  datatype Event = Input | ServerTick(delta: int) | Resync(tick: int) | Transfer

  /** A late tick counts as one; only a stall of a whole extra tick or more counts as several. */
  function Elapsed(delta: int): (e: int)
    ensures e >= 1
    ensures if delta < 100 then e == 1 else 50 * e <= delta < 50 * (e + 1)
  {
    if delta >= 100 then delta / 50 else 1
  }

  predicate Accepts(s: State) { s.allowed > 0 }

  function AfterInput(s: State): State {
    if Accepts(s) then s.(firstInput := true, allowed := s.allowed - 1, clientTick := s.clientTick + 1)
    else s.(firstInput := true)
  }

  function Max(a: int, b: int): int { if a < b then b else a }

  function Min(a: int, b: int): int { if a < b then a else b }

  function Credit(s: State, elapsed: int): int {
    if !s.firstInput then START_CREDIT
    else Max(1, Min(Max(s.serverTick - s.clientTick, 0) + elapsed, Max(s.allowed, 0) + elapsed))
  }

  function AfterTick(s: State, elapsed: int): State {
    var moved := s.(serverTick := s.serverTick + elapsed);
    moved.(allowed := Credit(moved, elapsed))
  }

  function Next(s: State, event: Event): State {
    match event
    case Input => AfterInput(s)
    case ServerTick(delta) => AfterTick(s, Elapsed(delta))
    case Resync(tick) => s.(clientTick := tick)
    case Transfer => s.(firstInput := false, allowed := START_CREDIT)
  }

  function After(s: State, events: seq<Event>): State {
    if events == [] then s else Next(After(s, events[..|events| - 1]), events[|events| - 1])
  }

  function Accepted(s: State, events: seq<Event>): nat {
    if events == [] then 0
    else
      var pre := events[..|events| - 1];
      Accepted(s, pre) + if events[|events| - 1].Input? && Accepts(After(s, pre)) then 1 else 0
  }

  function ElapsedTicks(events: seq<Event>): nat {
    if events == [] then 0
    else
      var last := events[|events| - 1];
      ElapsedTicks(events[..|events| - 1]) + if last.ServerTick? then Elapsed(last.delta) else 0
  }

  /** After the first input, and until another backend takes over: what is accepted, together with what is still
      allowed, never exceeds the credit at the start and the ticks that passed, whatever the client's tick does. */
  lemma {:induction false} AcceptedWithinCredit(s: State, events: seq<Event>)
    requires s.firstInput && s.allowed >= 0
    requires forall e | e in events :: !e.Transfer?
    ensures var t := After(s, events);
            t.firstInput && t.allowed >= 0 && Accepted(s, events) + t.allowed <= s.allowed + ElapsedTicks(events)
  {
    if events != [] {
      assert forall e | e in events[..|events| - 1] :: e in events;
      AcceptedWithinCredit(s, events[..|events| - 1]);
    }
  }

  /** Both clocks: the server's moves by the ticks that passed, the client's by what was accepted. */
  lemma {:induction false} ClocksCount(s: State, events: seq<Event>)
    ensures After(s, events).serverTick == s.serverTick + ElapsedTicks(events)
    ensures (forall e | e in events :: !e.Resync?) ==>
              After(s, events).clientTick == s.clientTick + Accepted(s, events)
  {
    if events != [] {
      assert forall e | e in events[..|events| - 1] :: e in events;
      ClocksCount(s, events[..|events| - 1]);
    }
  }

  /** A synchronised client tick is that tick and what is accepted from then on; another backend starts with full
      credit, waits for a first input, and keeps both clocks. */
  lemma ClocksRestart(s: State, events: seq<Event>, tick: int, more: seq<Event>)
    requires forall e | e in more :: !e.Resync?
    ensures var t := After(s, events + [Resync(tick)]);
      After(t, more).clientTick == tick + Accepted(t, more) && t.serverTick == After(s, events).serverTick
    ensures var before, t := After(s, events), After(s, events + [Transfer]);
      !t.firstInput && t.allowed == 65535 && t.clientTick == before.clientTick && t.serverTick == before.serverTick
  {
    assert (events + [Resync(tick)])[..|events|] == events && (events + [Transfer])[..|events|] == events;
    ClocksCount(After(s, events + [Resync(tick)]), more);
  }

  /** Of inputs that arrive without a tick in between, as many are accepted as are allowed. */
  lemma {:induction false} BurstIsCut(s: State, n: nat)
    ensures Accepted(s, seq(n, _ => Input)) == if s.allowed <= 0 then 0 else if n <= s.allowed then n else s.allowed
    ensures n > 0 ==> After(s, seq(n, _ => Input)).firstInput
    ensures After(s, seq(n, _ => Input)).allowed == s.allowed - Accepted(s, seq(n, _ => Input))
  {
    if n > 0 {
      assert seq(n, _ => Input)[..n - 1] == seq(n - 1, _ => Input);
      BurstIsCut(s, n - 1);
    }
  }

  const START := State(false, 0, 0, 0)

  lemma {:induction false} NeverOverdrawn(events: seq<Event>)
    ensures After(START, events).allowed >= 0
  {
    if events != [] { NeverOverdrawn(events[..|events| - 1]); }
  }

  /** In every run of a player, after a server tick at least one input is allowed.  Once there was an input the
      credit is the ticks that passed, and on top of it the smaller of how far the client is behind and what it had
      left; so a client that is not behind is allowed exactly the ticks that passed.  Neither the lower limit of one
      nor the guard against a negative credit ever decides. */
  lemma TickLeavesCredit(events: seq<Event>, delta: int)
    ensures var s, t := After(START, events), After(START, events + [ServerTick(delta)]);
            var lag := t.serverTick - t.clientTick;
      && t.allowed >= 1
      && (t.firstInput ==>
            t.allowed == Elapsed(delta) + if lag <= 0 then 0 else if lag < s.allowed then lag else s.allowed)
      && (t.firstInput && t.clientTick >= t.serverTick ==> t.allowed == Elapsed(delta))
  {
    NeverOverdrawn(events);
    assert (events + [ServerTick(delta)])[..|events|] == events;
  }

  predicate Leads(s: State, bound: int) { s.clientTick - s.serverTick + s.allowed <= bound }

  /** If only accepted inputs move the client's tick, its lead over the server never exceeds a bound that the start
      and every stall respect. */
  lemma {:induction false} LeadIsBounded(s: State, events: seq<Event>, bound: int)
    requires s.firstInput && s.allowed >= 0 && Leads(s, bound)
    requires forall e | e in events :: e.Input? || (e.ServerTick? && Elapsed(e.delta) <= bound)
    ensures var t := After(s, events);
            t.firstInput && t.allowed >= 0 && Leads(t, bound) && t.clientTick - t.serverTick <= bound
  {
    if events != [] {
      assert events[|events| - 1] in events && forall e | e in events[..|events| - 1] :: e in events;
      LeadIsBounded(s, events[..|events| - 1], bound);
    }
  }

  /** Before the first input, a tick or a transfer leaves the full starting credit and nothing else changes it. */
  lemma {:induction false} CreditBeforeFirstInput(s: State, events: seq<Event>)
    requires !s.firstInput && forall e | e in events :: !e.Input?
    ensures var t := After(s, events);
      && !t.firstInput
      && t.allowed == (if exists e :: e in events && (e.ServerTick? || e.Transfer?) then 65535 else s.allowed)
  {
    if events != [] {
      var pre, last := events[..|events| - 1], events[|events| - 1];
      assert forall e :: e in events <==> e in pre || e == last;
      CreditBeforeFirstInput(s, pre);
    }
  }

  class Player {
    var serverTick: int
    var clientTick: int
    var lastServerTick: int
    var hasFirstInput: bool
    var allowedInputs: int

    ghost function Model(): State reads this { State(hasFirstInput, allowedInputs, clientTick, serverTick) }

    constructor (time: int)
      ensures Model() == State(false, 0, 0, 0) && lastServerTick == time
    {
      serverTick, clientTick, lastServerTick, hasFirstInput, allowedInputs := 0, 0, time, false, 0;
    }

    method InputAcceptable() returns (ok: bool)
      modifies this`hasFirstInput, this`allowedInputs
      ensures ok == Accepts(old(Model())) && hasFirstInput
      ensures allowedInputs == old(allowedInputs) - if ok then 1 else 0
    {
      if !hasFirstInput { hasFirstInput := true; }
      if allowedInputs <= 0 { return false; }
      allowedInputs := allowedInputs - 1;
      ok := true;
    }

    /** A refused input goes no further than the limiter. */
    method HandleAuthInput() returns (ok: bool)
      modifies this`hasFirstInput, this`allowedInputs, this`clientTick
      ensures ok == Accepts(old(Model())) && Model() == AfterInput(old(Model()))
    {
      ok := InputAcceptable();
      if ok { clientTick := clientTick + 1; }
    }

    method TickMovement(elapsedTicks: int)
      modifies this`allowedInputs
      ensures Model() == old(Model()).(allowed := Credit(old(Model()), elapsedTicks))
    {
      if !hasFirstInput {
        allowedInputs := START_CREDIT;
        return;
      }
      var latencyAllowance := serverTick - clientTick;
      if latencyAllowance < 0 { latencyAllowance := 0; }
      latencyAllowance := latencyAllowance + elapsedTicks;
      var defaultAllowance := allowedInputs;
      if defaultAllowance < 0 { defaultAllowance := 0; }
      defaultAllowance := defaultAllowance + elapsedTicks;
      if latencyAllowance < defaultAllowance {
        allowedInputs := latencyAllowance;
      } else {
        allowedInputs := defaultAllowance;
      }
      if allowedInputs < 1 { allowedInputs := 1; }
    }

    /** One tick of the server, at some time in milliseconds. */
    method Tick(time: int)
      modifies this`serverTick, this`lastServerTick, this`allowedInputs
      ensures lastServerTick == time && Model() == Next(old(Model()), ServerTick(time - old(lastServerTick)))
    {
      var delta := time - lastServerTick;
      lastServerTick := time;
      var prevTick := serverTick;
      if delta >= 100 {
        serverTick := serverTick + delta / 50;
      } else {
        serverTick := serverTick + 1;
      }
      TickMovement(serverTick - prevTick);
    }

    method ResetTransferState()
      modifies this`hasFirstInput, this`allowedInputs
      ensures Model() == Next(old(Model()), Transfer)
    {
      allowedInputs := START_CREDIT;
      hasFirstInput := false;
    }
  }
}
