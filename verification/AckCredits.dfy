// Event admission by wrapping credit counters, and delayed acknowledgements.
module AckCredits {
  const COUNTER_MOD: nat := 0x100
  const DEPTH: nat := 64

  datatype EventType = Tx | Rt | AckEvent | Syn | SynAck | Fin | Rst | AckNoDelay
  datatype Event = Event(kind: EventType, session: nat)

  // The 8-bit counters of event_engine.
  datatype Counters = Counters(write: nat, adRead: nat, adWrite: nat, txRead: nat)

  // FIFOs of tickets hold nothing but their number. toDelay and toTx are the event FIFOs
  // into and out of ack_delay.
  datatype State = State(
    rxEvents: seq<Event>, timerEvents: seq<Event>, appEvents: seq<Event>,
    toDelay: seq<Event>, toTx: seq<Event>,
    readTickets: nat, writeTickets: nat, txTickets: nat,
    count: Counters, ackTable: seq<nat>, pointer: nat)

  // ---------------------------------------------------------------- event_engine

  predicate FirstGuard(c: Counters) { c.write == c.adRead }
  predicate SecondGuard(c: Counters) { c.adWrite == c.txRead }

  function Inc(x: nat): nat { (x + 1) % COUNTER_MOD }

  function Forward(s: State, e: Event): State {
    s.(toDelay := s.toDelay + [e], count := s.count.(write := Inc(s.count.write)))
  }

  // Receive events first; timer and application events only while nothing seems to be
  // under way.
  function Admit(s: State): State {
    if s.rxEvents != [] && |s.toDelay| < DEPTH then Forward(s.(rxEvents := s.rxEvents[1..]), s.rxEvents[0])
    else if FirstGuard(s.count) && SecondGuard(s.count) then
      if s.timerEvents != [] then Forward(s.(timerEvents := s.timerEvents[1..]), s.timerEvents[0])
      else if s.appEvents != [] then Forward(s.(appEvents := s.appEvents[1..]), s.appEvents[0])
      else s
    else s
  }

  function TakeRead(s: State): State {
    if s.readTickets == 0 then s
    else s.(readTickets := s.readTickets - 1, count := s.count.(adRead := Inc(s.count.adRead)))
  }

  function TakeWrite(s: State): State {
    if s.writeTickets == 0 then s
    else s.(writeTickets := s.writeTickets - 1, count := s.count.(adWrite := Inc(s.count.adWrite)))
  }

  function TakeTx(s: State): State {
    if s.txTickets == 0 then s
    else s.(txTickets := s.txTickets - 1, count := s.count.(txRead := Inc(s.count.txRead)))
  }

  function EventEngine(s: State): State { TakeTx(TakeWrite(TakeRead(Admit(s)))) }

  // ---------------------------------------------------------------- ack_delay

  function Output(s: State, e: Event): State { s.(toTx := s.toTx + [e], writeTickets := s.writeTickets + 1) }

  function TakeEvent(s: State, timeout: nat): State
    requires s.toDelay != []
  {
    var e := s.toDelay[0];
    var s' := s.(toDelay := s.toDelay[1..], readTickets := s.readTickets + 1);
    if e.session >= |s.ackTable| then s'
    else if e.kind == AckEvent && s.ackTable[e.session] == 0 then s'.(ackTable := s.ackTable[e.session := timeout])
    else Output(s'.(ackTable := s.ackTable[e.session := 0]), e)
  }

  function Scan(s: State): State
    requires s.pointer < |s.ackTable|
  {
    var p := s.pointer;
    var s' := s.(pointer := if p + 1 == |s.ackTable| then 0 else p + 1);
    if s.ackTable[p] > 0 && |s.toTx| < DEPTH then
      var s1 := s'.(ackTable := s.ackTable[p := s.ackTable[p] - 1]);
      if s.ackTable[p] == 1 then Output(s1, Event(AckEvent, p)) else s1
    else s'
  }

  function AckDelay(s: State, timeout: nat): State {
    if s.toDelay != [] then TakeEvent(s, timeout)
    else if s.pointer < |s.ackTable| then Scan(s)
    else s
  }

  // ---------------------------------------------------------------- runs

  datatype Action =
    | RunEventEngine | RunAckDelay | TxEngineReads
    | OfferRx(e: Event) | OfferTimer(e: Event) | OfferApp(e: Event)

  function Next(s: State, a: Action, timeout: nat): State {
    match a
    case RunEventEngine => EventEngine(s)
    case RunAckDelay => AckDelay(s, timeout)
    case TxEngineReads => if s.toTx == [] then s else s.(toTx := s.toTx[1..], txTickets := s.txTickets + 1)
    case OfferRx(e) => s.(rxEvents := s.rxEvents + [e])
    case OfferTimer(e) => s.(timerEvents := s.timerEvents + [e])
    case OfferApp(e) => s.(appEvents := s.appEvents + [e])
  }

  function Run(s: State, actions: seq<Action>, timeout: nat): State
    decreases |actions|
  {
    if actions == [] then s else Next(Run(s, actions[..|actions| - 1], timeout), actions[|actions| - 1], timeout)
  }

  predicate Initial(s: State) {
    && s.rxEvents == [] && s.timerEvents == [] && s.appEvents == [] && s.toDelay == [] && s.toTx == []
    && s.readTickets == 0 && s.writeTickets == 0 && s.txTickets == 0 && s.count == Counters(0, 0, 0, 0)
    && s.pointer == 0 && |s.ackTable| > 0 && (forall i :: 0 <= i < |s.ackTable| ==> s.ackTable[i] == 0)
  }

  // ---------------------------------------------------------------- the counters tell the truth

  predicate Congruent(x: int, y: int) { (x - y) % COUNTER_MOD == 0 }

  // What is between the two processes, events and unread tickets together, modulo 256.
  predicate Truthful(s: State) {
    && s.count.write < COUNTER_MOD && s.count.adRead < COUNTER_MOD
    && s.count.adWrite < COUNTER_MOD && s.count.txRead < COUNTER_MOD
    && Congruent(s.count.write - s.count.adRead, |s.toDelay| + s.readTickets)
    && Congruent(s.count.adWrite - s.count.txRead, |s.toTx| + s.txTickets - s.writeTickets)
  }

  lemma Shift(x: int, y: int, d: int)
    requires Congruent(x, y)
    ensures Congruent(x + d, y + d)
  {
  }

  lemma IncIs(x: nat)
    requires x < COUNTER_MOD
    ensures Inc(x) == x + 1 || Inc(x) == x + 1 - COUNTER_MOD
  {
  }

  lemma Wraps(x: int, y: int, x': int)
    requires Congruent(x, y) && (x' == x || x' == x + COUNTER_MOD || x' == x - COUNTER_MOD)
    ensures Congruent(x', y)
  {
  }

  lemma AdmitKeeps(s: State)
    requires Truthful(s)
    ensures Truthful(Admit(s))
  {
    hide Congruent;
    var c := s.count;
    IncIs(c.write);
    Shift(c.write - c.adRead, |s.toDelay| + s.readTickets, 1);
    Wraps(c.write + 1 - c.adRead, |s.toDelay| + s.readTickets + 1, Inc(c.write) - c.adRead);
  }

  lemma TakesKeep(s: State)
    requires Truthful(s)
    ensures Truthful(TakeRead(s)) && Truthful(TakeWrite(s)) && Truthful(TakeTx(s))
  {
    hide Congruent;
    var c := s.count;
    var x, y, u, v := c.write - c.adRead, |s.toDelay| + s.readTickets, c.adWrite - c.txRead, |s.toTx| + s.txTickets - s.writeTickets;
    IncIs(c.adRead);
    Shift(x, y, -1);
    Wraps(x - 1, y - 1, c.write - Inc(c.adRead));
    IncIs(c.adWrite);
    Shift(u, v, 1);
    Wraps(u + 1, v + 1, Inc(c.adWrite) - c.txRead);
    IncIs(c.txRead);
    Shift(u, v, -1);
    Wraps(u - 1, v - 1, c.adWrite - Inc(c.txRead));
  }

  lemma StepKeeps(s: State, a: Action, timeout: nat)
    requires Truthful(s)
    ensures Truthful(Next(s, a, timeout))
  {
    hide Congruent, Admit, TakeRead, TakeWrite, TakeTx;
    if a.RunEventEngine? {
      AdmitKeeps(s);
      TakesKeep(Admit(s));
      TakesKeep(TakeRead(Admit(s)));
      TakesKeep(TakeWrite(TakeRead(Admit(s))));
    }
  }

  // In every run: writes minus reads acknowledged are the events and tickets between
  // event_engine and ack_delay; on the far side the unread write tickets count against.
  lemma {:induction false} RunTruthful(s: State, actions: seq<Action>, timeout: nat)
    requires Initial(s)
    ensures Truthful(Run(s, actions, timeout))
    decreases |actions|
  {
    if actions != [] {
      RunTruthful(s, actions[..|actions| - 1], timeout);
      StepKeeps(Run(s, actions[..|actions| - 1], timeout), actions[|actions| - 1], timeout);
    }
  }

  // ---------------------------------------------------------------- what the guards mean

  predicate WithinDepth(s: State) {
    |s.toDelay| <= DEPTH && |s.toTx| <= DEPTH && s.readTickets <= DEPTH && s.writeTickets <= DEPTH && s.txTickets <= DEPTH
  }

  // The first guard holds exactly when nothing is between event_engine and ack_delay.
  lemma FirstGuardExact(s: State)
    requires Truthful(s) && WithinDepth(s)
    ensures FirstGuard(s.count) <==> s.toDelay == [] && s.readTickets == 0
  {
  }

  // The second guard compares what is beyond ack_delay with the unread write tickets.
  lemma SecondGuardIs(s: State)
    requires Truthful(s) && WithinDepth(s)
    ensures SecondGuard(s.count) <==> |s.toTx| + s.txTickets == s.writeTickets
  {
  }

  // So it means "nothing is beyond ack_delay" exactly when no write ticket is unread, or
  // a different number of events is still out.
  lemma SecondGuardExactIff(s: State)
    requires Truthful(s) && WithinDepth(s)
    ensures
      var beyond := |s.toTx| + s.txTickets;
      (SecondGuard(s.count) <==> s.toTx == [] && s.txTickets == 0)
      <==> s.writeTickets == 0 || (beyond > 0 && beyond != s.writeTickets)
  {
    SecondGuardIs(s);
  }

  lemma RunSnoc(s: State, actions: seq<Action>, a: Action, timeout: nat)
    ensures Run(s, actions + [a], timeout) == Next(Run(s, actions, timeout), a, timeout)
  {
    assert (actions + [a])[..|actions|] == actions;
  }

  // ---------------------------------------------------------------- no acknowledgement is lost

  // What an action adds to the FIFO out of ack_delay.
  function SentBy(s: State, a: Action, timeout: nat): seq<Event> {
    var toTx := Next(s, a, timeout).toTx;
    if |toTx| > |s.toTx| then toTx[|s.toTx|..] else []
  }

  // What an action takes from the FIFO into ack_delay.
  function TakenBy(s: State, a: Action, timeout: nat): seq<Event> {
    if |Next(s, a, timeout).toDelay| < |s.toDelay| then [s.toDelay[0]] else []
  }

  // What ack_delay does, as seen from outside.
  datatype Note = TookAck(session: nat) | Sent(session: nat)

  function TookNotes(events: seq<Event>, sessions: nat): seq<Note> {
    if events != [] && events[0].kind == AckEvent && events[0].session < sessions then [TookAck(events[0].session)] else []
  }

  function SentNotes(events: seq<Event>): seq<Note> {
    seq(|events|, i requires 0 <= i < |events| => Sent(events[i].session))
  }

  function NotesOf(s: State, a: Action, timeout: nat): seq<Note> {
    TookNotes(TakenBy(s, a, timeout), |s.ackTable|) + SentNotes(SentBy(s, a, timeout))
  }

  function Notes(s: State, actions: seq<Action>, timeout: nat): seq<Note>
    decreases |actions|
  {
    if actions == [] then []
    else
      var before := actions[..|actions| - 1];
      Notes(s, before, timeout) + NotesOf(Run(s, before, timeout), actions[|actions| - 1], timeout)
  }

  // An acknowledgement was taken in for the session and nothing has been sent for it since.
  predicate Owed(notes: seq<Note>, session: nat)
    decreases |notes|
  {
    if notes == [] then false
    else
      var n := notes[|notes| - 1];
      if n.session == session then n.TookAck? else Owed(notes[..|notes| - 1], session)
  }

  lemma OwedSnoc(notes: seq<Note>, n: Note, session: nat)
    ensures Owed(notes + [n], session) == if n.session == session then n.TookAck? else Owed(notes, session)
  {
    assert (notes + [n])[..|notes|] == notes;
  }

  lemma OwedAppend(notes: seq<Note>, more: seq<Note>, session: nat)
    requires |more| <= 2 && (|more| == 2 ==> more[0].session == more[1].session)
    ensures Owed(notes + more, session)
            == if |more| > 0 && more[|more| - 1].session == session then more[|more| - 1].TookAck? else Owed(notes, session)
  {
    if |more| == 0 {
      assert notes + more == notes;
    } else if |more| == 1 {
      assert more == [more[0]];
      OwedSnoc(notes, more[0], session);
    } else {
      OwedSnoc(notes, more[0], session);
      OwedSnoc(notes + [more[0]], more[1], session);
      assert notes + more == notes + [more[0]] + [more[1]];
    }
  }

  predicate TableTells(s: State, notes: seq<Note>) {
    forall i :: 0 <= i < |s.ackTable| ==> (s.ackTable[i] > 0 <==> Owed(notes, i))
  }

  lemma OthersLeaveTable(s: State, a: Action, timeout: nat)
    requires !a.RunAckDelay?
    ensures Next(s, a, timeout).ackTable == s.ackTable
  {
  }

  lemma StepTells(s: State, a: Action, timeout: nat, notes: seq<Note>)
    requires TableTells(s, notes) && timeout > 0
    ensures TableTells(Next(s, a, timeout), notes + NotesOf(s, a, timeout))
  {
    hide Owed, Admit, TakeRead, TakeWrite, TakeTx, NotesOf;
    if !a.RunAckDelay? {
      OthersLeaveTable(s, a, timeout);
      OthersAreSilent(s, a, timeout);
      assert notes + [] == notes;
    } else {
      var s' := AckDelay(s, timeout);
      DelayNotes(s, timeout);
      forall i | 0 <= i < |s'.ackTable|
        ensures s'.ackTable[i] > 0 <==> Owed(notes + NotesOf(s, a, timeout), i)
      {
        OwedAppend(notes, NotesOf(s, a, timeout), i);
      }
    }
  }

  lemma EngineLeaves(s: State)
    ensures EventEngine(s).toTx == s.toTx && EventEngine(s).ackTable == s.ackTable && EventEngine(s).pointer == s.pointer
    ensures s.toDelay <= EventEngine(s).toDelay
  {
  }

  lemma OthersAreSilent(s: State, a: Action, timeout: nat)
    requires !a.RunAckDelay?
    ensures TakenBy(s, a, timeout) == [] && SentBy(s, a, timeout) == [] && NotesOf(s, a, timeout) == []
  {
    EngineLeaves(s);
    hide EventEngine;
  }

  // The notes of one call of ack_delay.
  lemma DelayNotes(s: State, timeout: nat)
    ensures
      var notes, e := NotesOf(s, RunAckDelay, timeout), s.toDelay;
      notes ==
        if e != [] then
          if e[0].session >= |s.ackTable| then []
          else (if e[0].kind == AckEvent then [TookAck(e[0].session)] else [])
               + (if e[0].kind == AckEvent && s.ackTable[e[0].session] == 0 then [] else [Sent(e[0].session)])
        else if s.pointer < |s.ackTable| && s.ackTable[s.pointer] == 1 && |s.toTx| < DEPTH then [Sent(s.pointer)]
        else []
  {
    var s' := AckDelay(s, timeout);
    if |s'.toTx| > |s.toTx| { assert s'.toTx[|s.toTx|..] == [s'.toTx[|s.toTx|]]; }
  }

  // In every run a session's timer runs exactly while an acknowledgement is owed to it.
  lemma {:induction false} TimerRunsIffOwed(s: State, actions: seq<Action>, timeout: nat)
    requires Initial(s) && timeout > 0
    ensures TableTells(Run(s, actions, timeout), Notes(s, actions, timeout))
    decreases |actions|
  {
    if actions != [] {
      TimerRunsIffOwed(s, actions[..|actions| - 1], timeout);
      StepTells(Run(s, actions[..|actions| - 1], timeout), actions[|actions| - 1], timeout,
                Notes(s, actions[..|actions| - 1], timeout));
    }
  }

  // ---------------------------------------------------------------- and it is sent in time

  // Nothing to take in, nothing waiting to be transmitted.
  predicate Quiet(s: State) { s.toDelay == [] && s.toTx == [] && s.pointer < |s.ackTable| }

  // One call of ack_delay, then the transmit engine reads what it may have sent.
  function Tick(s: State, timeout: nat): State { Next(Next(s, RunAckDelay, timeout), TxEngineReads, timeout) }

  function Ticks(s: State, n: nat, timeout: nat): State
    decreases n
  {
    if n == 0 then s else Tick(Ticks(s, n - 1, timeout), timeout)
  }

  function Minus(x: nat, n: nat): nat { if x < n then 0 else x - n }

  lemma TickCounts(s: State, timeout: nat)
    requires Quiet(s)
    ensures
      var s', p := Tick(s, timeout), s.pointer;
      && Quiet(s') && s'.ackTable == s.ackTable[p := Minus(s.ackTable[p], 1)]
      && s'.pointer == if p + 1 == |s.ackTable| then 0 else p + 1
  {
  }

  // The scan from its pointer on.
  lemma {:induction false} TicksCount(s: State, n: nat, timeout: nat)
    requires Quiet(s) && s.pointer + n <= |s.ackTable|
    ensures
      var e := Ticks(s, n, timeout);
      && Quiet(e) && |e.ackTable| == |s.ackTable|
      && e.pointer == (if s.pointer + n == |s.ackTable| then 0 else s.pointer + n)
      && forall i :: 0 <= i < |s.ackTable| ==>
           e.ackTable[i] == Minus(s.ackTable[i], if s.pointer <= i < s.pointer + n then 1 else 0)
    decreases n
  {
    if n > 0 {
      TicksCount(s, n - 1, timeout);
      TickCounts(Ticks(s, n - 1, timeout), timeout);
    }
  }

  // To the end of the table, then the given number of full rounds.
  function Rounds(s: State, rounds: nat, timeout: nat): State
    requires s.pointer < |s.ackTable|
    decreases rounds
  {
    if rounds == 0 then Ticks(s, |s.ackTable| - s.pointer, timeout)
    else Ticks(Rounds(s, rounds - 1, timeout), |s.ackTable|, timeout)
  }

  lemma {:induction false} RoundsCount(s: State, rounds: nat, timeout: nat)
    requires Quiet(s)
    ensures
      var e := Rounds(s, rounds, timeout);
      && Quiet(e) && |e.ackTable| == |s.ackTable| && e.pointer == 0
      && forall i :: 0 <= i < |s.ackTable| ==> e.ackTable[i] <= Minus(s.ackTable[i], rounds)
    decreases rounds
  {
    hide Tick, Ticks;
    if rounds == 0 {
      TicksCount(s, |s.ackTable| - s.pointer, timeout);
    } else {
      RoundsCount(s, rounds - 1, timeout);
      TicksCount(Rounds(s, rounds - 1, timeout), |s.ackTable|, timeout);
    }
  }

  lemma {:induction false} TicksAreARun(s: State, actions: seq<Action>, n: nat, timeout: nat) returns (more: seq<Action>)
    ensures Run(s, more, timeout) == Ticks(Run(s, actions, timeout), n, timeout)
    decreases n
  {
    if n == 0 {
      more := actions;
    } else {
      var before := TicksAreARun(s, actions, n - 1, timeout);
      RunSnoc(s, before, RunAckDelay, timeout);
      RunSnoc(s, before + [RunAckDelay], TxEngineReads, timeout);
      more := before + [RunAckDelay] + [TxEngineReads];
    }
  }

  lemma {:induction false} RoundsAreARun(s: State, actions: seq<Action>, rounds: nat, timeout: nat) returns (more: seq<Action>)
    requires Run(s, actions, timeout).pointer < |Run(s, actions, timeout).ackTable|
    ensures Run(s, more, timeout) == Rounds(Run(s, actions, timeout), rounds, timeout)
    decreases rounds
  {
    hide Run, Ticks;
    var e := Run(s, actions, timeout);
    if rounds == 0 {
      more := TicksAreARun(s, actions, |e.ackTable| - e.pointer, timeout);
    } else {
      var before := RoundsAreARun(s, actions, rounds - 1, timeout);
      more := TicksAreARun(s, before, |e.ackTable|, timeout);
    }
  }

  // Every acknowledgement owed is sent within as many rounds of the scan as its timer
  // had left, if nothing else comes in.
  lemma OwedAreSent(s: State, actions: seq<Action>, rounds: nat, timeout: nat) returns (more: seq<Action>)
    requires Initial(s) && timeout > 0 && Quiet(Run(s, actions, timeout))
    requires forall i :: 0 <= i < |Run(s, actions, timeout).ackTable| ==> Run(s, actions, timeout).ackTable[i] <= rounds
    ensures Run(s, more, timeout) == Rounds(Run(s, actions, timeout), rounds, timeout)
    ensures forall i :: 0 <= i < |Run(s, actions, timeout).ackTable| ==> !Owed(Notes(s, more, timeout), i)
  {
    hide Rounds, Owed, Run, Notes;
    more := RoundsAreARun(s, actions, rounds, timeout);
    RoundsCount(Run(s, actions, timeout), rounds, timeout);
    TimerRunsIffOwed(s, more, timeout);
  }

  // ---------------------------------------------------------------- a guard passed while busy

  // From power-up, the acknowledgement of session q has been taken in and accounted for,
  // its timer stands at v and the scan at p.
  function Delayed(s: State, q: nat, v: nat, p: nat): State
    requires q < |s.ackTable|
  {
    s.(ackTable := s.ackTable[q := v], pointer := p, count := Counters(1, 1, 0, 0))
  }

  lemma DelayedTick(s: State, q: nat, v: nat, p: nat, timeout: nat)
    requires Initial(s) && q < |s.ackTable| && p < |s.ackTable| && v > 0 && (p == q ==> v > 1)
    ensures Tick(Delayed(s, q, v, p), timeout)
            == Delayed(s, q, if p == q then v - 1 else v, if p + 1 == |s.ackTable| then 0 else p + 1)
  {
    var d := Delayed(s, q, v, p);
    if p == q { assert d.ackTable[p := v - 1] == s.ackTable[q := v - 1]; }
  }

  lemma {:induction false} DelayedTicks(s: State, q: nat, v: nat, n: nat, timeout: nat)
    requires Initial(s) && q < |s.ackTable| && n <= |s.ackTable| && v > 0 && (q < n ==> v > 1)
    ensures Ticks(Delayed(s, q, v, 0), n, timeout)
            == Delayed(s, q, if q < n then v - 1 else v, if n == |s.ackTable| then 0 else n)
    decreases n
  {
    hide Tick, Initial, Delayed;
    if n > 0 {
      DelayedTicks(s, q, v, n - 1, timeout);
      DelayedTick(s, q, if q < n - 1 then v - 1 else v, n - 1, timeout);
    } else {
      assert |s.ackTable| > 0;
    }
  }

  // Round by round, nothing is sent until the timer has come down to 1.
  lemma {:induction false} CountsDown(s: State, actions: seq<Action>, q: nat, v: nat, timeout: nat)
    returns (more: seq<Action>)
    requires Initial(s) && q < |s.ackTable| && v > 0 && Run(s, actions, timeout) == Delayed(s, q, v, 0)
    ensures Run(s, more, timeout) == Delayed(s, q, 1, q)
    decreases v
  {
    hide Ticks, Delayed, Run;
    if v == 1 {
      more := TicksAreARun(s, actions, q, timeout);
      DelayedTicks(s, q, 1, q, timeout);
    } else {
      var round := TicksAreARun(s, actions, |s.ackTable|, timeout);
      DelayedTicks(s, q, v, |s.ackTable|, timeout);
      more := CountsDown(s, round, q, v - 1, timeout);
    }
  }

  lemma AckTakenIn(s: State, q: nat, timeout: nat) returns (actions: seq<Action>)
    requires Initial(s) && q < |s.ackTable|
    ensures Run(s, actions, timeout) == Delayed(s, q, timeout, 0)
  {
    var a0: seq<Action>, e := [], Event(AckEvent, q);
    var a1 := a0 + [OfferRx(e)];
    RunSnoc(s, a0, OfferRx(e), timeout);
    var a2 := a1 + [RunEventEngine];
    RunSnoc(s, a1, RunEventEngine, timeout);
    assert Run(s, a2, timeout) == s.(toDelay := [e], count := Counters(1, 0, 0, 0));
    var a3 := a2 + [RunAckDelay];
    RunSnoc(s, a2, RunAckDelay, timeout);
    assert Run(s, a3, timeout) == s.(ackTable := s.ackTable[q := timeout], readTickets := 1, count := Counters(1, 0, 0, 0));
    actions := a3 + [RunEventEngine];
    RunSnoc(s, a3, RunEventEngine, timeout);
  }

  lemma BusyAdmits(s: State, q: nat, timeout: nat)
    requires Initial(s) && q < |s.ackTable|
    ensures
      var e := Next(Next(Delayed(s, q, 1, q), RunAckDelay, timeout), OfferTimer(Event(Rt, q)), timeout);
      && WithinDepth(e) && e.toTx == [Event(AckEvent, q)] && e.timerEvents == [Event(Rt, q)]
      && Next(e, RunEventEngine, timeout).timerEvents == []
  {
  }

  // When a delayed acknowledgement runs out, ack_delay emits it without taking anything
  // in, and before event_engine reads the write ticket it admits a timer event although
  // the transmit FIFO is not empty: for any number of sessions, in any of them, whatever
  // the timeout.
  lemma AdmitsWhileBusy(s: State, q: nat, timeout: nat) returns (actions: seq<Action>)
    requires Initial(s) && q < |s.ackTable| && timeout > 0
    ensures
      var e := Run(s, actions, timeout);
      && WithinDepth(e) && e.toTx == [Event(AckEvent, q)] && e.timerEvents == [Event(Rt, q)]
      && Run(s, actions + [RunEventEngine], timeout).timerEvents == []
  {
    var taken := AckTakenIn(s, q, timeout);
    var ready := CountsDown(s, taken, q, timeout, timeout);
    BusyAdmits(s, q, timeout);
    hide Run, Next, Delayed, Initial;
    RunSnoc(s, ready, RunAckDelay, timeout);
    actions := ready + [RunAckDelay] + [OfferTimer(Event(Rt, q))];
    RunSnoc(s, ready + [RunAckDelay], OfferTimer(Event(Rt, q)), timeout);
    RunSnoc(s, actions, RunEventEngine, timeout);
  }
}
