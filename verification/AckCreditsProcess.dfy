// event_engine and ack_delay as they run: counters and a timer table updated in place.
module AckCreditsProcess {
  import opened AckCredits

  class Processes {
    const timeout: nat
    // event_engine
    var writeCounter: nat
    var adReadCounter: nat
    var adWriteCounter: nat
    var txEngReadCounter: nat
    // ack_delay
    const ackTable: array<nat>
    var pointer: nat
    // FIFOs
    var rxEvents: seq<Event>
    var timerEvents: seq<Event>
    var appEvents: seq<Event>
    var toDelay: seq<Event>
    var toTx: seq<Event>
    var readTickets: nat
    var writeTickets: nat
    var txTickets: nat

    ghost function Contents(): State
      reads this, ackTable
    {
      State(rxEvents, timerEvents, appEvents, toDelay, toTx, readTickets, writeTickets, txTickets,
            Counters(writeCounter, adReadCounter, adWriteCounter, txEngReadCounter), ackTable[..], pointer)
    }

    constructor (sessions: nat, timeout: nat)
      requires sessions > 0
      ensures Initial(Contents()) && ackTable.Length == sessions && this.timeout == timeout && fresh(ackTable)
    {
      this.timeout := timeout;
      ackTable := new nat[sessions](_ => 0);
      writeCounter, adReadCounter, adWriteCounter, txEngReadCounter, pointer := 0, 0, 0, 0, 0;
      rxEvents, timerEvents, appEvents, toDelay, toTx := [], [], [], [], [];
      readTickets, writeTickets, txTickets := 0, 0, 0;
    }

    method ForwardEvent(ev: Event)
      modifies this`toDelay, this`writeCounter
      ensures toDelay == old(toDelay) + [ev] && writeCounter == Inc(old(writeCounter))
    {
      toDelay := toDelay + [ev];
      writeCounter := (writeCounter + 1) % 0x100;
    }

    method AdmitEvent()
      modifies this`rxEvents, this`timerEvents, this`appEvents, this`toDelay, this`writeCounter
      ensures Contents() == Admit(old(Contents()))
    {
      if rxEvents != [] && |toDelay| < DEPTH {
        var ev := rxEvents[0];
        rxEvents := rxEvents[1..];
        ForwardEvent(ev);
      } else if writeCounter == adReadCounter && adWriteCounter == txEngReadCounter {
        if timerEvents != [] {
          var ev := timerEvents[0];
          timerEvents := timerEvents[1..];
          ForwardEvent(ev);
        } else if appEvents != [] {
          var ev := appEvents[0];
          appEvents := appEvents[1..];
          ForwardEvent(ev);
        }
      }
    }

    method CountReads()
      modifies this`readTickets, this`adReadCounter
      ensures Contents() == TakeRead(old(Contents()))
    {
      if readTickets > 0 {
        readTickets := readTickets - 1;
        adReadCounter := (adReadCounter + 1) % 0x100;
      }
    }

    method CountWrites()
      modifies this`writeTickets, this`adWriteCounter
      ensures Contents() == TakeWrite(old(Contents()))
    {
      if writeTickets > 0 {
        adWriteCounter := (adWriteCounter + 1) % 0x100;
        writeTickets := writeTickets - 1;
      }
    }

    method CountTransmits()
      modifies this`txTickets, this`txEngReadCounter
      ensures Contents() == TakeTx(old(Contents()))
    {
      if txTickets > 0 {
        txEngReadCounter := (txEngReadCounter + 1) % 0x100;
        txTickets := txTickets - 1;
      }
    }

    method EventEngine()
      modifies this
      ensures Contents() == Next(old(Contents()), RunEventEngine, timeout)
    {
      hide Admit, TakeRead, TakeWrite, TakeTx;
      AdmitEvent();
      CountReads();
      CountWrites();
      CountTransmits();
    }

    // Every event names a session.
    predicate InBounds()
      reads this
    {
      (toDelay != [] ==> toDelay[0].session < ackTable.Length) && pointer < ackTable.Length
    }

    method TakeIn()
      requires InBounds() && toDelay != []
      modifies this`toDelay, this`readTickets, this`toTx, this`writeTickets, ackTable
      ensures Contents() == TakeEvent(old(Contents()), timeout)
    {
      var ev := toDelay[0];
      toDelay := toDelay[1..];
      readTickets := readTickets + 1;
      if ev.kind == AckEvent && ackTable[ev.session] == 0 {
        ackTable[ev.session] := timeout;
      } else {
        ackTable[ev.session] := 0;
        toTx := toTx + [ev];
        writeTickets := writeTickets + 1;
      }
    }

    method ScanNext()
      requires InBounds()
      modifies this`pointer, this`toTx, this`writeTickets, ackTable
      ensures Contents() == Scan(old(Contents()))
    {
      if ackTable[pointer] > 0 && |toTx| < DEPTH {
        if ackTable[pointer] == 1 {
          toTx := toTx + [Event(AckEvent, pointer)];
          writeTickets := writeTickets + 1;
        }
        ackTable[pointer] := ackTable[pointer] - 1;
      }
      pointer := pointer + 1;
      if pointer == ackTable.Length {
        pointer := 0;
      }
    }

    method AckDelay()
      requires InBounds()
      modifies this, ackTable
      ensures Contents() == Next(old(Contents()), RunAckDelay, timeout)
    {
      hide TakeEvent, Scan;
      if toDelay != [] {
        TakeIn();
      } else {
        ScanNext();
      }
    }
  }
}
