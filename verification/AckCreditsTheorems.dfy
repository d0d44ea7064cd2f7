// What passes through event_engine and ack_delay, in every run: the inputs are interleaved
// unchanged and each in its own order, every event that is not held back comes out as it
// went in, and every delayed acknowledgement comes out when its timer has run down.
module AckCreditsTheorems {
  import opened AckCredits

  // ---------------------------------------------------------------- histories

  // Everything ever written to the FIFO out of ack_delay, and everything read from it.
  function Written(s: State, actions: seq<Action>, timeout: nat): seq<Event>
    decreases |actions|
  {
    if actions == [] then []
    else
      var before := actions[..|actions| - 1];
      Written(s, before, timeout) + SentBy(Run(s, before, timeout), actions[|actions| - 1], timeout)
  }

  function ReadBy(s: State, a: Action, timeout: nat): seq<Event> {
    if |Next(s, a, timeout).toTx| < |s.toTx| then [s.toTx[0]] else []
  }

  function ReadOut(s: State, actions: seq<Action>, timeout: nat): seq<Event>
    decreases |actions|
  {
    if actions == [] then []
    else
      var before := actions[..|actions| - 1];
      ReadOut(s, before, timeout) + ReadBy(Run(s, before, timeout), actions[|actions| - 1], timeout)
  }

  // A turn of ack_delay: it took an event in, or its scan passed a session.
  datatype Turn = Took(e: Event) | Passed(session: nat)

  function TurnsOf(s: State, a: Action, timeout: nat): seq<Turn> {
    var taken := TakenBy(s, a, timeout);
    if taken != [] then [Took(taken[0])]
    else if a.RunAckDelay? && s.toDelay == [] && |s.toTx| < DEPTH then [Passed(s.pointer)]
    else []
  }

  function Turns(s: State, actions: seq<Action>, timeout: nat): seq<Turn>
    decreases |actions|
  {
    if actions == [] then []
    else
      var before := actions[..|actions| - 1];
      Turns(s, before, timeout) + TurnsOf(Run(s, before, timeout), actions[|actions| - 1], timeout)
  }

  // ---------------------------------------------------------------- what ack_delay sends

  // Turns of the scan a session's acknowledgement has still to wait; 0 when none waits.
  function Wait(turns: seq<Turn>, session: nat, timeout: nat): nat
    decreases |turns|
  {
    if turns == [] then 0
    else
      var before, t := Wait(turns[..|turns| - 1], session, timeout), turns[|turns| - 1];
      match t
      case Took(e) =>
        if e.session != session then before
        else if e.kind == AckEvent && before == 0 then timeout
        else 0
      case Passed(p) => if p == session && before > 0 then before - 1 else before
  }

  // An acknowledgement is held back when none waits for its session; any other event goes
  // out as it came. One that waits goes out at the last turn of its wait.
  function Due(turns: seq<Turn>, sessions: nat, timeout: nat): seq<Event>
    decreases |turns|
  {
    if turns == [] then []
    else
      var before, t := turns[..|turns| - 1], turns[|turns| - 1];
      Due(before, sessions, timeout) +
      match t
      case Took(e) =>
        if e.session >= sessions || (e.kind == AckEvent && Wait(before, e.session, timeout) == 0) then [] else [e]
      case Passed(p) => if Wait(before, p, timeout) == 1 then [Event(AckEvent, p)] else []
  }

  lemma TurnsSnoc(turns: seq<Turn>, t: Turn)
    ensures (turns + [t])[..|turns|] == turns
  {
  }

  predicate Waits(s: State, turns: seq<Turn>, timeout: nat) {
    s.pointer < |s.ackTable| && forall i :: 0 <= i < |s.ackTable| ==> s.ackTable[i] == Wait(turns, i, timeout)
  }

  lemma TakeSends(s: State, timeout: nat, turns: seq<Turn>)
    requires s.toDelay != [] && Waits(s, turns, timeout)
    ensures
      var s', turns' := AckDelay(s, timeout), turns + [Took(s.toDelay[0])];
      && TurnsOf(s, RunAckDelay, timeout) == [Took(s.toDelay[0])] && Waits(s', turns', timeout)
      && Due(turns', |s.ackTable|, timeout)
         == Due(turns, |s.ackTable|, timeout) + SentBy(s, RunAckDelay, timeout)
  {
    var s', e := AckDelay(s, timeout), s.toDelay[0];
    TurnsSnoc(turns, Took(e));
    if |s'.toTx| > |s.toTx| { assert s'.toTx[|s.toTx|..] == [e]; }
  }

  lemma ScanSends(s: State, timeout: nat, turns: seq<Turn>)
    requires s.toDelay == [] && |s.toTx| < DEPTH && Waits(s, turns, timeout)
    ensures
      var s', turns' := AckDelay(s, timeout), turns + [Passed(s.pointer)];
      && TurnsOf(s, RunAckDelay, timeout) == [Passed(s.pointer)] && Waits(s', turns', timeout)
      && Due(turns', |s.ackTable|, timeout)
         == Due(turns, |s.ackTable|, timeout) + SentBy(s, RunAckDelay, timeout)
  {
    var s' := AckDelay(s, timeout);
    TurnsSnoc(turns, Passed(s.pointer));
    if |s'.toTx| > |s.toTx| { assert s'.toTx[|s.toTx|..] == [Event(AckEvent, s.pointer)]; }
  }

  lemma StepSends(s: State, a: Action, timeout: nat, turns: seq<Turn>)
    requires Waits(s, turns, timeout)
    ensures
      var turns' := turns + TurnsOf(s, a, timeout);
      && Waits(Next(s, a, timeout), turns', timeout)
      && Due(turns', |s.ackTable|, timeout) == Due(turns, |s.ackTable|, timeout) + SentBy(s, a, timeout)
  {
    hide Wait, Due;
    if a.RunAckDelay? && s.toDelay != [] {
      TakeSends(s, timeout, turns);
    } else if a.RunAckDelay? && |s.toTx| < DEPTH {
      ScanSends(s, timeout, turns);
    } else {
      if !a.RunAckDelay? {
        EngineLeaves(s);
        OthersAreSilent(s, a, timeout);
      }
      hide EventEngine;
      assert turns + [] == turns && Due(turns, |s.ackTable|, timeout) + [] == Due(turns, |s.ackTable|, timeout);
    }
  }

  // In every run, everything ack_delay has written is what the events it took in and its
  // scan call for: each event that is not held back, unchanged and in order, and between
  // them one acknowledgement for each timer that ran down, at the turn it did.
  lemma {:induction false} SendsWhatIsDue(s: State, actions: seq<Action>, timeout: nat)
    requires Initial(s)
    ensures
      var e, turns := Run(s, actions, timeout), Turns(s, actions, timeout);
      && |e.ackTable| == |s.ackTable| && Waits(e, turns, timeout)
      && Written(s, actions, timeout) == Due(turns, |s.ackTable|, timeout)
    decreases |actions|
  {
    if actions != [] {
      hide Next, Waits, Wait, Due, TurnsOf, SentBy;
      var before := actions[..|actions| - 1];
      SendsWhatIsDue(s, before, timeout);
      StepSends(Run(s, before, timeout), actions[|actions| - 1], timeout, Turns(s, before, timeout));
      SameTable(Run(s, before, timeout), actions[|actions| - 1], timeout);
    }
  }

  lemma SameTable(s: State, a: Action, timeout: nat)
    ensures |Next(s, a, timeout).ackTable| == |s.ackTable|
  {
  }

  // ---------------------------------------------------------------- the inputs

  datatype Source = FromRx | FromTimer | FromApp

  datatype Admission = Admission(source: Source, e: Event)

  function InputOf(s: State, source: Source): seq<Event> {
    match source
    case FromRx => s.rxEvents
    case FromTimer => s.timerEvents
    case FromApp => s.appEvents
  }

  // What an action adds to the FIFO into ack_delay, and the input that became shorter.
  function AdmittedBy(s: State, a: Action, timeout: nat): seq<Admission> {
    var s' := Next(s, a, timeout);
    if |s'.toDelay| <= |s.toDelay| then []
    else
      var e := s'.toDelay[|s.toDelay|];
      if |s'.rxEvents| < |s.rxEvents| then [Admission(FromRx, e)]
      else if |s'.timerEvents| < |s.timerEvents| then [Admission(FromTimer, e)]
      else [Admission(FromApp, e)]
  }

  function Admissions(s: State, actions: seq<Action>, timeout: nat): seq<Admission>
    decreases |actions|
  {
    if actions == [] then []
    else
      var before := actions[..|actions| - 1];
      Admissions(s, before, timeout) + AdmittedBy(Run(s, before, timeout), actions[|actions| - 1], timeout)
  }

  function Events(admissions: seq<Admission>): seq<Event> {
    seq(|admissions|, i requires 0 <= i < |admissions| => admissions[i].e)
  }

  function EventsFrom(admissions: seq<Admission>, source: Source): seq<Event>
    decreases |admissions|
  {
    if admissions == [] then []
    else
      var last := admissions[|admissions| - 1];
      EventsFrom(admissions[..|admissions| - 1], source) + if last.source == source then [last.e] else []
  }

  function OfferedBy(a: Action, source: Source): seq<Event> {
    match a
    case OfferRx(e) => if source == FromRx then [e] else []
    case OfferTimer(e) => if source == FromTimer then [e] else []
    case OfferApp(e) => if source == FromApp then [e] else []
    case _ => []
  }

  function Offered(actions: seq<Action>, source: Source): seq<Event>
    decreases |actions|
  {
    if actions == [] then [] else Offered(actions[..|actions| - 1], source) + OfferedBy(actions[|actions| - 1], source)
  }

  function TakenIn(turns: seq<Turn>): seq<Event>
    decreases |turns|
  {
    if turns == [] then []
    else
      var t := turns[|turns| - 1];
      TakenIn(turns[..|turns| - 1]) + if t.Took? then [t.e] else []
  }

  // Counting tickets touches none of the inputs.
  lemma EngineIsAdmit(s: State)
    ensures
      var s', e := Admit(s), EventEngine(s);
      && e.toDelay == s'.toDelay && e.rxEvents == s'.rxEvents && e.timerEvents == s'.timerEvents
      && e.appEvents == s'.appEvents
  {
  }

  lemma AdmitsNext(s: State, timeout: nat)
    ensures
      var free := FirstGuard(s.count) && SecondGuard(s.count);
      AdmittedBy(s, RunEventEngine, timeout) ==
        if s.rxEvents != [] && |s.toDelay| < DEPTH then [Admission(FromRx, s.rxEvents[0])]
        else if free && s.timerEvents != [] then [Admission(FromTimer, s.timerEvents[0])]
        else if free && s.appEvents != [] then [Admission(FromApp, s.appEvents[0])]
        else []
  {
    EngineIsAdmit(s);
    hide EventEngine;
  }

  lemma EngineAdmits(s: State, source: Source)
    ensures
      var s', more := EventEngine(s), AdmittedBy(s, RunEventEngine, 0);
      && s'.toDelay == s.toDelay + Events(more) && |more| <= 1
      && EventsFrom(more, source) + InputOf(s', source) == InputOf(s, source)
  {
    EngineIsAdmit(s);
    AdmitsNext(s, 0);
    AdmitTakes(s);
    var more := AdmittedBy(s, RunEventEngine, 0);
    hide EventEngine, AdmittedBy, Admit, EventsFrom, Events, FirstGuard, SecondGuard;
    NoneFrom(source);
    if more != [] {
      assert more == [more[0]];
      OneFrom(more[0], source);
      var input := InputOf(s, more[0].source);
      assert input == [input[0]] + input[1..];
    }
  }

  lemma OneFrom(a: Admission, source: Source)
    ensures Events([a]) == [a.e] && EventsFrom([a], source) == if a.source == source then [a.e] else []
  {
    assert [a][..0] == [];
  }

  lemma NoneFrom(source: Source)
    ensures Events([]) == [] && EventsFrom([], source) == []
  {
  }

  // One call takes the head of one input at most, and hands it on.
  lemma AdmitTakes(s: State)
    ensures
      var s' := Admit(s);
      var free := FirstGuard(s.count) && SecondGuard(s.count);
      if s.rxEvents != [] && |s.toDelay| < DEPTH then
        s'.toDelay == s.toDelay + [s.rxEvents[0]] && s'.rxEvents == s.rxEvents[1..]
        && s'.timerEvents == s.timerEvents && s'.appEvents == s.appEvents
      else if free && s.timerEvents != [] then
        s'.toDelay == s.toDelay + [s.timerEvents[0]] && s'.rxEvents == s.rxEvents
        && s'.timerEvents == s.timerEvents[1..] && s'.appEvents == s.appEvents
      else if free && s.appEvents != [] then
        s'.toDelay == s.toDelay + [s.appEvents[0]] && s'.rxEvents == s.rxEvents
        && s'.timerEvents == s.timerEvents && s'.appEvents == s.appEvents[1..]
      else s' == s
  {
  }

  lemma EventsFromConcat(xs: seq<Admission>, ys: seq<Admission>, source: Source)
    requires |ys| <= 1
    ensures EventsFrom(xs + ys, source) == EventsFrom(xs, source) + EventsFrom(ys, source)
    ensures Events(xs + ys) == Events(xs) + Events(ys)
  {
    if ys == [] {
      assert xs + ys == xs;
    } else {
      assert ys == [ys[0]] && ys[..0] == [] && (xs + ys)[..|xs|] == xs;
    }
  }

  lemma OthersAdmitNothing(s: State, a: Action, source: Source, timeout: nat)
    requires !a.RunEventEngine?
    ensures AdmittedBy(s, a, timeout) == []
    ensures InputOf(Next(s, a, timeout), source) == InputOf(s, source) + OfferedBy(a, source)
  {
  }

  ghost predicate Interleaved(s: State, admissions: seq<Admission>, offered: seq<Event>, source: Source) {
    EventsFrom(admissions, source) + InputOf(s, source) == offered
  }

  lemma StepInterleaves(s: State, a: Action, timeout: nat, admissions: seq<Admission>, offered: seq<Event>, source: Source)
    requires Interleaved(s, admissions, offered, source)
    ensures
      Interleaved(Next(s, a, timeout), admissions + AdmittedBy(s, a, timeout), offered + OfferedBy(a, source), source)
  {
    hide EventsFrom, EventEngine, AdmittedBy, AckDelay;
    if a.RunEventEngine? {
      EngineAdmits(s, source);
      SameAdmission(s, timeout);
      EventsFromConcat(admissions, AdmittedBy(s, a, timeout), source);
      assert offered + [] == offered;
    } else {
      OthersAdmitNothing(s, a, source, timeout);
      assert admissions + [] == admissions;
    }
  }

  lemma SameAdmission(s: State, timeout: nat)
    ensures AdmittedBy(s, RunEventEngine, timeout) == AdmittedBy(s, RunEventEngine, 0)
    ensures Next(s, RunEventEngine, timeout) == EventEngine(s)
  {
  }

  // In every run the events admitted, split by the input they came from, are what each
  // input was offered, unchanged and in its order, up to what still waits there.
  lemma {:induction false} AdmitsInterleaved(s: State, actions: seq<Action>, timeout: nat, source: Source)
    requires Initial(s)
    ensures Interleaved(Run(s, actions, timeout), Admissions(s, actions, timeout), Offered(actions, source), source)
    decreases |actions|
  {
    if actions != [] {
      hide Next, Interleaved, AdmittedBy;
      var before := actions[..|actions| - 1];
      AdmitsInterleaved(s, before, timeout, source);
      StepInterleaves(Run(s, before, timeout), actions[|actions| - 1], timeout, Admissions(s, before, timeout),
                      Offered(before, source), source);
    } else {
      NothingYet(s, source);
    }
  }

  lemma NothingYet(s: State, source: Source)
    requires Initial(s)
    ensures Interleaved(s, [], [], source)
  {
  }

  // ---------------------------------------------------------------- the two FIFOs in between

  lemma TakenConcat(turns: seq<Turn>, more: seq<Turn>)
    requires |more| <= 1
    ensures TakenIn(turns + more) == TakenIn(turns) + TakenIn(more)
  {
    if more == [] {
      assert turns + more == turns;
    } else {
      assert more == [more[0]] && more[..0] == [] && (turns + more)[..|turns|] == turns;
    }
  }

  lemma StepPasses(s: State, a: Action, timeout: nat)
    ensures TakenIn(TurnsOf(s, a, timeout)) + Next(s, a, timeout).toDelay == s.toDelay + Events(AdmittedBy(s, a, timeout))
    ensures |TurnsOf(s, a, timeout)| <= 1 && |AdmittedBy(s, a, timeout)| <= 1
    ensures ReadBy(s, a, timeout) + Next(s, a, timeout).toTx == s.toTx + SentBy(s, a, timeout)
  {
    hide Admit, TakeRead, TakeWrite, TakeTx;
    if a.RunEventEngine? {
      EngineAdmits(s, FromRx);
      SameAdmission(s, timeout);
      EngineLeaves(s);
      hide EventEngine;
      TurnsNone(s, a, timeout);
    } else if a.RunAckDelay? {
      DelayPasses(s, timeout);
    } else {
      OthersPass(s, a, timeout);
    }
  }

  lemma TurnsNone(s: State, a: Action, timeout: nat)
    requires !a.RunAckDelay?
    ensures TurnsOf(s, a, timeout) == [] && SentBy(s, a, timeout) == []
  {
    OthersAreSilent(s, a, timeout);
  }

  lemma DelayPasses(s: State, timeout: nat)
    ensures AdmittedBy(s, RunAckDelay, timeout) == []
    ensures TakenIn(TurnsOf(s, RunAckDelay, timeout)) + AckDelay(s, timeout).toDelay == s.toDelay
    ensures ReadBy(s, RunAckDelay, timeout) + AckDelay(s, timeout).toTx == s.toTx + SentBy(s, RunAckDelay, timeout)
  {
    var s', turns := AckDelay(s, timeout), TurnsOf(s, RunAckDelay, timeout);
    if turns != [] { assert turns == [turns[0]] && turns[..0] == []; }
    if s.toDelay != [] { assert s.toDelay == [s.toDelay[0]] + s'.toDelay; }
    assert s.toTx <= s'.toTx;
  }

  lemma OthersPass(s: State, a: Action, timeout: nat)
    requires !a.RunEventEngine? && !a.RunAckDelay?
    ensures TurnsOf(s, a, timeout) == [] && AdmittedBy(s, a, timeout) == [] && SentBy(s, a, timeout) == []
    ensures Next(s, a, timeout).toDelay == s.toDelay
    ensures ReadBy(s, a, timeout) + Next(s, a, timeout).toTx == s.toTx
  {
  }

  // Both FIFOs hand on what they are given: taken in followed by what waits is what was
  // admitted, read out followed by what waits is what was written.
  lemma {:induction false} FifosPassOn(s: State, actions: seq<Action>, timeout: nat)
    requires Initial(s)
    ensures
      var e := Run(s, actions, timeout);
      && TakenIn(Turns(s, actions, timeout)) + e.toDelay == Events(Admissions(s, actions, timeout))
      && ReadOut(s, actions, timeout) + e.toTx == Written(s, actions, timeout)
    decreases |actions|
  {
    if actions != [] {
      hide Next, TurnsOf, AdmittedBy, SentBy, ReadBy, TakenIn, Events;
      var before, a := actions[..|actions| - 1], actions[|actions| - 1];
      var p := Run(s, before, timeout);
      FifosPassOn(s, before, timeout);
      StepPasses(p, a, timeout);
      TakenConcat(Turns(s, before, timeout), TurnsOf(p, a, timeout));
      EventsFromConcat(Admissions(s, before, timeout), AdmittedBy(p, a, timeout), FromRx);
      var p' := Next(p, a, timeout);
      OneMore(TakenIn(Turns(s, before, timeout)), p.toDelay, TakenIn(TurnsOf(p, a, timeout)), p'.toDelay,
              Events(AdmittedBy(p, a, timeout)));
      OneMore(ReadOut(s, before, timeout), p.toTx, ReadBy(p, a, timeout), p'.toTx, SentBy(p, a, timeout));
    }
  }

  lemma OneMore(taken: seq<Event>, fifo: seq<Event>, out: seq<Event>, fifo': seq<Event>, more: seq<Event>)
    requires out + fifo' == fifo + more
    ensures taken + out + fifo' == taken + fifo + more
  {
    assert taken + out + fifo' == taken + (out + fifo');
  }

  // ---------------------------------------------------------------- which event is admitted next

  // Receive events come first. A timer event is admitted only when no event is between the
  // two processes and as many are beyond as write tickets are unread; an application event
  // only when moreover no timer event waits.
  lemma AdmitsBy(s: State, actions: seq<Action>, timeout: nat)
    requires Initial(s) && WithinDepth(Run(s, actions, timeout))
    ensures
      var e := Run(s, actions, timeout);
      var free := e.toDelay == [] && e.readTickets == 0 && |e.toTx| + e.txTickets == e.writeTickets;
      AdmittedBy(e, RunEventEngine, timeout) ==
        if e.rxEvents != [] && |e.toDelay| < DEPTH then [Admission(FromRx, e.rxEvents[0])]
        else if free && e.timerEvents != [] then [Admission(FromTimer, e.timerEvents[0])]
        else if free && e.appEvents != [] then [Admission(FromApp, e.appEvents[0])]
        else []
  {
    RunTruthful(s, actions, timeout);
    var e := Run(s, actions, timeout);
    FirstGuardExact(e);
    SecondGuardIs(e);
    AdmitsNext(e, timeout);
  }
}
