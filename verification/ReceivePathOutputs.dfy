// What the receive path writes, in every run, told from the packets alone: where each
// packet's PSN lies on the 24-bit circle decides, and a queue pair remembers the PSN it
// expects and whether it has refused a packet since.
module ReceivePathOutputs {
  import opened InfiniBand
  import Retransmitter
  import opened RequestPath
  import opened ReceivePathProof
  import opened ReceivePathTheorems
  import opened PsnWindow
  import opened StateHistory

  // ---------------------------------------------------------------- where a packet lies

  datatype Place = Expected | Duplicate | OutOfSequence

  function PlaceOf(oldest: nat, expected: nat, psn: nat): Place {
    if psn == expected then Expected
    else if Ahead(oldest, psn) < Ahead(oldest, expected) then Duplicate
    else OutOfSequence
  }

  predicate Answers(op: OpCode) {
    op.Ack? || op.ReadRespFirst? || op.ReadRespMiddle? || op.ReadRespLast? || op.ReadRespOnly?
  }

  predicate Writes(op: OpCode) { op.WriteFirst? || op.WriteMiddle? || op.WriteLast? || op.WriteOnly? }

  // A QP as the requests that arrive on it move it.
  datatype Responder = Responder(expected: nat, refused: bool)

  // A request in sequence moves the PSN expected; one out of sequence is refused.
  function ResponderAfter(start: Row, judged: seq<Judged>, q: nat): Responder
    decreases |judged|
  {
    if judged == [] then Responder(start.respEpsn, false)
    else
      var r, p := ResponderAfter(start, judged[..|judged| - 1], q), judged[|judged| - 1].packet;
      if p.qpn != q || Answers(p.op) then r
      else
        match PlaceOf(start.respOld, r.expected, p.psn)
        case Expected => Responder((p.psn + p.numPkg) % PSN_MOD, false)
        case Duplicate => r
        case OutOfSequence => r.(refused := true)
  }

  // The oldest PSN not acknowledged, as the responses on q move it. An acknowledgement
  // counts when it lies between that PSN and the one sent last.
  function UnackedAfter(start: Row, judged: seq<Judged>, q: nat): nat
    decreases |judged|
  {
    if judged == [] then start.reqOldUnack
    else
      var before, j := UnackedAfter(start, judged[..|judged| - 1], q), judged[|judged| - 1];
      var p, lastSent := j.packet, j.seen.maxForward;
      if p.qpn != q || !Answers(p.op) || p.isNak then before
      else if (if p.op.Ack? then Ahead(before, p.psn) <= Ahead(before, lastSent) else p.psn == before)
        then (p.psn + p.numPkg) % PSN_MOD
      else before
  }

  function StandingOf(start: Row, judged: seq<Judged>, p: Arrival): Place {
    if p.op.Ack? then Expected
    else if Answers(p.op) then PlaceOf(start.reqOldValid, UnackedAfter(start, judged, p.qpn), p.psn)
    else PlaceOf(start.respOld, ResponderAfter(start, judged, p.qpn).expected, p.psn)
  }

  // ---------------------------------------------------------------- what a packet calls for

  // Passed on: what is expected, every acknowledgement, and read requests sent again.
  predicate Passes(p: Arrival, place: Place) { place.Expected? || (place.Duplicate? && p.op.ReadRequest?) }

  // A write sent again is acknowledged again. The first request out of sequence since the
  // last one accepted is refused with the PSN expected.
  function EventsFor(p: Arrival, place: Place, r: Responder): seq<AckEvent> {
    if place.Duplicate? && Writes(p.op) then [AckEvent(p.qpn, p.psn, true, false)]
    else if place.OutOfSequence? && !Answers(p.op) && !r.refused then [AckEvent(p.qpn, r.expected, true, true)]
    else []
  }

  function DropsFor(p: Arrival, place: Place): seq<bool> {
    match place
    case Expected => if p.op.Ack? || p.op.ReadRequest? then [] else [false]
    case Duplicate => if p.op.ReadRequest? then [] else [true]
    case OutOfSequence => [true]
  }

  function PolicyFor(p: Arrival, place: Place): Policy {
    if Passes(p, place) then Policy(false, false)
    else Policy(!(place.Duplicate? && Writes(p.op)), place.Duplicate? && Writes(p.op))
  }

  predicate Confirms(p: Arrival, place: Place) { place.Expected? && Answers(p.op) && !p.isNak }

  function UpdatesFor(p: Arrival, place: Place): seq<Retransmitter.UpdateReq> {
    if Confirms(p, place) then [Retransmitter.UpdateReq(p.qpn, p.psn, p.op)] else []
  }

  // The last response to a request completes it.
  function CompletionsFor(p: Arrival, place: Place): seq<Completion> {
    if Confirms(p, place) && (p.op.Ack? || p.op.ReadRespLast? || p.op.ReadRespOnly?)
    then [Completion(p.op.Ack?, p.qpn, p.psn)] else []
  }

  // Any response but a MIDDLE one restarts the timer, or stops it if nothing is outstanding.
  function ClearsFor(p: Arrival, place: Place, lastSent: nat): seq<TimerClear> {
    if place.Expected? && Answers(p.op) && !p.op.ReadRespMiddle? then [TimerClear(p.qpn, p.psn == lastSent)] else []
  }

  function Due(start: seq<Row>, judged: seq<Judged>): RxOut
    requires forall i :: 0 <= i < |judged| ==> judged[i].packet.qpn < |start|
    decreases |judged|
  {
    if judged == [] then RxOut([], [], [], [], [], [], [])
    else
      var before, j := judged[..|judged| - 1], judged[|judged| - 1];
      var d, p, row := Due(start, before), j.packet, start[j.packet.qpn];
      var place, r := StandingOf(row, before, p), ResponderAfter(row, before, p.qpn);
      RxOut(d.headers + (if Passes(p, place) then [p] else []), d.drops + DropsFor(p, place),
            d.policies + [PolicyFor(p, place)], d.events + EventsFor(p, place, r),
            d.updates + UpdatesFor(p, place), d.completions + CompletionsFor(p, place),
            d.clears + ClearsFor(p, place, j.seen.maxForward))
  }

  // ---------------------------------------------------------------- the state table keeps what they remember

  lemma SameAnswers(op: OpCode)
    ensures Answers(op) <==> IsResponse(op)
  {
  }

  // PSNs a row holds are PSNs, and the counters never move what is oldest.
  ghost predicate Remembers(start: Row, row: Row, r: Responder, unacked: nat) {
    && row.respOld == start.respOld && row.reqOldValid == start.reqOldValid
    && IsPsn(start.respOld) && IsPsn(start.reqOldValid) && IsPsn(r.expected) && IsPsn(unacked)
    && row.respEpsn == r.expected && row.retry == (if r.refused then 6 else 7) && row.reqOldUnack == unacked
  }

  lemma OneJudged(start: Row, before: seq<Judged>, j: Judged, row: Row)
    requires WellFormed(j.packet) && (Answers(j.packet.op) ==> IsPsn(j.seen.maxForward))
    requires SeesCurrent(ViewOf(row), IsResponse(j.packet.op), j.seen)
    requires Remembers(start, row, ResponderAfter(start, before, j.packet.qpn), UnackedAfter(start, before, j.packet.qpn))
    ensures
      var row', judged, q := ApplyWrites(row, WriteBack(j.packet, j.seen), j.packet.qpn), before + [j], j.packet.qpn;
      Remembers(start, row', ResponderAfter(start, judged, q), UnackedAfter(start, judged, q))
  {
    var p, q, judged := j.packet, j.packet.qpn, before + [j];
    assert judged[..|before|] == before;
    if Answers(p.op) {
      DuplicateTestExact(j.seen.oldest, j.seen.epsn, p.psn);
      AckTestCyclic(j.seen.epsn, p.psn, j.seen.maxForward);
    } else {
      DuplicateTestExact(j.seen.oldest, j.seen.epsn, p.psn);
    }
    var ws := WriteBack(p, j.seen);
    if ws != [] {
      assert ws[..0] == [];
      assert ApplyWrites(row, ws[..0], q) == row;
    }
  }

  lemma OtherQueue(start: Row, before: seq<Judged>, j: Judged, row: Row, q: nat)
    requires j.packet.qpn != q
    ensures ApplyWrites(row, WriteBack(j.packet, j.seen), q) == row
    ensures ResponderAfter(start, before + [j], q) == ResponderAfter(start, before, q)
    ensures UnackedAfter(start, before + [j], q) == UnackedAfter(start, before, q)
  {
    assert (before + [j])[..|before|] == before;
    var ws := WriteBack(j.packet, j.seen);
    if ws != [] {
      assert ws[..0] == [];
      assert ApplyWrites(row, ws[..0], q) == row;
    }
  }

  // What a response is compared with as the last PSN sent is a PSN.
  ghost predicate SeenPsns(judged: seq<Judged>) {
    forall i :: 0 <= i < |judged| && Answers(judged[i].packet.op) ==> IsPsn(judged[i].seen.maxForward)
  }

  // In every run the rows remember what these functions tell from the packets.
  lemma {:induction false} RowsRemember(start: seq<Row>, judged: seq<Judged>, q: nat)
    requires Sequential(start, judged) && SeenPsns(judged) && q < |start|
    ensures
      Remembers(start[q], RowAfter(start[q], judged, q), ResponderAfter(start[q], judged, q),
                UnackedAfter(start[q], judged, q))
    decreases |judged|
  {
    if judged == [] {
      assert IsSetup(start[q]);
    } else {
      hide Remembers, ResponderAfter, UnackedAfter, WriteBack;
      var n := |judged| - 1;
      var before, j := judged[..n], judged[n];
      PrefixSequential(start, judged, n);
      RowsRemember(start, before, q);
      assert judged == before + [j];
      if j.packet.qpn == q {
        assert CurrentAt(start, judged, n);
        OneJudged(start[q], before, j, RowAfter(start[q], before, q));
      } else {
        OtherQueue(start[q], before, j, RowAfter(start[q], before, q), q);
      }
    }
  }

  // ---------------------------------------------------------------- every output

  lemma OneEmits(start: Row, before: seq<Judged>, j: Judged, row: Row)
    requires WellFormed(j.packet) && (Answers(j.packet.op) ==> IsPsn(j.seen.maxForward))
    requires SeesCurrent(ViewOf(row), IsResponse(j.packet.op), j.seen)
    requires Remembers(start, row, ResponderAfter(start, before, j.packet.qpn), UnackedAfter(start, before, j.packet.qpn))
    ensures
      var p, place := j.packet, StandingOf(start, before, j.packet);
      Emitted(p, j.seen)
      == RxOut(if Passes(p, place) then [p] else [], DropsFor(p, place), [PolicyFor(p, place)],
               EventsFor(p, place, ResponderAfter(start, before, p.qpn)), UpdatesFor(p, place), CompletionsFor(p, place),
               ClearsFor(p, place, j.seen.maxForward))
  {
    hide ResponderAfter, UnackedAfter, Ahead;
    DuplicateTestExact(j.seen.oldest, j.seen.epsn, j.packet.psn);
    hide InDuplicateWindow;
  }

  lemma {:induction false} OutputsAreDue(start: seq<Row>, judged: seq<Judged>)
    requires Sequential(start, judged) && SeenPsns(judged)
    ensures forall i :: 0 <= i < |judged| ==> judged[i].packet.qpn < |start|
    ensures OutputsOf(judged) == Due(start, judged)
    decreases |judged|
  {
    forall i | 0 <= i < |judged| ensures judged[i].packet.qpn < |start| {
      assert CurrentAt(start, judged, i);
    }
    if judged != [] {
      hide Remembers, ResponderAfter, UnackedAfter, Emitted, StandingOf, EventsFor, DropsFor, PolicyFor, UpdatesFor,
        CompletionsFor, ClearsFor, Passes;
      var n := |judged| - 1;
      var before, j := judged[..n], judged[n];
      var q := j.packet.qpn;
      PrefixSequential(start, judged, n);
      OutputsAreDue(start, before);
      assert CurrentAt(start, judged, n);
      RowsRemember(start, before, q);
      OneEmits(start[q], before, j, RowAfter(start[q], before, q));
    }
  }

  // ---------------------------------------------------------------- the answers of the state table

  // The packet was judged against what the table held at some moment.
  ghost predicate JudgedSeen(n: Node, actions: seq<Action>, j: Judged) {
    exists row: Row :: Held(n, actions, j.packet.qpn, row) && j.seen == ReadRow(row, IsResponse(j.packet.op))
  }

  lemma SeenNow(n: Node, actions: seq<Action>, a: Action, p: Arrival)
    requires p.qpn < |Run(n, actions).table|
    ensures JudgedSeen(n, actions + [a], Judged(p, ReadRow(Run(n, actions).table[p.qpn], IsResponse(p.op))))
  {
    HeldNow(n, actions, a, p.qpn);
  }

  ghost predicate AllSeen(n: Node, actions: seq<Action>, rx: RxPath) {
    && (forall i :: 0 <= i < |rx.judged| ==> JudgedSeen(n, actions, rx.judged[i]))
    && (rx.rxRsp != [] ==> JudgedSeen(n, actions, Judged(rx.packet, rx.rxRsp[0])))
  }

  lemma AllSeenLater(n: Node, actions: seq<Action>, a: Action, rx: RxPath)
    requires AllSeen(n, actions, rx)
    ensures AllSeen(n, actions + [a], rx)
  {
    forall j: Judged | JudgedSeen(n, actions, j) ensures JudgedSeen(n, actions + [a], j) {
      var row: Row :| Held(n, actions, j.packet.qpn, row) && j.seen == ReadRow(row, IsResponse(j.packet.op));
      HeldLater(n, actions, a, j.packet.qpn, row);
    }
  }

  lemma NotOnlyRead(table: seq<Row>, rx: RxPath)
    requires RxQueue(table, rx) && |rx.rxReq| > 1
    ensures rx.rxReq[0].RxWrite?
  {
    if rx.busy { assert rx.rxReq[..|rx.rxReq| - 1][0] == rx.rxReq[0]; }
  }

  // The one read under way is the waiting packet's.
  lemma ReadIsPackets(table: seq<Row>, rx: RxPath)
    requires RxQueue(table, rx) && rx.rxReq != [] && rx.rxReq[0].RxRead?
    ensures rx.busy && rx.rxRsp == [] && |rx.rxReq| == 1 && rx.packet.qpn < |table|
    ensures rx.rxReq[0] == RxRead(rx.packet.qpn, IsResponse(rx.packet.op))
  {
    if rx.busy && |rx.rxReq| > 1 { NotOnlyRead(table, rx); }
  }

  lemma ServedSeen(n: Node, actions: seq<Action>, p: Node)
    requires p == Run(n, actions) && RxQueue(p.table, p.rx) && p.rx.rxReq != [] && AllSeen(n, actions, p.rx)
    ensures AllSeen(n, actions + [RunStateTable], ServeRx(p).rx)
  {
    AllSeenLater(n, actions, RunStateTable, p.rx);
    if p.rx.rxReq[0].RxRead? {
      ReadIsPackets(p.table, p.rx);
      SeenNow(n, actions, RunStateTable, p.rx.packet);
    }
    hide JudgedSeen, ReadRow, WriteRow;
  }

  lemma FsmSeen(n: Node, actions: seq<Action>, table: seq<Row>, rx: RxPath)
    requires RxQueue(table, rx) && AllSeen(n, actions, rx)
    ensures AllSeen(n, actions + [RunRxIbhFsm], RxIbhFsm(rx))
  {
    AllSeenLater(n, actions, RunRxIbhFsm, rx);
    hide JudgedSeen, Emitted, Joined, WriteBack;
    if rx.busy && rx.rxRsp != [] { assert RxIbhFsm(rx).rxRsp == []; }
  }

  lemma OthersSeen(n: Node, a: Action)
    requires !a.RunRxIbhFsm? && !(a.RunStateTable? && n.rx.rxReq != [])
    ensures
      var rx, rx' := n.rx, Next(n, a).rx;
      rx'.judged == rx.judged && rx'.rxRsp == rx.rxRsp && rx'.packet == rx.packet
  {
  }

  lemma StepSees(n: Node, before: seq<Action>, p: Node, a: Action)
    requires p == Run(n, before) && AllSeen(n, before, p.rx) && RxQueue(p.table, p.rx)
    ensures AllSeen(n, before + [a], Next(p, a).rx)
  {
    hide AllSeen, RxQueue, Run, RxIbhFsm, ServeRx;
    if a.RunRxIbhFsm? {
      FsmSeen(n, before, p.table, p.rx);
    } else if a.RunStateTable? && p.rx.rxReq != [] {
      ServedSeen(n, before, p);
    } else {
      AllSeenLater(n, before, a, p.rx);
      OthersSeen(p, a);
      hide Next;
      SameSeen(n, before + [a], p.rx, Next(p, a).rx);
    }
  }

  // In every run each packet was judged against the table's row at some earlier moment;
  // JudgedSequentially says that its responder's side was still the current one.
  lemma {:induction false} RunSees(n: Node, actions: seq<Action>)
    requires Initial(n) && AllRxAllowed(actions, |n.table|)
    ensures AllSeen(n, actions, Run(n, actions).rx)
    decreases |actions|
  {
    if actions != [] {
      hide Next, AllSeen, RxQueue;
      var before, a := actions[..|actions| - 1], actions[|actions| - 1];
      RunSees(n, before);
      RunJudges(n, before);
      assert before + [a] == actions;
      StepSees(n, before, Run(n, before), a);
    }
  }

  lemma SameSeen(n: Node, actions: seq<Action>, rx: RxPath, rx': RxPath)
    requires AllSeen(n, actions, rx) && rx'.judged == rx.judged && rx'.rxRsp == rx.rxRsp && rx'.packet == rx.packet
    ensures AllSeen(n, actions, rx')
  {
    hide JudgedSeen;
  }

  lemma ResponsesSeePsns(n: Node, actions: seq<Action>)
    requires Initial(n) && AllRxAllowed(actions, |n.table|)
    ensures SeenPsns(Run(n, actions).rx.judged)
  {
    RunSees(n, actions);
    var judged := Run(n, actions).rx.judged;
    forall i | 0 <= i < |judged| && Answers(judged[i].packet.op) ensures IsPsn(judged[i].seen.maxForward) {
      var j := judged[i];
      assert JudgedSeen(n, actions, j);
      var row: Row :| Held(n, actions, j.packet.qpn, row) && j.seen == ReadRow(row, true);
    }
  }

  // In every run, whatever the interleaving: everything the receive path has written is
  // what the packets judged so far call for.
  lemma OutputsInRun(n: Node, actions: seq<Action>)
    requires Initial(n) && AllRxAllowed(actions, |n.table|)
    ensures
      var rx := Run(n, actions).rx;
      && (forall i :: 0 <= i < |rx.judged| ==> rx.judged[i].packet.qpn < |n.table| && JudgedSeen(n, actions, rx.judged[i]))
      && rx.out == Due(n.table, rx.judged)
  {
    RunWrites(n, actions);
    JudgedSequentially(n, actions);
    ResponsesSeePsns(n, actions);
    RunSees(n, actions);
    OutputsAreDue(n.table, Run(n, actions).rx.judged);
  }
}
