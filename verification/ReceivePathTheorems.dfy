// What holds of the receive path in every run.
module ReceivePathTheorems {
  import opened InfiniBand
  import Retransmitter
  import opened RequestPath
  import opened ReceivePathProof
  import opened PsnWindow

  ghost predicate AllRxAllowed(actions: seq<Action>, queues: nat) {
    forall k :: 0 <= k < |actions| ==> RxAllowed(queues, actions[k])
  }

  lemma {:induction false} RunJudges(n: Node, actions: seq<Action>)
    requires Initial(n) && AllRxAllowed(actions, |n.table|)
    ensures NodeRxInv(Run(n, actions), n.table)
    decreases |actions|
  {
    if actions != [] {
      RunJudges(n, actions[..|actions| - 1]);
      StepKeeps(Run(n, actions[..|actions| - 1]), n.table, actions[|actions| - 1]);
    }
  }

  // ---------------------------------------------------------------- in order, one at a time

  function ArrivedBy(a: Action): seq<Arrival> { if a.Arrive? then [a.packet] else [] }

  function Arrived(actions: seq<Action>): seq<Arrival>
    decreases |actions|
  {
    if actions == [] then [] else Arrived(actions[..|actions| - 1]) + ArrivedBy(actions[|actions| - 1])
  }

  function Packets(judged: seq<Judged>): seq<Arrival> {
    seq(|judged|, i requires 0 <= i < |judged| => judged[i].packet)
  }

  function TakenUp(rx: RxPath): seq<Arrival> { Packets(rx.judged) + if rx.busy then [rx.packet] else [] }

  lemma FsmTakesUp(rx: RxPath)
    ensures TakenUp(RxIbhFsm(rx)) + RxIbhFsm(rx).arrivals == TakenUp(rx) + rx.arrivals
  {
    hide Emitted, Joined, WriteBack;
    if rx.busy && rx.rxRsp != [] {
      assert Packets(RxIbhFsm(rx).judged) == Packets(rx.judged) + [rx.packet];
    } else if !rx.busy && rx.arrivals != [] {
      assert rx.arrivals == [rx.arrivals[0]] + rx.arrivals[1..];
    }
  }

  lemma StepTakesUp(n: Node, a: Action)
    ensures TakenUp(Next(n, a).rx) + Next(n, a).rx.arrivals == TakenUp(n.rx) + n.rx.arrivals + ArrivedBy(a)
  {
    hide Emitted, Joined, WriteBack;
    var rx, rx' := n.rx, Next(n, a).rx;
    if a.RunRxIbhFsm? {
      FsmTakesUp(rx);
    } else if a.Arrive? {
      assert TakenUp(rx) + (rx.arrivals + [a.packet]) == TakenUp(rx) + rx.arrivals + [a.packet];
    } else {
      assert TakenUp(rx') == TakenUp(rx) && rx'.arrivals == rx.arrivals;
    }
  }

  // Packets are judged in the order of arrival, none lost, none twice.
  lemma {:induction false} JudgedInOrder(n: Node, actions: seq<Action>)
    requires Initial(n)
    ensures TakenUp(Run(n, actions).rx) + Run(n, actions).rx.arrivals == Arrived(actions)
    decreases |actions|
  {
    if actions != [] {
      JudgedInOrder(n, actions[..|actions| - 1]);
      StepTakesUp(Run(n, actions[..|actions| - 1]), actions[|actions| - 1]);
    }
  }

  // A sequence of judgements a run can end with.
  ghost predicate Sequential(start: seq<Row>, judged: seq<Judged>) {
    && JudgedCurrent(start, judged)
    && (forall q :: 0 <= q < |start| ==> IsSetup(start[q]))
    && (forall i :: 0 <= i < |judged| ==> WellFormed(judged[i].packet))
  }

  lemma {:induction false} ArrivedOk(actions: seq<Action>, queues: nat)
    requires AllRxAllowed(actions, queues)
    ensures forall i :: 0 <= i < |Arrived(actions)| ==> WellFormed(Arrived(actions)[i])
    decreases |actions|
  {
    if actions != [] {
      ArrivedOk(actions[..|actions| - 1], queues);
      assert RxAllowed(queues, actions[|actions| - 1]);
    }
  }

  // However the processes interleave, every packet is judged against the state its
  // predecessors left.
  lemma JudgedSequentially(n: Node, actions: seq<Action>)
    requires Initial(n) && AllRxAllowed(actions, |n.table|)
    ensures Sequential(n.table, Run(n, actions).rx.judged)
  {
    RunJudges(n, actions);
    JudgedInOrder(n, actions);
    ArrivedOk(actions, |n.table|);
    var judged := Run(n, actions).rx.judged;
    forall i | 0 <= i < |judged| ensures WellFormed(judged[i].packet) {
      assert judged[i].packet == Packets(judged)[i] == Arrived(actions)[i];
    }
  }

  // ---------------------------------------------------------------- one judgement

  predicate IsRequestOn(j: Judged, q: nat) { j.packet.qpn == q && !IsResponse(j.packet.op) }

  predicate Accepts(j: Judged, q: nat) { IsRequestOn(j, q) && Verdicts(j) == Forward }

  predicate Naks(j: Judged, q: nat) { IsRequestOn(j, q) && Verdicts(j).Nak? }

  // A request is accepted iff it carries the PSN expected.
  lemma AcceptsWhen(j: Judged, q: nat)
    requires IsRequestOn(j, q)
    ensures Accepts(j, q) <==> j.packet.psn == j.seen.epsn
  {
  }

  // What judging j does to the responder's side of QP q.
  lemma Effect(row: Row, j: Judged, q: nat)
    requires WellFormed(j.packet) && (IsRequestOn(j, q) ==> SeesCurrent(ViewOf(row), false, j.seen))
    ensures
      var row' := ApplyWrites(row, WriteBack(j.packet, j.seen), q);
      && row'.respOld == row.respOld
      && row'.respEpsn == (if Accepts(j, q) then (row.respEpsn + j.packet.numPkg) % PSN_MOD else row.respEpsn)
      && row'.retry == (if Accepts(j, q) then 7 else if Naks(j, q) then 6 else row.retry)
  {
    var ws := WriteBack(j.packet, j.seen);
    if ws != [] {
      assert ws[..0] == [];
      assert ApplyWrites(row, ws[..0], q) == row;
    }
  }

  // The state QP q is judged against next.
  lemma StateAfter(start: seq<Row>, judged: seq<Judged>, q: nat)
    requires Sequential(start, judged) && judged != [] && q < |start|
    ensures
      var js, j := judged[..|judged| - 1], judged[|judged| - 1];
      var row, row' := RowAfter(start[q], js, q), RowAfter(start[q], judged, q);
      && (IsRequestOn(j, q) ==> j.seen == RxStateRsp(row.respEpsn, row.respOld, row.respEpsn, row.retry))
      && row'.respOld == row.respOld
      && row'.respEpsn == (if Accepts(j, q) then (row.respEpsn + j.packet.numPkg) % PSN_MOD else row.respEpsn)
      && row'.retry == (if Accepts(j, q) then 7 else if Naks(j, q) then 6 else row.retry)
  {
    var js, j := judged[..|judged| - 1], judged[|judged| - 1];
    PrefixSequential(start, judged, |judged| - 1);
    assert CurrentAt(start, judged, |judged| - 1);
    Effect(RowAfter(start[q], js, q), j, q);
  }

  lemma PrefixSequential(start: seq<Row>, judged: seq<Judged>, k: nat)
    requires Sequential(start, judged) && k <= |judged|
    ensures Sequential(start, judged[..k])
  {
    forall i | 0 <= i < k ensures CurrentAt(start, judged[..k], i) {
      assert CurrentAt(start, judged, i);
      assert judged[..k][i] == judged[i] && judged[..k][..i] == judged[..i];
    }
  }

  // ---------------------------------------------------------------- what goes out

  function OutputsOf(judged: seq<Judged>): RxOut
    decreases |judged|
  {
    if judged == [] then NoOutput()
    else
      var j := judged[|judged| - 1];
      Joined(OutputsOf(judged[..|judged| - 1]), Emitted(j.packet, j.seen))
  }

  lemma StepWrites(n: Node, a: Action)
    requires n.rx.out == OutputsOf(n.rx.judged)
    ensures Next(n, a).rx.out == OutputsOf(Next(n, a).rx.judged)
  {
    hide Emitted, Joined;
    if a.RunRxIbhFsm? && n.rx.busy && n.rx.rxRsp != [] {
      var judged := Next(n, a).rx.judged;
      assert judged[..|judged| - 1] == n.rx.judged;
    }
  }

  // Every output is written in the order the packets were judged, by each packet its own.
  lemma {:induction false} RunWrites(n: Node, actions: seq<Action>)
    requires Initial(n)
    ensures Run(n, actions).rx.out == OutputsOf(Run(n, actions).rx.judged)
    decreases |actions|
  {
    if actions != [] {
      RunWrites(n, actions[..|actions| - 1]);
      StepWrites(Run(n, actions[..|actions| - 1]), actions[|actions| - 1]);
    }
  }

  // An acknowledgement is an update for the retransmitter whatever its PSN: the window
  // test guards the state table only, so a duplicate releases another entry.
  lemma AckAlwaysReleases(p: Arrival, seen: RxStateRsp)
    requires p.op == Ack && !p.isNak
    ensures Emitted(p, seen).updates == [Retransmitter.UpdateReq(p.qpn, p.psn, Ack)]
    ensures WriteBack(p, seen) == [] <==> !InAckWindow(seen.epsn, p.psn, seen.maxForward)
  {
  }

  // ---------------------------------------------------------------- one NAK per gap

  // The last NAK on q is still unanswered by an accepted request.
  predicate NakPending(judged: seq<Judged>, q: nat)
    decreases |judged|
  {
    if judged == [] then false
    else
      var j := judged[|judged| - 1];
      if Accepts(j, q) then false else if Naks(j, q) then true else NakPending(judged[..|judged| - 1], q)
  }

  lemma {:induction false} RetryTellsPending(start: seq<Row>, judged: seq<Judged>, q: nat)
    requires Sequential(start, judged) && q < |start|
    ensures RowAfter(start[q], judged, q).retry == if NakPending(judged, q) then 6 else 7
    decreases |judged|
  {
    if judged != [] {
      StateAfter(start, judged, q);
      PrefixSequential(start, judged, |judged| - 1);
      RetryTellsPending(start, judged[..|judged| - 1], q);
    }
  }

  // Neither in order nor a duplicate.
  predicate OutOfSequence(j: Judged) {
    j.packet.psn != j.seen.epsn && Ahead(j.seen.oldest, j.packet.psn) >= Ahead(j.seen.oldest, j.seen.epsn)
  }

  lemma {:induction false} EpsnIsPsn(start: seq<Row>, judged: seq<Judged>, q: nat)
    requires Sequential(start, judged) && q < |start|
    ensures
      var row := RowAfter(start[q], judged, q);
      IsPsn(row.respEpsn) && row.respOld == start[q].respEpsn && IsPsn(row.respOld)
    decreases |judged|
  {
    assert IsSetup(start[q]);
    if judged != [] {
      StateAfter(start, judged, q);
      PrefixSequential(start, judged, |judged| - 1);
      EpsnIsPsn(start, judged[..|judged| - 1], q);
    }
  }

  // A request is answered with a NAK, for the expected PSN, iff it is out of sequence
  // and no earlier NAK on its QP is still pending. Responses are never answered with one.
  lemma NakIff(start: seq<Row>, judged: seq<Judged>, k: nat, q: nat)
    requires Sequential(start, judged) && k < |judged| && judged[k].packet.qpn == q < |start|
    ensures IsResponse(judged[k].packet.op) ==>
              !Verdicts(judged[k]).Nak? && Emitted(judged[k].packet, judged[k].seen).events == []
    ensures !IsResponse(judged[k].packet.op) ==>
              && (Verdicts(judged[k]).Nak? <==> OutOfSequence(judged[k]) && !NakPending(judged[..k], q))
              && (Verdicts(judged[k]).Nak? ==>
                    var epsn := RowAfter(start[q], judged[..k], q).respEpsn;
                    && Verdicts(judged[k]) == Nak(epsn)
                    && Emitted(judged[k].packet, judged[k].seen).events == [AckEvent(q, epsn, true, true)])
  {
    var j := judged[k];
    assert CurrentAt(start, judged, k);
    PrefixSequential(start, judged, k);
    EpsnIsPsn(start, judged[..k], q);
    RetryTellsPending(start, judged[..k], q);
    if !IsResponse(j.packet.op) {
      DuplicateTestExact(j.seen.oldest, j.seen.epsn, j.packet.psn);
    }
  }

  lemma {:induction false} PendingUntilAccepted(judged: seq<Judged>, q: nat, i: nat, k: nat)
    requires i < k <= |judged| && Naks(judged[i], q)
    requires forall m :: i < m < k ==> !Accepts(judged[m], q)
    ensures NakPending(judged[..k], q)
    decreases k
  {
    assert judged[..k][..k - 1] == judged[..k - 1] && judged[..k][k - 1] == judged[k - 1];
    if k > i + 1 {
      PendingUntilAccepted(judged, q, i, k - 1);
    }
  }

  // Between two NAKs for requests of the same QP an in-order request was accepted.
  lemma NakOncePerGap(start: seq<Row>, judged: seq<Judged>, q: nat, i: nat, k: nat)
    requires Sequential(start, judged) && i < k < |judged| && Naks(judged[i], q) && Naks(judged[k], q)
    ensures exists m :: i < m < k && Accepts(judged[m], q)
  {
    assert CurrentAt(start, judged, k);
    NakIff(start, judged, k, q);
    if forall m :: i < m < k ==> !Accepts(judged[m], q) {
      PendingUntilAccepted(judged, q, i, k);
    }
  }
}
