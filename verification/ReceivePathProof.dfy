// How arriving packets are judged, for every interleaving of the node's processes: one
// after the other, each against the state its predecessors left, although the state
// table is a shared server behind FIFOs.
module ReceivePathProof {
  import opened InfiniBand
  import opened RequestPath

  // ---------------------------------------------------------------- the sequential meaning

  function Verdicts(j: Judged): Verdict { VerdictOn(j.packet, j.seen) }

  function ApplyWrites(row: Row, rs: seq<RxStateReq>, q: nat): Row
    decreases |rs|
  {
    if rs == [] then row
    else
      var last := rs[|rs| - 1];
      var before := ApplyWrites(row, rs[..|rs| - 1], q);
      if last.qpn == q then WriteRow(before, last) else before
  }

  // The row of QP q after the packets judged so far, were they handled one at a time.
  function RowAfter(row: Row, judged: seq<Judged>, q: nat): Row
    decreases |judged|
  {
    if judged == [] then row
    else
      var j := judged[|judged| - 1];
      ApplyWrites(RowAfter(row, judged[..|judged| - 1], q), WriteBack(j.packet, j.seen), q)
  }

  // What the receive path sees of a row. The transmit path moves reqNext meanwhile.
  datatype View = View(respEpsn: nat, respOld: nat, retry: nat, reqOldUnack: nat, reqOldValid: nat)

  function ViewOf(row: Row): View { View(row.respEpsn, row.respOld, row.retry, row.reqOldUnack, row.reqOldValid) }

  ghost predicate SeesCurrent(v: View, isResponse: bool, seen: RxStateRsp) {
    if isResponse then seen.epsn == v.reqOldUnack && seen.oldest == v.reqOldValid && seen.retry == 0
    else seen == RxStateRsp(v.respEpsn, v.respOld, v.respEpsn, v.retry)
  }

  // ---------------------------------------------------------------- the invariant

  ghost predicate RxWrites(rs: seq<RxStateReq>, queues: nat) {
    forall i :: 0 <= i < |rs| ==> rs[i].RxWrite? && rs[i].qpn < queues
  }

  ghost predicate RxQueue(table: seq<Row>, rx: RxPath) {
    if !rx.busy then rx.rxRsp == [] && RxWrites(rx.rxReq, |table|)
    else
      && rx.packet.qpn < |table|
      && ((rx.rxRsp == [] && |rx.rxReq| > 0
           && rx.rxReq[|rx.rxReq| - 1] == RxRead(rx.packet.qpn, IsResponse(rx.packet.op))
           && RxWrites(rx.rxReq[..|rx.rxReq| - 1], |table|))
          || (rx.rxReq == [] && |rx.rxRsp| == 1
              && SeesCurrent(ViewOf(table[rx.packet.qpn]), IsResponse(rx.packet.op), rx.rxRsp[0])))
  }

  // The table with the writes still under way is the table of one-at-a-time handling.
  ghost predicate Settles(table: seq<Row>, rs: seq<RxStateReq>, start: seq<Row>, judged: seq<Judged>) {
    && |start| == |table|
    && forall q :: 0 <= q < |table| ==>
         ViewOf(ApplyWrites(table[q], rs, q)) == ViewOf(RowAfter(start[q], judged, q))
  }

  // The i-th packet was judged against the state left by the first i.
  ghost predicate CurrentAt(start: seq<Row>, judged: seq<Judged>, i: nat)
    requires i < |judged|
  {
    var p := judged[i].packet;
    p.qpn < |start|
    && SeesCurrent(ViewOf(RowAfter(start[p.qpn], judged[..i], p.qpn)), IsResponse(p.op), judged[i].seen)
  }

  ghost predicate JudgedCurrent(start: seq<Row>, judged: seq<Judged>) {
    forall i {:trigger CurrentAt(start, judged, i)} :: 0 <= i < |judged| ==> CurrentAt(start, judged, i)
  }

  ghost predicate ArrivalsOk(arrivals: seq<Arrival>, queues: nat) {
    forall i :: 0 <= i < |arrivals| ==> arrivals[i].qpn < queues
  }

  ghost predicate RxInv(table: seq<Row>, rx: RxPath, start: seq<Row>) {
    && RxQueue(table, rx) && Settles(table, rx.rxReq, start, rx.judged)
    && JudgedCurrent(start, rx.judged) && ArrivalsOk(rx.arrivals, |start|)
  }

  // The PSN has its 24 bits; only packets with an AETH can be NAKs.
  predicate WellFormed(p: Arrival) { p.psn < PSN_MOD && (p.isNak ==> HasAeth(p.op)) }

  ghost predicate RxAllowed(queues: nat, a: Action) {
    match a
    case Arrive(p) => p.qpn < queues && WellFormed(p)
    case Setup(r) => r.IfRead? && r.qpn < queues
    case _ => true
  }

  ghost predicate OnlyReads(rs: seq<IfStateReq>, queues: nat) {
    forall i :: 0 <= i < |rs| ==> rs[i].IfRead? && rs[i].qpn < queues
  }

  // ---------------------------------------------------------------- writes under way

  lemma {:induction false} ViewApply(row: Row, row': Row, rs: seq<RxStateReq>, q: nat)
    requires ViewOf(row) == ViewOf(row')
    ensures ViewOf(ApplyWrites(row, rs, q)) == ViewOf(ApplyWrites(row', rs, q))
    decreases |rs|
  {
    if rs != [] {
      ViewApply(row, row', rs[..|rs| - 1], q);
    }
  }

  lemma {:induction false} ApplyConcat(row: Row, rs: seq<RxStateReq>, ts: seq<RxStateReq>, q: nat)
    ensures ApplyWrites(row, rs + ts, q) == ApplyWrites(ApplyWrites(row, rs, q), ts, q)
    decreases |ts|
  {
    if ts == [] {
      assert rs + ts == rs;
    } else {
      assert (rs + ts)[..|rs + ts| - 1] == rs + ts[..|ts| - 1];
      ApplyConcat(row, rs, ts[..|ts| - 1], q);
    }
  }

  lemma ApplyHead(row: Row, rs: seq<RxStateReq>, q: nat)
    requires rs != []
    ensures ApplyWrites(row, rs, q) == ApplyWrites(if rs[0].qpn == q then WriteRow(row, rs[0]) else row, rs[1..], q)
  {
    ApplyConcat(row, [rs[0]], rs[1..], q);
    assert [rs[0]] + rs[1..] == rs && [rs[0]][..0] == [];
  }

  // ---------------------------------------------------------------- the table serves a request

  lemma ServeRxKeeps(n: Node, start: seq<Row>)
    requires n.rx.rxReq != [] && RxInv(n.table, n.rx, start)
    ensures RxInv(ServeRx(n).table, ServeRx(n).rx, start)
  {
    var n', rs := ServeRx(n), n.rx.rxReq;
    if rs[0].RxWrite? {
      if n.rx.busy { assert rs[1..][..|rs| - 2] == rs[..|rs| - 1][1..]; }
    } else {
      assert |rs| == 1;
    }
    forall q | 0 <= q < |n.table|
      ensures ViewOf(ApplyWrites(n'.table[q], rs[1..], q)) == ViewOf(RowAfter(start[q], n.rx.judged, q))
    {
      ApplyHead(n.table[q], rs, q);
    }
  }

  lemma ServeTxKeeps(n: Node, start: seq<Row>)
    requires n.tx.txReq != [] && RxInv(n.table, n.rx, start)
    ensures RxInv(ServeTx(n).table, ServeTx(n).rx, start)
  {
    var n' := ServeTx(n);
    forall q | 0 <= q < |n.table|
      ensures ViewOf(n'.table[q]) == ViewOf(n.table[q])
      ensures ViewOf(ApplyWrites(n'.table[q], n.rx.rxReq, q)) == ViewOf(RowAfter(start[q], n.rx.judged, q))
    {
      ViewApply(n.table[q], n'.table[q], n.rx.rxReq, q);
    }
  }

  // ---------------------------------------------------------------- a packet is taken up and judged

  lemma LoadKeeps(table: seq<Row>, rx: RxPath, start: seq<Row>)
    requires !rx.busy && rx.arrivals != [] && RxInv(table, rx, start)
    ensures RxInv(table, RxIbhFsm(rx), start)
  {
    var rx', r := RxIbhFsm(rx), RxRead(rx.arrivals[0].qpn, IsResponse(rx.arrivals[0].op));
    assert rx'.rxReq[..|rx'.rxReq| - 1] == rx.rxReq;
    forall q | 0 <= q < |table|
      ensures ViewOf(ApplyWrites(table[q], rx'.rxReq, q)) == ViewOf(RowAfter(start[q], rx.judged, q))
    {
      assert ApplyWrites(table[q], rx'.rxReq, q) == ApplyWrites(table[q], rx.rxReq, q);
    }
  }

  lemma JudgeSettles(table: seq<Row>, rx: RxPath, start: seq<Row>)
    requires rx.busy && rx.rxRsp != [] && RxInv(table, rx, start)
    ensures Settles(table, RxIbhFsm(rx).rxReq, start, RxIbhFsm(rx).judged)
  {
    var j := Judged(rx.packet, rx.rxRsp[0]);
    var ws, judged' := WriteBack(j.packet, j.seen), rx.judged + [j];
    assert [] + ws == ws && judged'[..|rx.judged|] == rx.judged;
    forall q | 0 <= q < |table|
      ensures ViewOf(ApplyWrites(table[q], ws, q)) == ViewOf(RowAfter(start[q], judged', q))
    {
      assert ApplyWrites(table[q], [], q) == table[q];
      ViewApply(table[q], RowAfter(start[q], rx.judged, q), ws, q);
    }
  }

  lemma JudgeCurrent(table: seq<Row>, rx: RxPath, start: seq<Row>)
    requires rx.busy && rx.rxRsp != [] && RxInv(table, rx, start)
    ensures JudgedCurrent(start, RxIbhFsm(rx).judged)
  {
    var judged, judged', q := rx.judged, RxIbhFsm(rx).judged, rx.packet.qpn;
    assert ApplyWrites(table[q], [], q) == table[q];
    forall i | 0 <= i < |judged'| ensures CurrentAt(start, judged', i) {
      if i < |judged| {
        assert CurrentAt(start, judged, i);
        assert judged'[i] == judged[i] && judged'[..i] == judged[..i];
      } else {
        assert judged'[..i] == judged;
      }
    }
  }

  lemma JudgeKeeps(table: seq<Row>, rx: RxPath, start: seq<Row>)
    requires rx.busy && rx.rxRsp != [] && RxInv(table, rx, start)
    ensures RxInv(table, RxIbhFsm(rx), start)
  {
    JudgeSettles(table, rx, start);
    JudgeCurrent(table, rx, start);
  }

  // ---------------------------------------------------------------- every step

  ghost predicate NodeRxInv(n: Node, start: seq<Row>) {
    RxInv(n.table, n.rx, start) && OnlyReads(n.ifReq, |start|)
  }

  lemma TableKeeps(n: Node, start: seq<Row>)
    requires NodeRxInv(n, start)
    ensures NodeRxInv(StateTable(n), start)
  {
    if n.rx.rxReq != [] {
      ServeRxKeeps(n, start);
    } else if n.tx.txReq != [] {
      ServeTxKeeps(n, start);
    } else if n.ifReq != [] {
      assert n.ifReq[0].IfRead?;
    }
  }

  lemma StepKeeps(n: Node, start: seq<Row>, a: Action)
    requires NodeRxInv(n, start) && RxAllowed(|n.table|, a)
    ensures NodeRxInv(Next(n, a), start)
  {
    if a.RunStateTable? {
      TableKeeps(n, start);
    } else if a.RunRxIbhFsm? {
      if n.rx.busy && n.rx.rxRsp != [] {
        JudgeKeeps(n.table, n.rx, start);
      } else if !n.rx.busy && n.rx.arrivals != [] {
        LoadKeeps(n.table, n.rx, start);
      }
    } else if a.Arrive? {
      var rx' := Next(n, a).rx;
      assert ArrivalsOk(rx'.arrivals, |start|) && RxQueue(n.table, rx');
    }
  }
}
