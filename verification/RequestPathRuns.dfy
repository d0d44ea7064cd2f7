// One round of a node's processes: what it makes of a single request, packet or
// retransmission when the node is idle otherwise.
module RequestPathRuns {
  import opened InfiniBand
  import Retransmitter
  import opened RequestPath
  import opened RequestPathProof
  import opened RequestPathTheorems
  import opened ReceivePathProof

  // Nothing is waiting anywhere.
  ghost predicate Idle(n: Node) { IdleTx(n.tx) && IdleRx(n.rx) && n.ifReq == [] }

  ghost predicate IdleTx(tx: TxPath) {
    && tx.sq == [] && tx.retransEvents == [] && tx.acks == [] && tx.readEvents == []
    && tx.appMeta == [] && tx.addrLens == [] && tx.connReq == [] && tx.dstQp == []
    && tx.ibhMeta == [] && tx.exhMeta == [] && tx.metas == [] && tx.headers == []
    && tx.txReq == [] && tx.txRsp == [] && !tx.busy
  }

  ghost predicate IdleRx(rx: RxPath) { rx.arrivals == [] && rx.rxReq == [] && rx.rxRsp == [] && !rx.busy }

  function Prepare(n: Node): Node {
    Next(Next(Next(Next(n, RunLocalReqHandler), RunMetaMerger), RunConnTable), RunGenerateIbh)
  }

  function Consult(n: Node): Node {
    Next(Next(Next(Next(Next(n, RunRxIbhFsm), RunStateTable), RunGenerateIbh), RunRxIbhFsm), RunStateTable)
  }

  function Finish(n: Node): Node { Next(Next(n, RunMergeRetrans), RunTransmit) }

  function Round(n: Node): Node { Finish(Consult(Prepare(n))) }

  lemma PrepareIs(n: Node)
    ensures Run(n, [] + [RunLocalReqHandler] + [RunMetaMerger] + [RunConnTable] + [RunGenerateIbh]) == Prepare(n)
  {
    hide Next;
    RunSnoc(n, [], RunLocalReqHandler);
    RunSnoc(n, [] + [RunLocalReqHandler], RunMetaMerger);
    RunSnoc(n, [] + [RunLocalReqHandler] + [RunMetaMerger], RunConnTable);
    RunSnoc(n, [] + [RunLocalReqHandler] + [RunMetaMerger] + [RunConnTable], RunGenerateIbh);
  }

  lemma ConsultIs(n: Node)
    ensures Run(n, [] + [RunRxIbhFsm] + [RunStateTable] + [RunGenerateIbh] + [RunRxIbhFsm] + [RunStateTable])
            == Consult(n)
  {
    hide Next;
    RunSnoc(n, [], RunRxIbhFsm);
    RunSnoc(n, [] + [RunRxIbhFsm], RunStateTable);
    RunSnoc(n, [] + [RunRxIbhFsm] + [RunStateTable], RunGenerateIbh);
    RunSnoc(n, [] + [RunRxIbhFsm] + [RunStateTable] + [RunGenerateIbh], RunRxIbhFsm);
    RunSnoc(n, [] + [RunRxIbhFsm] + [RunStateTable] + [RunGenerateIbh] + [RunRxIbhFsm], RunStateTable);
  }

  lemma FinishIs(n: Node)
    ensures Run(n, [] + [RunMergeRetrans] + [RunTransmit]) == Finish(n)
  {
    hide Next;
    RunSnoc(n, [], RunMergeRetrans);
    RunSnoc(n, [] + [RunMergeRetrans], RunTransmit);
  }

  function RoundSteps(): seq<Action> {
    ([] + [RunLocalReqHandler] + [RunMetaMerger] + [RunConnTable] + [RunGenerateIbh])
    + ([] + [RunRxIbhFsm] + [RunStateTable] + [RunGenerateIbh] + [RunRxIbhFsm] + [RunStateTable])
    + ([] + [RunMergeRetrans] + [RunTransmit])
  }

  lemma {:induction false} RunConcat(n: Node, acts: seq<Action>, more: seq<Action>)
    ensures Run(n, acts + more) == Run(Run(n, acts), more)
    decreases |more|
  {
    hide Next;
    if more == [] {
      assert acts + more == acts;
    } else {
      RunConcat(n, acts, more[..|more| - 1]);
      assert acts + more == (acts + more[..|more| - 1]) + [more[|more| - 1]];
      RunSnoc(n, acts + more[..|more| - 1], more[|more| - 1]);
    }
  }

  lemma RunRound(n: Node)
    ensures Run(n, RoundSteps()) == Round(n)
  {
    hide Next, Run;
    var p := [] + [RunLocalReqHandler] + [RunMetaMerger] + [RunConnTable] + [RunGenerateIbh];
    var c := [] + [RunRxIbhFsm] + [RunStateTable] + [RunGenerateIbh] + [RunRxIbhFsm] + [RunStateTable];
    RunConcat(n, p + c, [] + [RunMergeRetrans] + [RunTransmit]);
    RunConcat(n, p, c);
    PrepareIs(n);
    ConsultIs(Prepare(n));
    FinishIs(Consult(Prepare(n)));
  }

  // ---------------------------------------------------------------- a request is sent

  function Numbered(row: Row, r: LocalReq): Row {
    row.(reqNext := (row.reqNext + NumPkg(r.op, r.length)) % PSN_MOD)
  }

  function AddressesOf(r: LocalReq): AddrLen { AddrLen(r.laddr, r.raddr, r.length, r.lst, r.offs) }

  function Sent(n: Node, r: LocalReq): Node
    requires r.qpn < |n.table|
  {
    var row, dst := n.table[r.qpn], DstOf(n.conn, r.qpn);
    n.(table := n.table[r.qpn := Numbered(row, r)],
       tx := n.tx.(meta := MetaOf(LocalEvent(r)), dst := dst,
                   entries := n.tx.entries + [EntryOf(RetransMeta(r.qpn, row.reqNext, r.op), AddressesOf(r))],
                   wire := n.tx.wire + [Packet(r.op, dst, row.reqNext, r.raddr, r.length, false, true)]))
  }

  // A request's header is being numbered.
  function Waiting(n: Node, r: LocalReq): Node {
    n.(tx := n.tx.(addrLens := [AddressesOf(r)], exhMeta := [LocalEvent(r)], txReq := [TxRead(r.qpn)], busy := true,
                   meta := MetaOf(LocalEvent(r)), dst := DstOf(n.conn, r.qpn)))
  }

  function Ready(n: Node, r: LocalReq): Node
    requires r.qpn < |n.table|
  {
    var row := n.table[r.qpn];
    n.(table := n.table[r.qpn := Numbered(row, r)],
       tx := n.tx.(meta := MetaOf(LocalEvent(r)), dst := DstOf(n.conn, r.qpn),
                   addrLens := [AddressesOf(r)], exhMeta := [LocalEvent(r)],
                   metas := [RetransMeta(r.qpn, row.reqNext, r.op)],
                   headers := [Header(r.op, DstOf(n.conn, r.qpn), row.reqNext, true)]))
  }

  lemma Prepares(n: Node, r: LocalReq)
    requires Idle(n) && Supported(r.op)
    ensures Prepare(Next(n, Submit(r))) == Waiting(n, r)
  {
    var ev := LocalEvent(r);
    var n1 := n.(tx := n.tx.(sq := [r]));
    assert Next(n, Submit(r)) == n1;
    var n2 := n.(tx := n.tx.(appMeta := [ev], addrLens := [AddressesOf(r)]));
    assert Next(n1, RunLocalReqHandler) == n2;
    var n3 := n.(tx := n.tx.(addrLens := [AddressesOf(r)], connReq := [r.qpn], ibhMeta := [MetaOf(ev)], exhMeta := [ev]));
    assert Next(n2, RunMetaMerger) == n3;
    var n4 := n.(tx := n.tx.(addrLens := [AddressesOf(r)], dstQp := [DstOf(n.conn, r.qpn)],
                             ibhMeta := [MetaOf(ev)], exhMeta := [ev]));
    assert Next(n3, RunConnTable) == n4;
    assert Next(n4, RunGenerateIbh) == Waiting(n, r);
  }

  function Answered(n: Node, r: LocalReq): Node
    requires r.qpn < |n.table|
  {
    Waiting(n, r).(tx := Waiting(n, r).tx.(txReq := [], txRsp := [n.table[r.qpn]]))
  }

  lemma Answers(n: Node, r: LocalReq)
    requires Idle(n) && r.qpn < |n.table|
    ensures Next(Next(Waiting(n, r), RunRxIbhFsm), RunStateTable) == Answered(n, r)
  {
    assert Next(Waiting(n, r), RunRxIbhFsm) == Waiting(n, r);
  }

  // The header is made, the next PSN not written back yet.
  function Advanced(n: Node, r: LocalReq): Node
    requires r.qpn < |n.table|
  {
    var e := Ready(n, r);
    e.(table := n.table, tx := e.tx.(txReq := [TxWrite(r.qpn, Numbered(n.table[r.qpn], r).reqNext)]))
  }

  lemma HeaderMade(n: Node, r: LocalReq)
    requires Idle(n) && Supported(r.op) && r.qpn < |n.table|
    ensures FinishHeader(Answered(n, r).tx) == Advanced(n, r).tx
  {
  }

  lemma Counts(n: Node, r: LocalReq)
    requires Idle(n) && Supported(r.op) && r.qpn < |n.table|
    ensures Next(Next(Answered(n, r), RunGenerateIbh), RunRxIbhFsm) == Advanced(n, r)
  {
    HeaderMade(n, r);
    hide FinishHeader;
  }

  lemma WritesBack(n: Node, r: LocalReq)
    requires Idle(n) && r.qpn < |n.table|
    ensures Next(Advanced(n, r), RunStateTable) == Ready(n, r)
  {
  }

  lemma Numbers(n: Node, r: LocalReq)
    requires Idle(n) && Supported(r.op) && r.qpn < |n.table|
    ensures Consult(Waiting(n, r)) == Ready(n, r)
  {
    Answers(n, r);
    Counts(n, r);
    WritesBack(n, r);
    hide Next, Waiting, Answered, Advanced, Ready;
  }

  lemma Completes(n: Node, r: LocalReq)
    requires Idle(n) && r.qpn < |n.table|
    ensures Finish(Ready(n, r)) == Sent(n, r)
  {
    var e, row := Ready(n, r), n.table[r.qpn];
    var n1 := e.(tx := e.tx.(metas := [], addrLens := [],
                             entries := n.tx.entries + [EntryOf(RetransMeta(r.qpn, row.reqNext, r.op), AddressesOf(r))]));
    assert Next(e, RunMergeRetrans) == n1;
    assert Next(n1, RunTransmit) == Sent(n, r);
  }

  // It gets the next PSN, an entry and a packet, and the node is idle again.
  lemma SendsOne(n: Node, r: LocalReq)
    requires Idle(n) && Supported(r.op) && r.qpn < |n.table|
    ensures Round(Next(n, Submit(r))) == Sent(n, r) && Idle(Sent(n, r))
  {
    Prepares(n, r);
    Numbers(n, r);
    Completes(n, r);
    hide Next, Prepare, Consult, Finish;
  }

  // ---------------------------------------------------------------- a packet is judged

  function SeenBy(n: Node, p: Arrival): RxStateRsp
    requires p.qpn < |n.table|
  {
    ReadRow(n.table[p.qpn], IsResponse(p.op))
  }

  function Took(n: Node, p: Arrival): Node
    requires p.qpn < |n.table|
  {
    var seen := SeenBy(n, p);
    n.(table := n.table[p.qpn := ApplyWrites(n.table[p.qpn], WriteBack(p, seen), p.qpn)],
       rx := n.rx.(packet := p, judged := n.rx.judged + [Judged(p, seen)], out := Joined(n.rx.out, Emitted(p, seen))))
  }

  lemma OneWrite(row: Row, p: Arrival, seen: RxStateRsp)
    ensures WriteBack(p, seen) == [] || WriteBack(p, seen) == [WriteBack(p, seen)[0]]
    ensures WriteBack(p, seen) != [] ==> WriteBack(p, seen)[0].RxWrite? && WriteBack(p, seen)[0].qpn == p.qpn
    ensures ApplyWrites(row, WriteBack(p, seen), p.qpn)
            == if WriteBack(p, seen) == [] then row else WriteRow(row, WriteBack(p, seen)[0])
  {
    var ws := WriteBack(p, seen);
    if ws != [] {
      assert ws[..0] == [];
      assert ApplyWrites(row, ws[..0], p.qpn) == row;
    }
  }

  lemma Judges(n: Node, p: Arrival)
    requires Idle(n) && p.qpn < |n.table|
    ensures Consult(n.(rx := n.rx.(arrivals := [p]))) == Took(n, p)
  {
    hide Emitted, Joined, WriteBack, ReadRow, VerdictOn;
    var seen := SeenBy(n, p);
    var n0 := n.(rx := n.rx.(arrivals := [p]));
    var n1 := n.(rx := n.rx.(packet := p, busy := true, rxReq := [RxRead(p.qpn, IsResponse(p.op))]));
    assert Next(n0, RunRxIbhFsm) == n1;
    var n2 := n.(rx := n.rx.(packet := p, busy := true, rxRsp := [seen]));
    assert Next(n1, RunStateTable) == n2;
    assert Next(n2, RunGenerateIbh) == n2;
    var n3 := n.(rx := Took(n, p).rx.(rxReq := WriteBack(p, seen)));
    assert [] + WriteBack(p, seen) == WriteBack(p, seen);
    assert Next(n2, RunRxIbhFsm) == n3;
    OneWrite(n.table[p.qpn], p, seen);
    assert Next(n3, RunStateTable) == Took(n, p);
  }

  lemma NothingToPrepare(n: Node)
    requires IdleTx(n.tx)
    ensures Prepare(n) == n && Finish(n) == n
  {
  }

  // It is judged against the state table's row, which is written back.
  lemma TakesOne(n: Node, p: Arrival)
    requires Idle(n) && p.qpn < |n.table|
    ensures Round(Next(n, Arrive(p))) == Took(n, p) && Idle(Took(n, p))
  {
    assert n.rx.arrivals + [p] == [p];
    assert Next(n, Arrive(p)) == n.(rx := n.rx.(arrivals := [p]));
    Judges(n, p);
    NothingToPrepare(n.(rx := n.rx.(arrivals := [p])));
    NothingToPrepare(Took(n, p));
    hide Next, Prepare, Consult, Finish;
  }

  // ---------------------------------------------------------------- an event is sent again

  function SentAgain(n: Node, ev: Retransmitter.Event): Node {
    var e, dst := ev.entry, DstOf(n.conn, ev.qpn);
    n.(tx := n.tx.(meta := MetaOf(ResendEvent(ev)), dst := dst,
                   wire := n.tx.wire + [Packet(e.opCode, dst, e.psn, e.remoteAddr, e.length, false, false)]))
  }

  function Headed(n: Node, ev: Retransmitter.Event): Node {
    n.(tx := n.tx.(meta := MetaOf(ResendEvent(ev)), dst := DstOf(n.conn, ev.qpn), exhMeta := [ResendEvent(ev)],
                   headers := [Header(ev.entry.opCode, DstOf(n.conn, ev.qpn), ev.entry.psn, false)]))
  }

  lemma PreparesAgain(n: Node, ev: Retransmitter.Event)
    requires Idle(n)
    ensures Prepare(Next(n, Resend(ev))) == Headed(n, ev)
  {
    var e := ResendEvent(ev);
    var n1 := n.(tx := n.tx.(retransEvents := [ev]));
    assert Next(n, Resend(ev)) == n1;
    var n2 := n.(tx := n.tx.(appMeta := [e]));
    assert Next(n1, RunLocalReqHandler) == n2;
    var n3 := n.(tx := n.tx.(connReq := [ev.qpn], ibhMeta := [MetaOf(e)], exhMeta := [e]));
    assert Next(n2, RunMetaMerger) == n3;
    var n4 := n.(tx := n.tx.(dstQp := [DstOf(n.conn, ev.qpn)], ibhMeta := [MetaOf(e)], exhMeta := [e]));
    assert Next(n3, RunConnTable) == n4;
    assert Next(n4, RunGenerateIbh) == Headed(n, ev);
  }

  lemma NothingToConsult(n: Node)
    requires !n.tx.busy && n.tx.ibhMeta == [] && n.tx.txReq == [] && IdleRx(n.rx) && n.ifReq == []
    ensures Consult(n) == n
  {
  }

  lemma FinishesAgain(n: Node, ev: Retransmitter.Event)
    requires Idle(n)
    ensures Finish(Headed(n, ev)) == SentAgain(n, ev)
  {
    assert Next(Headed(n, ev), RunMergeRetrans) == Headed(n, ev);
    assert Next(Headed(n, ev), RunTransmit) == SentAgain(n, ev);
  }

  // It goes out with the PSN it came with.
  lemma ResendsOne(n: Node, ev: Retransmitter.Event)
    requires Idle(n)
    ensures Round(Next(n, Resend(ev))) == SentAgain(n, ev) && Idle(SentAgain(n, ev))
  {
    PreparesAgain(n, ev);
    NothingToConsult(Headed(n, ev));
    FinishesAgain(n, ev);
    hide Next, Prepare, Consult, Finish;
  }

  // ---------------------------------------------------------------- which requests are sent

  // The opcodes of requests that put a packet on the wire.
  const SENT_OPCODES: set<OpCode> :=
    {ReadRequest, WriteFirst, WriteMiddle, WriteLast, WriteOnly, SendFirst, SendMiddle, SendLast, SendOnly}

  lemma Ignored(n: Node, r: LocalReq)
    requires Idle(n) && !Supported(r.op)
    ensures Round(Next(n, Submit(r))) == n.(tx := n.tx.(addrLens := [AddressesOf(r)]))
  {
    var n1 := n.(tx := n.tx.(sq := [r]));
    var n2 := n.(tx := n.tx.(addrLens := [AddressesOf(r)]));
    assert Next(n, Submit(r)) == n1;
    assert Next(n1, RunLocalReqHandler) == n2;
    hide Next;
    Unmoved(n2);
  }

  lemma Unmoved(n: Node)
    requires Idle(n.(tx := n.tx.(addrLens := [])))
    ensures Next(Next(Next(n, RunMetaMerger), RunConnTable), RunGenerateIbh) == n
    ensures Consult(n) == n && Finish(n) == n
  {
    assert Next(n, RunMetaMerger) == n && Next(n, RunConnTable) == n && Next(n, RunGenerateIbh) == n;
    assert Next(n, RunRxIbhFsm) == n && Next(n, RunStateTable) == n;
  }

  // One packet and one entry for these opcodes, none for any other.
  lemma SentIff(n: Node, r: LocalReq)
    requires Idle(n) && r.qpn < |n.table|
    ensures
      var tx := Round(Next(n, Submit(r))).tx;
      var more := if r.op in SENT_OPCODES then 1 else 0;
      |tx.wire| == |n.tx.wire| + more && |tx.entries| == |n.tx.entries| + more
  {
    hide Next, Round, Idle;
    SentOpcodes(r.op);
    hide Supported;
    if Supported(r.op) {
      SendsOne(n, r);
    } else {
      Ignored(n, r);
    }
  }

  lemma SentOpcodes(op: OpCode)
    ensures Supported(op) <==> op in SENT_OPCODES
  {
  }

  // ---------------------------------------------------------------- connection setup

  // Setting up a queue pair leaves its row expecting the local PSN, about to send from the
  // remote one, with nothing outstanding and no NAK pending; no other row changes.
  lemma SetsUp(n: Node, q: nat, remotePsn: nat, localPsn: nat)
    requires Idle(n) && q < |n.table|
    ensures
      var n' := Next(Next(n, Setup(IfWrite(q, remotePsn, localPsn))), RunStateTable);
      && |n'.table| == |n.table| && (forall p :: 0 <= p < |n.table| && p != q ==> n'.table[p] == n.table[p])
      && n'.table[q].respEpsn == localPsn && n'.table[q].respOld == localPsn && n'.table[q].retry == 7
      && n'.table[q].reqNext == remotePsn && n'.table[q].reqOldUnack == remotePsn
      && n'.table[q].reqOldValid == remotePsn
      && (remotePsn < PSN_MOD && localPsn < PSN_MOD ==> IsSetup(n'.table[q]))
  {
  }

  // A read over the same interface is answered with the row and changes nothing else.
  lemma ReadsRow(n: Node, q: nat)
    requires Idle(n) && q < |n.table|
    ensures Next(Next(n, Setup(IfRead(q))), RunStateTable) == n.(ifRsp := n.ifRsp + [n.table[q]])
  {
    assert n.ifReq + [IfRead(q)] == [IfRead(q)];
  }
}
