// The processes of one node's request path as they run: a state table and registers
// updated in place, FIFOs between them. Each method is one call of a process and is tied
// to the step function the theorems are about.
module RequestPathProcess {
  import opened InfiniBand
  import Retransmitter
  import opened RequestPath
  import opened RequestPathTheorems
  import RequestPathProof
  import ReceivePathProof
  import ReceivePathTheorems

  class Processes {
    const conn: seq<nat>
    // state_table
    const stateTable: array<Row>
    // FIFOs, and the registers of generate_ibh and rx_ibh_fsm
    var tx: TxPath
    var rx: RxPath
    var ifReq: seq<IfStateReq>
    var ifRsp: seq<Row>

    ghost function Contents(): Node
      reads this, stateTable
    {
      Node(conn, stateTable[..], tx, rx, ifReq, ifRsp)
    }

    method HandleLocalReq()
      modifies this`tx
      ensures Contents() == Next(old(Contents()), RunLocalReqHandler)
    {
      if tx.retransEvents != [] {
        var rev := tx.retransEvents[0];
        tx := tx.(retransEvents := tx.retransEvents[1..]);
        tx := tx.(appMeta := tx.appMeta + [Event(rev.entry.opCode, rev.qpn, rev.entry.remoteAddr, rev.entry.length,
                                                 rev.entry.psn, true, false)]);
      } else if tx.sq != [] {
        var meta := tx.sq[0];
        tx := tx.(sq := tx.sq[1..]);
        var event := Event(meta.op, meta.qpn, meta.raddr, meta.length, 0, false, false);
        if meta.op == ReadRequest {
          tx := tx.(appMeta := tx.appMeta + [event]);
        }
        if meta.op.WriteMiddle? || meta.op.WriteFirst? || meta.op.WriteLast? || meta.op.WriteOnly?
           || meta.op.SendOnly? || meta.op.SendFirst? || meta.op.SendMiddle? || meta.op.SendLast? {
          tx := tx.(appMeta := tx.appMeta + [event]);
        }
        tx := tx.(addrLens := tx.addrLens + [AddrLen(meta.laddr, meta.raddr, meta.length, meta.lst, meta.offs)]);
      }
    }

    method WriteMeta(meta: IbhMeta, event: Event)
      modifies this`tx
      ensures tx == old(tx).(connReq := old(tx.connReq) + [meta.qpn], ibhMeta := old(tx.ibhMeta) + [meta],
                             exhMeta := old(tx.exhMeta) + [event])
    {
      tx := tx.(connReq := tx.connReq + [meta.qpn]);
      tx := tx.(ibhMeta := tx.ibhMeta + [meta]);
      tx := tx.(exhMeta := tx.exhMeta + [event]);
    }

    method MergeMeta()
      modifies this`tx
      ensures Contents() == Next(old(Contents()), RunMetaMerger)
    {
      if tx.acks != [] {
        var aev := tx.acks[0];
        tx := tx.(acks := tx.acks[1..]);
        WriteMeta(IbhMeta(Ack, aev.qpn, aev.psn, aev.validPsn, 1),
                  Event(Ack, aev.qpn, 0, 0, aev.psn, aev.validPsn, aev.isNak));
      } else if tx.readEvents != [] {
        var ev := tx.readEvents[0];
        tx := tx.(readEvents := tx.readEvents[1..]);
        WriteMeta(IbhMeta(ev.op, ev.qpn, ev.psn, ev.validPsn, 1), ev);
      } else if tx.appMeta != [] {
        var ev := tx.appMeta[0];
        tx := tx.(appMeta := tx.appMeta[1..]);
        var numPkg := 1;
        if ev.op == ReadRequest {
          numPkg := ((ev.length + (PMTU - 1)) / PMTU) % NUM_PKG_MOD;
        }
        if ev.validPsn {
          WriteMeta(IbhMeta(ev.op, ev.qpn, ev.psn, ev.validPsn, 1), ev);
        } else {
          WriteMeta(IbhMeta(ev.op, ev.qpn, 0, false, numPkg), ev);
        }
      }
    }

    method LookUpConnection()
      modifies this`tx
      ensures Contents() == Next(old(Contents()), RunConnTable)
    {
      if tx.connReq != [] {
        var qpn := tx.connReq[0];
        tx := tx.(connReq := tx.connReq[1..], dstQp := tx.dstQp + [if qpn < |conn| then conn[qpn] else 0]);
      }
    }

    method GenerateIbhMeta()
      requires !tx.busy
      modifies this`tx
      ensures Contents() == Next(old(Contents()), RunGenerateIbh)
    {
      if tx.ibhMeta != [] && tx.dstQp != [] {
        tx := tx.(meta := tx.ibhMeta[0], ibhMeta := tx.ibhMeta[1..], dst := tx.dstQp[0], dstQp := tx.dstQp[1..]);
        if tx.meta.validPsn {
          tx := tx.(headers := tx.headers + [Header(tx.meta.op, tx.dst, tx.meta.psn, false)]);
        } else {
          tx := tx.(txReq := tx.txReq + [TxRead(tx.meta.qpn)], busy := true);
        }
      }
    }

    method GenerateIbhPsn()
      requires tx.busy
      modifies this`tx
      ensures Contents() == Next(old(Contents()), RunGenerateIbh)
    {
      if tx.txRsp != [] {
        var qpState, header := tx.txRsp[0], Header(tx.meta.op, tx.dst, tx.meta.psn, false);
        tx := tx.(txRsp := tx.txRsp[1..]);
        if tx.meta.op == Ack {
          header := header.(psn := (qpState.respEpsn - 1) % PSN_MOD);
        } else {
          header := header.(psn := qpState.reqNext, ackReq := true);
          var nextPsn := (qpState.reqNext + tx.meta.numPkg) % PSN_MOD;
          tx := tx.(txReq := tx.txReq + [TxWrite(tx.meta.qpn, nextPsn)]);
          tx := tx.(metas := tx.metas + [RetransMeta(tx.meta.qpn, qpState.reqNext, tx.meta.op)]);
        }
        tx := tx.(headers := tx.headers + [header], busy := false);
      }
    }

    method GenerateIbh()
      modifies this`tx
      ensures Contents() == Next(old(Contents()), RunGenerateIbh)
    {
      if tx.busy {
        GenerateIbhPsn();
      } else {
        GenerateIbhMeta();
      }
    }

    method MergeRetransRequest()
      modifies this`tx
      ensures Contents() == Next(old(Contents()), RunMergeRetrans)
    {
      if tx.metas != [] && tx.addrLens != [] {
        var meta, addrLen := tx.metas[0], tx.addrLens[0];
        tx := tx.(metas := tx.metas[1..], addrLens := tx.addrLens[1..]);
        tx := tx.(entries := tx.entries + [EntryOf(meta, addrLen)]);
      }
    }

    method Send()
      modifies this`tx
      ensures Contents() == Next(old(Contents()), RunTransmit)
    {
      if tx.headers != [] && tx.exhMeta != [] {
        var h, ev := tx.headers[0], tx.exhMeta[0];
        tx := tx.(headers := tx.headers[1..], exhMeta := tx.exhMeta[1..]);
        tx := tx.(wire := tx.wire + [Packet(h.op, h.dstQp, h.psn, ev.addr, ev.length, ev.isNak, h.ackReq)]);
      }
    }

    method LoadPacket()
      requires !rx.busy
      modifies this`rx
      ensures Contents() == Next(old(Contents()), RunRxIbhFsm)
    {
      if rx.arrivals != [] {
        rx := rx.(packet := rx.arrivals[0], arrivals := rx.arrivals[1..]);
        rx := rx.(rxReq := rx.rxReq + [RxRead(rx.packet.qpn, IsResponse(rx.packet.op))], busy := true);
      }
    }

    method WriteState(req: RxStateReq)
      modifies this`rx
      ensures rx == old(rx).(rxReq := old(rx.rxReq) + [req])
    {
      rx := rx.(rxReq := rx.rxReq + [req]);
    }

    // What goes to the other FIFOs, branch by branch.
    method WriteOutputs(p: Arrival, qpState: RxStateRsp) returns (out: RxOut)
      ensures out == Emitted(p, qpState)
    {
      var isResponse := IsResponse(p.op);
      out := NoOutput();
      if qpState.epsn == p.psn || p.op == Ack {
        if p.op != Ack && p.op != ReadRequest {
          out := out.(drops := [false]);
        }
        out := out.(policies := [Policy(false, false)], headers := [p]);
        if isResponse && !p.isNak {
          out := out.(updates := [Retransmitter.UpdateReq(p.qpn, p.psn, p.op)]);
          if p.op != ReadRespFirst && p.op != ReadRespMiddle {
            out := out.(completions := [Completion(p.op == Ack, p.qpn, p.psn)]);
          }
        }
        if isResponse && p.op != ReadRespMiddle {
          out := out.(clears := [TimerClear(p.qpn, p.psn == qpState.maxForward)]);
        }
      } else if InDuplicateWindow(qpState.oldest, qpState.epsn, p.psn) {
        if p.op == ReadRequest {
          out := out.(policies := [Policy(false, false)], headers := [p]);
        } else if IsWrite(p.op) {
          out := out.(events := [AckEvent(p.qpn, p.psn, true, false)], drops := [true], policies := [Policy(false, true)]);
        } else {
          out := out.(drops := [true], policies := [Policy(true, false)]);
        }
      } else {
        out := out.(policies := [Policy(true, false)], drops := [true]);
        if qpState.retry == 7 {
          out := out.(events := [AckEvent(p.qpn, if isResponse then p.psn else qpState.epsn, true, true)]);
        }
      }
    }

    method JudgePacket()
      requires rx.busy
      modifies this`rx
      ensures Contents() == Next(old(Contents()), RunRxIbhFsm)
    {
      hide Emitted, Joined;
      if rx.rxRsp != [] {
        var p, qpState := rx.packet, rx.rxRsp[0];
        var out := WriteOutputs(p, qpState);
        rx := rx.(rxRsp := rx.rxRsp[1..], judged := rx.judged + [Judged(p, qpState)], busy := false,
                  out := Joined(rx.out, out));
        if qpState.epsn == p.psn || p.op == Ack {
          if !p.isNak && (p.op != Ack || InAckWindow(qpState.epsn, p.psn, qpState.maxForward)) {
            WriteState(RxWrite(p.qpn, (p.psn + p.numPkg) % PSN_MOD, 7, IsResponse(p.op)));
          }
        } else if !InDuplicateWindow(qpState.oldest, qpState.epsn, p.psn) {
          var retryCounter := qpState.retry;
          if retryCounter == 7 {
            retryCounter := retryCounter - 1;
          }
          WriteState(RxWrite(p.qpn, qpState.epsn, retryCounter, IsResponse(p.op)));
        }
      }
    }

    method RxIbhFsm()
      modifies this`rx
      ensures Contents() == Next(old(Contents()), RunRxIbhFsm)
    {
      if rx.busy {
        JudgePacket();
      } else {
        LoadPacket();
      }
    }

    method ServeReceive()
      requires rx.rxReq != [] && rx.rxReq[0].qpn < stateTable.Length
      modifies this`rx, stateTable
      ensures Contents() == ServeRx(old(Contents()))
    {
      var req := rx.rxReq[0];
      rx := rx.(rxReq := rx.rxReq[1..]);
      var entry := stateTable[req.qpn];
      if req.RxWrite? {
        if req.isResponse {
          stateTable[req.qpn] := entry.(reqOldUnack := req.epsn);
        } else {
          stateTable[req.qpn] := entry.(respEpsn := req.epsn, retry := req.retry);
        }
      } else if req.isResponse {
        rx := rx.(rxRsp := rx.rxRsp + [RxStateRsp(entry.reqOldUnack, entry.reqOldValid,
                                                  (entry.reqNext - 1) % PSN_MOD, 0)]);
      } else {
        rx := rx.(rxRsp := rx.rxRsp + [RxStateRsp(entry.respEpsn, entry.respOld, entry.respEpsn, entry.retry)]);
      }
    }

    method ServeTransmit()
      requires tx.txReq != [] && tx.txReq[0].qpn < stateTable.Length
      modifies this`tx, stateTable
      ensures Contents() == ServeTx(old(Contents()))
    {
      var req := tx.txReq[0];
      tx := tx.(txReq := tx.txReq[1..]);
      if req.TxWrite? {
        stateTable[req.qpn] := stateTable[req.qpn].(reqNext := req.psn);
      } else {
        tx := tx.(txRsp := tx.txRsp + [stateTable[req.qpn]]);
      }
    }

    method ServeInterface()
      requires ifReq != [] && ifReq[0].qpn < stateTable.Length
      modifies this`ifReq, this`ifRsp, stateTable
      ensures Contents() == ServeIf(old(Contents()))
    {
      var req := ifReq[0];
      ifReq := ifReq[1..];
      if req.IfWrite? {
        stateTable[req.qpn] := Row(req.localPsn, req.localPsn, req.remotePsn, req.remotePsn, req.remotePsn, 0xF % 8);
      } else {
        ifRsp := ifRsp + [stateTable[req.qpn]];
      }
    }

    // The request served next names a row.
    predicate InBounds()
      reads this
    {
      && (rx.rxReq != [] ==> rx.rxReq[0].qpn < stateTable.Length)
      && (tx.txReq != [] ==> tx.txReq[0].qpn < stateTable.Length)
      && (ifReq != [] ==> ifReq[0].qpn < stateTable.Length)
    }

    method ServeStateTable()
      requires InBounds()
      modifies this, stateTable
      ensures Contents() == Next(old(Contents()), RunStateTable)
    {
      if rx.rxReq != [] {
        ServeReceive();
      } else if tx.txReq != [] {
        ServeTransmit();
      } else if ifReq != [] {
        ServeInterface();
      }
    }

    method Offer(a: Action)
      requires RequestPathProof.FromOutside(a)
      modifies this
      ensures Contents() == Next(old(Contents()), a)
    {
      match a {
        case Submit(r) => tx := tx.(sq := tx.sq + [r]);
        case Resend(ev) => tx := tx.(retransEvents := tx.retransEvents + [ev]);
        case OfferAck(ack) => tx := tx.(acks := tx.acks + [ack]);
        case OfferRead(ev) => tx := tx.(readEvents := tx.readEvents + [ev]);
        case Arrive(p) => rx := rx.(arrivals := rx.arrivals + [p]);
        case Setup(r) => ifReq := ifReq + [r];
      }
    }

    method Act(a: Action)
      requires InBounds()
      modifies this, stateTable
      ensures Contents() == Next(old(Contents()), a)
    {
      match a {
        case RunLocalReqHandler => HandleLocalReq();
        case RunMetaMerger => MergeMeta();
        case RunConnTable => LookUpConnection();
        case RunGenerateIbh => GenerateIbh();
        case RunMergeRetrans => MergeRetransRequest();
        case RunTransmit => Send();
        case RunRxIbhFsm => RxIbhFsm();
        case RunStateTable => ServeStateTable();
        case _ => Offer(a);
      }
    }

    // Any schedule from a node that has been set up runs without an index leaving the
    // state table, and ends where the theorems say.
    method Execute(schedule: seq<Action>)
      requires Initial(Contents()) && AllTxAllowed(schedule, stateTable.Length)
      requires ReceivePathTheorems.AllRxAllowed(schedule, stateTable.Length)
      modifies this, stateTable
      ensures Contents() == Run(old(Contents()), schedule)
      ensures RequestPathProof.TxInv(Contents(), TrackOf(old(Contents()), schedule), BaseOf(old(stateTable[..])))
      ensures ReceivePathTheorems.Sequential(old(stateTable[..]), rx.judged)
    {
      ghost var start := Contents();
      for k := 0 to |schedule|
        invariant Contents() == Run(start, schedule[..k])
      {
        assert schedule[..k + 1][..k] == schedule[..k];
        StaysInBounds(start, schedule, k);
        Act(schedule[k]);
      }
      assert schedule[..|schedule|] == schedule;
      RunKeeps(start, schedule);
      ReceivePathTheorems.JudgedSequentially(start, schedule);
    }
  }

  // The requests waiting at the state table name rows.
  ghost predicate Served(n: Node) {
    && (n.rx.rxReq != [] ==> n.rx.rxReq[0].qpn < |n.table|)
    && (n.tx.txReq != [] ==> n.tx.txReq[0].qpn < |n.table|)
    && (n.ifReq != [] ==> n.ifReq[0].qpn < |n.table|)
  }

  lemma InvariantsServe(n: Node, t: RequestPathProof.TxTrack, base: seq<nat>, start: seq<Row>)
    requires RequestPathProof.TxInv(n, t, base) && ReceivePathProof.NodeRxInv(n, start)
    ensures Served(n)
  {
    if n.tx.txReq != [] && n.tx.busy {
      assert n.tx.txReq[..|n.tx.txReq| - 1] == [] || n.tx.txReq[..|n.tx.txReq| - 1][0] == n.tx.txReq[0];
    }
    if n.rx.rxReq != [] && n.rx.busy {
      assert n.rx.rxReq[..|n.rx.rxReq| - 1] == [] || n.rx.rxReq[..|n.rx.rxReq| - 1][0] == n.rx.rxReq[0];
    }
  }

  lemma StaysInBounds(n: Node, actions: seq<Action>, k: nat)
    requires Initial(n) && AllTxAllowed(actions, |n.table|) && ReceivePathTheorems.AllRxAllowed(actions, |n.table|)
    requires k <= |actions|
    ensures Served(Run(n, actions[..k]))
  {
    RunKeeps(n, actions[..k]);
    ReceivePathTheorems.RunJudges(n, actions[..k]);
    InvariantsServe(Run(n, actions[..k]), TrackOf(n, actions[..k]), BaseOf(n.table), n.table);
  }
}
