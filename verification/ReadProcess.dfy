// handle_read_requests, and the read response part of rx_exh_fsm with its msn_table row,
// as they run.
module ReadProcess {
  import opened InfiniBand
  import opened ReadTransfer
  import Retransmitter

  class ReadHandler {
    var generating: bool
    var request: ReadReq
    var requestIn: seq<ReadReq>
    var responses: seq<Response>

    constructor ()
      ensures !generating && requestIn == [] && responses == []
    {
      generating, request, requestIn, responses := false, ReadReq(0, 0, 0, 0), [], [];
    }

    method StepMeta()
      requires !generating && requestIn != []
      modifies this
      ensures
        var (h, r) := Start(old(requestIn)[0]);
        Handler(generating, request) == h && responses == old(responses) + [r] && requestIn == old(requestIn)[1..]
    {
      request := requestIn[0];
      requestIn := requestIn[1..];
      var readAddr, readLength, readOpcode := request.vaddr, request.length, ReadRespOnly;
      if request.length > PMTU {
        readLength := PMTU;
        request := request.(vaddr := (request.vaddr + PMTU) % ADDR_MOD);
        request := request.(length := request.length - PMTU);
        readOpcode := ReadRespFirst;
        generating := true;
      }
      responses := responses + [Response(readOpcode, request.qpn, readAddr, readLength, request.psn)];
    }

    method StepGenerate()
      requires generating
      modifies this
      ensures
        var (h, r) := Continue(old(Handler(generating, request)));
        Handler(generating, request) == h && responses == old(responses) + [r] && requestIn == old(requestIn)
    {
      var readAddr, readLength, readOpcode := request.vaddr, request.length, ReadRespLast;
      if request.length > PMTU {
        readLength := PMTU;
        request := request.(vaddr := (request.vaddr + PMTU) % ADDR_MOD);
        request := request.(length := request.length - PMTU);
        readOpcode := ReadRespMiddle;
      } else {
        generating := false;
      }
      request := request.(psn := (request.psn + 1) % PSN_MOD);
      responses := responses + [Response(readOpcode, request.qpn, readAddr, readLength, request.psn)];
    }

    // Called until it is idle again, the handler has sent exactly the request's responses.
    method Serve()
      requires !generating && requestIn != []
      modifies this
      ensures !generating && requestIn == old(requestIn)[1..]
      ensures responses == old(responses) + Responses(old(requestIn)[0])
    {
      ghost var req, before := requestIn[0], responses;
      StepMeta();
      ghost var first := Start(req).1;
      assert responses == before + [first];
      while generating
        invariant requestIn == old(requestIn)[1..]
        invariant responses + Emit(Handler(generating, request)) == before + Responses(req)
        decreases Left(Handler(generating, request))
      {
        ghost var h, sent := Handler(generating, request), responses;
        StepGenerate();
        assert sent + Emit(h) == sent + [Continue(h).1] + Emit(Continue(h).0);
      }
    }
  }

  // The DMA addresses of all queue pairs, as the read responses move them.
  class DmaTable {
    const rows: array<DmaRow>
    var readInits: seq<Retransmitter.ReadInit>
    var writes: seq<WriteCmd>

    constructor (queues: nat)
      ensures rows.Length == queues && readInits == [] && writes == [] && fresh(rows)
    {
      rows := new DmaRow[queues](_ => DmaRow(0, 0, false));
      readInits, writes := [], [];
    }

    // A FIRST or ONLY response takes the next local address from the retransmitter; the
    // others go on from the row.
    method OnReadResponse(qpn: nat, op: OpCode, udpLength: nat)
      requires qpn < rows.Length
      requires op.ReadRespFirst? || op.ReadRespMiddle? || op.ReadRespLast? || op.ReadRespOnly?
      requires op.ReadRespFirst? || op.ReadRespOnly? ==> readInits != []
      modifies this, rows
      ensures
        var starts := op.ReadRespFirst? || op.ReadRespOnly?;
        var init := if starts then old(readInits)[0] else Retransmitter.ReadInit(0, false);
        var len := PayloadLength(op, udpLength);
        && readInits == (if starts then old(readInits)[1..] else old(readInits))
        && writes == old(writes) + [WriteOf(old(rows[qpn]), init, op, len)]
        && rows[..] == old(rows[..])[qpn := RowAfter(old(rows[qpn]), init, op, len)]
    {
      var dmaMeta := rows[qpn];
      var readInit := Retransmitter.ReadInit(0, false);
      if op.ReadRespOnly? || op.ReadRespFirst? {
        readInit := readInits[0];
        readInits := readInits[1..];
      }
      var payLoadLength := if op.ReadRespMiddle? then (udpLength - (8 + 12 + 4)) % LEN_MOD
                           else (udpLength - (8 + 12 + 4 + 4)) % LEN_MOD;
      if op.ReadRespFirst? {
        writes := writes + [WriteCmd(readInit.localAddr % DMA_ADDR_MOD, payLoadLength % DMA_LEN_MOD, false)];
        rows[qpn] := DmaRow((readInit.localAddr + payLoadLength) % ADDR_MOD, payLoadLength, readInit.lst);
      } else if op.ReadRespOnly? {
        writes := writes + [WriteCmd(readInit.localAddr % DMA_ADDR_MOD, payLoadLength % DMA_LEN_MOD, readInit.lst)];
        rows[qpn] := DmaRow((readInit.localAddr + payLoadLength) % ADDR_MOD, payLoadLength, readInit.lst);
      } else if op.ReadRespLast? {
        writes := writes + [WriteCmd(dmaMeta.vaddr % DMA_ADDR_MOD, payLoadLength % DMA_LEN_MOD, dmaMeta.lst)];
      } else {
        writes := writes + [WriteCmd(dmaMeta.vaddr % DMA_ADDR_MOD, payLoadLength % DMA_LEN_MOD, false)];
        rows[qpn] := DmaRow((dmaMeta.vaddr + payLoadLength) % ADDR_MOD, payLoadLength, dmaMeta.lst);
      }
    }
  }
}
