// RDMA READ: how the responder cuts a request into responses, how lengths travel in the
// UDP header, and where the requester puts the bytes.
module ReadTransfer {
  import opened InfiniBand
  import opened OnesComplement
  import Retransmitter
  import RequestPath

  // ---------------------------------------------------------------- the responder

  datatype ReadReq = ReadReq(qpn: nat, vaddr: nat, length: nat, psn: nat)

  // A memory read and the response header that goes with it.
  datatype Response = Response(op: OpCode, qpn: nat, addr: nat, length: nat, psn: nat)

  // handle_read_requests between two calls.
  datatype Handler = Handler(generating: bool, req: ReadReq)

  predicate Sized(r: ReadReq) { r.vaddr < ADDR_MOD && r.length < LEN_MOD && r.psn < PSN_MOD }

  function Shrunk(r: ReadReq): ReadReq
    requires r.length > PMTU
  {
    r.(vaddr := (r.vaddr + PMTU) % ADDR_MOD, length := r.length - PMTU)
  }

  // State META: a request is taken up.
  function Start(r: ReadReq): (Handler, Response) {
    if r.length > PMTU then
      (Handler(true, Shrunk(r)), Response(ReadRespFirst, r.qpn, r.vaddr, PMTU, r.psn))
    else
      (Handler(false, r), Response(ReadRespOnly, r.qpn, r.vaddr, r.length, r.psn))
  }

  // State GENERATE
  function Continue(h: Handler): (Handler, Response) {
    var r := h.req.(psn := (h.req.psn + 1) % PSN_MOD);
    if r.length > PMTU then
      (Handler(true, Shrunk(r)), Response(ReadRespMiddle, r.qpn, r.vaddr, PMTU, r.psn))
    else
      (Handler(false, r), Response(ReadRespLast, r.qpn, r.vaddr, r.length, r.psn))
  }

  function Left(h: Handler): nat { if h.generating then 1 + h.req.length else 0 }

  predicate AllPayload(rs: seq<Response>) { forall i :: 0 <= i < |rs| ==> HasPayload(rs[i].op) }

  function Emit(h: Handler): (rs: seq<Response>)
    ensures AllPayload(rs)
    decreases Left(h)
  {
    if !h.generating then []
    else
      var (h', r) := Continue(h);
      [r] + Emit(h')
  }

  // Everything the handler sends for one request.
  function Responses(r: ReadReq): (rs: seq<Response>)
    ensures AllPayload(rs)
  {
    var (h, first) := Start(r);
    [first] + Emit(h)
  }

  function Count(length: nat): nat { if length == 0 then 1 else (length + PMTU - 1) / PMTU }

  function Shape(i: nat, n: nat): OpCode {
    if n == 1 then ReadRespOnly else if i == 0 then ReadRespFirst else if i == n - 1 then ReadRespLast
    else ReadRespMiddle
  }

  // The i-th response a request ought to get.
  function ResponseAt(r: ReadReq, i: nat): Response
    requires i < Count(r.length)
  {
    var n := Count(r.length);
    Response(Shape(i, n), r.qpn, (r.vaddr + i * PMTU) % ADDR_MOD,
             if i == n - 1 then r.length - i * PMTU else PMTU, (r.psn + i) % PSN_MOD)
  }

  // The handler has sent the first j responses of r.
  predicate Reached(h: Handler, r: ReadReq, j: nat) {
    && 1 <= j < Count(r.length) && h.generating
    && h.req == ReadReq(r.qpn, (r.vaddr + j * PMTU) % ADDR_MOD, r.length - j * PMTU, (r.psn + j - 1) % PSN_MOD)
  }

  lemma Step(h: Handler, r: ReadReq, j: nat)
    requires Reached(h, r, j)
    ensures Continue(h).1 == ResponseAt(r, j)
    ensures if j + 1 < Count(r.length) then Reached(Continue(h).0, r, j + 1) else !Continue(h).0.generating
  {
  }

  lemma {:induction false} EmitsRest(h: Handler, r: ReadReq, j: nat)
    requires Reached(h, r, j)
    ensures |Emit(h)| == Count(r.length) - j
    ensures forall i :: 0 <= i < |Emit(h)| ==> Emit(h)[i] == ResponseAt(r, j + i)
    decreases Count(r.length) - j
  {
    Step(h, r, j);
    var (h', x) := Continue(h);
    if j + 1 < Count(r.length) {
      EmitsRest(h', r, j + 1);
      forall i | 0 <= i < |Emit(h)| ensures Emit(h)[i] == ResponseAt(r, j + i) {
        if i > 0 { assert Emit(h)[i] == Emit(h')[i - 1]; }
      }
    }
  }

  // One response per PMTU begun, ONLY or FIRST MIDDLE* LAST, with consecutive PSNs,
  // covering the requested bytes in order.
  lemma ResponsesAre(r: ReadReq)
    requires Sized(r)
    ensures |Responses(r)| == Count(r.length)
    ensures forall i :: 0 <= i < Count(r.length) ==> Responses(r)[i] == ResponseAt(r, i)
  {
    var (h, first) := Start(r);
    if h.generating {
      EmitsRest(h, r, 1);
    }
  }

  // Both ends count the same PSNs: what the requester's header generator reserves for a
  // read of non-zero length is the number of responses.
  lemma CountIsNumPkg(length: nat)
    requires 0 < length < LEN_MOD
    ensures Count(length) == RequestPath.NumPkg(ReadRequest, length)
  {
  }

  // ---------------------------------------------------------------- lengths

  // Opcodes whose packets carry a payload.
  predicate HasPayload(op: OpCode) {
    || op.SendFirst? || op.SendMiddle? || op.SendLast? || op.SendOnly?
    || op.WriteFirst? || op.WriteMiddle? || op.WriteLast? || op.WriteOnly?
    || op.ReadRespFirst? || op.ReadRespMiddle? || op.ReadRespLast? || op.ReadRespOnly?
  }

  // What generate_exh adds up: BTH, extended header, payload, checksum. The first packet
  // of a write carries one PMTU, whatever the length of the whole.
  function SentLength(op: OpCode, len: nat): nat
    requires HasPayload(op)
  {
    match op
    case WriteOnly => 12 + 16 + len + 4
    case WriteFirst => 12 + 16 + PMTU + 4
    case ReadRespOnly => 12 + 4 + len + 4
    case ReadRespFirst => 12 + 4 + len + 4
    case ReadRespLast => 12 + 4 + len + 4
    case _ => 12 + len + 4
  }

  // The UDP length field: 16 bits, the UDP header added on the way.
  function UdpLength(op: OpCode, len: nat): nat
    requires HasPayload(op)
  {
    (SentLength(op, len) % 0x1_0000 + 8) % 0x1_0000
  }

  // What rx_exh_fsm takes the payload to be: UDP header, BTH, extended header and checksum
  // subtracted.
  function PayloadLength(op: OpCode, udpLength: nat): nat
    requires HasPayload(op)
  {
    match op
    case WriteOnly => (udpLength - (8 + 12 + 16 + 4)) % LEN_MOD
    case WriteFirst => (udpLength - (8 + 12 + 16 + 4)) % LEN_MOD
    case ReadRespOnly => (udpLength - (8 + 12 + 4 + 4)) % LEN_MOD
    case ReadRespFirst => (udpLength - (8 + 12 + 4 + 4)) % LEN_MOD
    case ReadRespLast => (udpLength - (8 + 12 + 4 + 4)) % LEN_MOD
    case _ => (udpLength - (8 + 12 + 4)) % LEN_MOD
  }

  lemma LengthReturnsIff(len: nat, over: nat)
    requires len < LEN_MOD && 8 <= over <= 40
    ensures ((len + over) % 0x1_0000 - over) % LEN_MOD == len
            <==> len + over < 0x1_0000 || len + over >= LEN_MOD
  {
    var rem := (len + over) % 0x1_0000;
    if rem >= over {
      assert (rem - over) % LEN_MOD == rem - over;
    } else {
      assert (rem - over) % LEN_MOD == rem - over + LEN_MOD;
      if len + over >= LEN_MOD { assert rem == len + over - LEN_MOD; }
    }
  }

  // The length taken off on the way in is the one put on on the way out exactly as long
  // as the packet fits the 16-bit field; lengths so long that the headers wrap 32 bits
  // come back by accident. Of a write's first packet it is always one PMTU.
  lemma LengthsAgreeIff(op: OpCode, len: nat)
    requires HasPayload(op) && len < LEN_MOD
    ensures
      var wire := SentLength(op, len) + 8;
      PayloadLength(op, UdpLength(op, len)) == len
      <==> if op.WriteFirst? then len == PMTU else wire < 0x1_0000 || wire >= LEN_MOD
    ensures op.WriteFirst? ==> PayloadLength(op, UdpLength(op, len)) == PMTU
  {
    AddsUp(SentLength(op, len));
    if !op.WriteFirst? {
      var over := SentLength(op, len) + 8 - len;
      assert PayloadLength(op, UdpLength(op, len)) == (UdpLength(op, len) - over) % LEN_MOD;
      assert UdpLength(op, len) == (len + over) % 0x1_0000;
      hide PayloadLength, UdpLength, SentLength;
      LengthReturnsIff(len, over);
    }
  }

  lemma AddsUp(x: nat)
    ensures (x % 0x1_0000 + 8) % 0x1_0000 == (x + 8) % 0x1_0000
  {
  }

  // Up to one PMTU every length comes back.
  lemma ShortLength(op: OpCode, len: nat)
    requires HasPayload(op) && !op.WriteFirst? && len <= PMTU
    ensures PayloadLength(op, UdpLength(op, len)) == len
  {
    LengthsAgreeIff(op, len);
  }

  // ---------------------------------------------------------------- the requester

  // The running DMA address of a queue pair, and its memory.
  datatype DmaRow = DmaRow(vaddr: nat, length: nat, lst: bool)
  type Memory = nat -> Byte

  datatype WriteCmd = WriteCmd(addr: nat, length: nat, ctl: bool)

  const DMA_ADDR_MOD: nat := 0x1_0000_0000_0000
  const DMA_LEN_MOD: nat := 0x1000_0000

  // rx_exh_fsm on a read response with len bytes of payload.
  function WriteOf(row: DmaRow, init: Retransmitter.ReadInit, op: OpCode, len: nat): WriteCmd {
    var base := if op.ReadRespFirst? || op.ReadRespOnly? then init.localAddr else row.vaddr;
    WriteCmd(base % DMA_ADDR_MOD, len % DMA_LEN_MOD,
             if op.ReadRespOnly? then init.lst else if op.ReadRespLast? then row.lst else false)
  }

  function RowAfter(row: DmaRow, init: Retransmitter.ReadInit, op: OpCode, len: nat): DmaRow {
    match op
    case ReadRespFirst => DmaRow((init.localAddr + len) % ADDR_MOD, len, init.lst)
    case ReadRespOnly => DmaRow((init.localAddr + len) % ADDR_MOD, len, init.lst)
    case ReadRespMiddle => DmaRow((row.vaddr + len) % ADDR_MOD, len, row.lst)
    case _ => row
  }

  function Store(mem: Memory, cmd: WriteCmd, src: Memory, from: nat): Memory {
    (a: nat) => if cmd.addr <= a < cmd.addr + cmd.length then src(from + (a - cmd.addr)) else mem(a)
  }

  datatype Requester = Requester(row: DmaRow, mem: Memory, writes: seq<WriteCmd>)

  // A response arrives carrying the bytes read at its address.
  function Receive(q: Requester, init: Retransmitter.ReadInit, r: Response, src: Memory): Requester
    requires HasPayload(r.op)
  {
    var len := PayloadLength(r.op, UdpLength(r.op, r.length));
    var cmd := WriteOf(q.row, init, r.op, len);
    Requester(RowAfter(q.row, init, r.op, len), Store(q.mem, cmd, src, r.addr), q.writes + [cmd])
  }

  // The first k responses to a request, in order.
  function ReceiveFirst(q: Requester, init: Retransmitter.ReadInit, rs: seq<Response>, src: Memory, k: nat): Requester
    requires k <= |rs| && AllPayload(rs)
    decreases k
  {
    if k == 0 then q else Receive(ReceiveFirst(q, init, rs, src, k - 1), init, rs[k - 1], src)
  }

  // Memory with n bytes copied from src.
  function Copied(mem: Memory, src: Memory, laddr: nat, vaddr: nat, n: nat): Memory {
    (a: nat) => if laddr <= a < laddr + n then src(vaddr + (a - laddr)) else mem(a)
  }

  // Bytes covered by the first k responses.
  function Covered(length: nat, k: nat): nat { if k * PMTU < length then k * PMTU else length }

  // Neither end of the transfer wraps.
  predicate Fits(r: ReadReq, init: Retransmitter.ReadInit) {
    && Sized(r) && r.length > 0
    && r.vaddr + r.length < ADDR_MOD && init.localAddr + r.length < DMA_ADDR_MOD
  }

  // The row after k responses: the next address and the length and flag that came last. The
  // LAST response of several leaves it as it is.
  function RowWhen(r: ReadReq, init: Retransmitter.ReadInit, k: nat): DmaRow
    requires 0 < k <= Count(r.length) && r.length > 0
  {
    var n := Count(r.length);
    if k < n then DmaRow(init.localAddr + k * PMTU, PMTU, init.lst)
    else if n == 1 then DmaRow(init.localAddr + r.length, r.length, init.lst)
    else DmaRow(init.localAddr + (n - 1) * PMTU, PMTU, init.lst)
  }

  // Response i of r goes to its own place.
  lemma ResponseLands(q: Requester, init: Retransmitter.ReadInit, r: ReadReq, i: nat)
    requires Fits(r, init) && i < Count(r.length)
    requires i > 0 ==> q.row == RowWhen(r, init, i)
    ensures
      var x := ResponseAt(r, i);
      var len := PayloadLength(x.op, UdpLength(x.op, x.length));
      && len == x.length && 0 < len <= PMTU && i * PMTU + len == Covered(r.length, i + 1)
      && x.addr == r.vaddr + i * PMTU
      && WriteOf(q.row, init, x.op, len)
         == CommandAt(r, init, i)
      && RowAfter(q.row, init, x.op, len) == RowWhen(r, init, i + 1)
  {
    var x := ResponseAt(r, i);
    hide PayloadLength, UdpLength;
    ShortLength(x.op, x.length);
  }

  // One write command per response, each where the one before it ended; only the last
  // carries the request's last flag.
  function CommandAt(r: ReadReq, init: Retransmitter.ReadInit, i: nat): WriteCmd
    requires i < Count(r.length)
  {
    WriteCmd(init.localAddr + i * PMTU, ResponseAt(r, i).length, i == Count(r.length) - 1 && init.lst)
  }

  function Commands(r: ReadReq, init: Retransmitter.ReadInit, k: nat): seq<WriteCmd>
    requires k <= Count(r.length)
  {
    seq(k, i requires 0 <= i < k => CommandAt(r, init, i))
  }

  lemma StoreExtends(mem: Memory, src: Memory, laddr: nat, vaddr: nat, n: nat, len: nat, ctl: bool, a: nat)
    ensures Store(Copied(mem, src, laddr, vaddr, n), WriteCmd(laddr + n, len, ctl), src, vaddr + n)(a)
            == Copied(mem, src, laddr, vaddr, n + len)(a)
  {
  }

  lemma StoreSame(m: Memory, m': Memory, cmd: WriteCmd, src: Memory, from: nat, a: nat)
    requires m(a) == m'(a)
    ensures Store(m, cmd, src, from)(a) == Store(m', cmd, src, from)(a)
  {
  }

  // After k responses exactly the bytes they cover have been copied, each write taking
  // up where the one before it ended.
  lemma {:induction false} ReceivesInPlace(q: Requester, init: Retransmitter.ReadInit, r: ReadReq, src: Memory, k: nat)
    requires Fits(r, init) && k <= Count(r.length)
    ensures |Responses(r)| == Count(r.length)
    ensures
      var q' := ReceiveFirst(q, init, Responses(r), src, k);
      && q'.writes == q.writes + Commands(r, init, k)
      && (forall a: nat :: q'.mem(a) == Copied(q.mem, src, init.localAddr, r.vaddr, Covered(r.length, k))(a))
      && (k > 0 ==> q'.row == RowWhen(r, init, k))
    decreases k
  {
    hide Responses, Receive, WriteOf, RowAfter, Store, Copied;
    ResponsesAre(r);
    if k > 0 {
      ReceivesInPlace(q, init, r, src, k - 1);
      var p := ReceiveFirst(q, init, Responses(r), src, k - 1);
      ReceivesOne(q, p, init, r, src, k - 1);
      assert Commands(r, init, k) == Commands(r, init, k - 1) + [CommandAt(r, init, k - 1)];
    } else {
      CopiesNothing(q.mem, src, init.localAddr, r.vaddr);
      assert Commands(r, init, 0) == [];
    }
  }

  lemma CopiesNothing(mem: Memory, src: Memory, laddr: nat, vaddr: nat)
    ensures forall a: nat :: Copied(mem, src, laddr, vaddr, 0)(a) == mem(a)
  {
  }

  // p: after the first i responses.
  lemma ReceivesOne(q: Requester, p: Requester, init: Retransmitter.ReadInit, r: ReadReq, src: Memory, i: nat)
    requires Fits(r, init) && i < Count(r.length)
    requires i > 0 ==> p.row == RowWhen(r, init, i)
    requires forall a: nat :: p.mem(a) == Copied(q.mem, src, init.localAddr, r.vaddr, Covered(r.length, i))(a)
    ensures
      var q' := Receive(p, init, ResponseAt(r, i), src);
      && q'.writes == p.writes + [CommandAt(r, init, i)]
      && (forall a: nat :: q'.mem(a) == Copied(q.mem, src, init.localAddr, r.vaddr, Covered(r.length, i + 1))(a))
      && q'.row == RowWhen(r, init, i + 1)
  {
    hide WriteOf, RowAfter, Store, Copied;
    ResponseLands(p, init, r, i);
    var cmd, q' := CommandAt(r, init, i), Receive(p, init, ResponseAt(r, i), src);
    var before := Copied(q.mem, src, init.localAddr, r.vaddr, i * PMTU);
    assert Covered(r.length, i) == i * PMTU;
    forall a: nat
      ensures q'.mem(a) == Copied(q.mem, src, init.localAddr, r.vaddr, Covered(r.length, i + 1))(a)
    {
      StoreSame(p.mem, before, cmd, src, r.vaddr + i * PMTU, a);
      StoreExtends(q.mem, src, init.localAddr, r.vaddr, i * PMTU, cmd.length, cmd.ctl, a);
    }
  }

  // A read copies exactly: all of [vaddr, vaddr + length) to [laddr, laddr + length) and
  // nothing else, by one write command per response.
  lemma ReadCopies(q: Requester, init: Retransmitter.ReadInit, r: ReadReq, src: Memory)
    requires Fits(r, init)
    ensures |Responses(r)| == Count(r.length)
    ensures
      var q' := ReceiveFirst(q, init, Responses(r), src, Count(r.length));
      && (forall a: nat :: q'.mem(a) == Copied(q.mem, src, init.localAddr, r.vaddr, r.length)(a))
      && q'.writes == q.writes + Commands(r, init, Count(r.length))
  {
    hide ReceiveFirst, Responses, Copied, Commands;
    ReceivesInPlace(q, init, r, src, Count(r.length));
    assert Covered(r.length, Count(r.length)) == r.length;
  }

  // ---------------------------------------------------------------- resuming

  function AdvanceBy(e: Retransmitter.Entry, k: nat): Retransmitter.Entry
    decreases k
  {
    if k == 0 then e else Retransmitter.Advance(AdvanceBy(e, k - 1))
  }

  predicate EntryFits(e: Retransmitter.Entry) {
    && e.opCode.ReadRequest? && e.psn < PSN_MOD && 0 < e.length < LEN_MOD
    && e.remoteAddr + e.length < ADDR_MOD && e.localAddr + e.length < DMA_ADDR_MOD
  }

  function Ahead(e: Retransmitter.Entry, k: nat): Retransmitter.Entry
    requires k * PMTU < e.length
  {
    e.(psn := (e.psn + k) % PSN_MOD, localAddr := e.localAddr + k * PMTU, remoteAddr := e.remoteAddr + k * PMTU,
       length := e.length - k * PMTU)
  }

  lemma AdvanceOnce(e: Retransmitter.Entry, k: nat)
    requires EntryFits(e) && k + 1 < Count(e.length)
    ensures Retransmitter.Advance(Ahead(e, k)) == Ahead(e, k + 1)
  {
    AddMod(e.psn + k, 1);
  }

  // The list head after k FIRST or MIDDLE responses.
  lemma {:induction false} AdvancedEntry(e: Retransmitter.Entry, k: nat)
    requires EntryFits(e) && k < Count(e.length)
    ensures AdvanceBy(e, k) == Ahead(e, k)
    decreases k
  {
    if k > 0 {
      AdvancedEntry(e, k - 1);
      AdvanceOnce(e, k - 1);
    }
  }

  function RequestOf(qpn: nat, e: Retransmitter.Entry): ReadReq {
    ReadReq(qpn, e.remoteAddr, e.length, e.psn)
  }

  function InitOf(e: Retransmitter.Entry): Retransmitter.ReadInit { Retransmitter.ReadInit(e.localAddr, e.lst) }

  // Re-issued after k responses, a read asks for precisely the missing bytes and PSNs:
  // its i-th response is the original's (k + i)-th but for the opcode of the first.
  lemma ResumesExactly(qpn: nat, e: Retransmitter.Entry, k: nat, i: nat)
    requires EntryFits(e) && k < Count(e.length) && i < Count(e.length) - k
    ensures Count(AdvanceBy(e, k).length) == Count(e.length) - k
    ensures
      var again, first := ResponseAt(RequestOf(qpn, AdvanceBy(e, k)), i), ResponseAt(RequestOf(qpn, e), k + i);
      && again.addr == first.addr && again.length == first.length && again.psn == first.psn && again.qpn == first.qpn
      && (i > 0 ==> again.op == first.op)
  {
    AdvancedEntry(e, k);
    AddMod(e.psn + k, i);
  }

  // A read answered up to response k and then resumed leaves the same memory as one
  // answered at once, however the requester's row was changed in between.
  lemma ResumeCompletes(q: Requester, qpn: nat, e: Retransmitter.Entry, src: Memory, k: nat, row: DmaRow)
    requires EntryFits(e) && k < Count(e.length)
    ensures |Responses(RequestOf(qpn, e))| == Count(e.length)
    ensures |Responses(RequestOf(qpn, AdvanceBy(e, k)))| == Count(e.length) - k
    ensures
      var partial := ReceiveFirst(q, InitOf(e), Responses(RequestOf(qpn, e)), src, k);
      var rest := ReceiveFirst(partial.(row := row), InitOf(AdvanceBy(e, k)),
                               Responses(RequestOf(qpn, AdvanceBy(e, k))), src, Count(e.length) - k);
      forall a: nat :: rest.mem(a) == Copied(q.mem, src, e.localAddr, e.remoteAddr, e.length)(a)
  {
    hide ReceiveFirst, Responses, Copied, Commands, AdvanceBy;
    var e' := AdvanceBy(e, k);
    AdvancedEntry(e, k);
    ReceivesInPlace(q, InitOf(e), RequestOf(qpn, e), src, k);
    var partial := ReceiveFirst(q, InitOf(e), Responses(RequestOf(qpn, e)), src, k);
    ResumesExactly(qpn, e, k, 0);
    ReadCopies(partial.(row := row), InitOf(e'), RequestOf(qpn, e'), src);
    forall a: nat
      ensures Copied(partial.mem, src, e'.localAddr, e'.remoteAddr, e'.length)(a)
              == Copied(q.mem, src, e.localAddr, e.remoteAddr, e.length)(a)
    {
      CopyOnCopy(q.mem, partial.mem, src, e.localAddr, e.remoteAddr, k * PMTU, e'.length, a);
    }
  }

  lemma CopyOnCopy(mem: Memory, mid: Memory, src: Memory, laddr: nat, vaddr: nat, n: nat, len: nat, a: nat)
    requires mid(a) == Copied(mem, src, laddr, vaddr, n)(a)
    ensures Copied(mid, src, laddr + n, vaddr + n, len)(a) == Copied(mem, src, laddr, vaddr, n + len)(a)
  {
  }
}
