// One node's request path: how local requests get their PSNs on the way out, how
// arriving packets are judged against the expected PSN, and the state table both
// directions share.
module RequestPath {
  import opened InfiniBand
  import Retransmitter

  const NUM_PKG_MOD: nat := 0x40_0000

  // ---------------------------------------------------------------- data

  // One entry of the state table.
  datatype Row = Row(respEpsn: nat, respOld: nat, reqNext: nat, reqOldUnack: nat, reqOldValid: nat, retry: nat)

  datatype RxStateReq = RxRead(qpn: nat, isResponse: bool) | RxWrite(qpn: nat, epsn: nat, retry: nat, isResponse: bool)
  datatype RxStateRsp = RxStateRsp(epsn: nat, oldest: nat, maxForward: nat, retry: nat)
  datatype TxStateReq = TxRead(qpn: nat) | TxWrite(qpn: nat, psn: nat)
  datatype IfStateReq = IfRead(qpn: nat) | IfWrite(qpn: nat, remotePsn: nat, localPsn: nat)

  // A request of the local application.
  datatype LocalReq = LocalReq(op: OpCode, qpn: nat, laddr: nat, raddr: nat, length: nat, lst: bool, offs: nat)
  datatype AddrLen = AddrLen(laddr: nat, raddr: nat, length: nat, lst: bool, offs: nat)
  datatype RetransMeta = RetransMeta(qpn: nat, psn: nat, op: OpCode)

  datatype Event = Event(op: OpCode, qpn: nat, addr: nat, length: nat, psn: nat, validPsn: bool, isNak: bool)
  datatype AckEvent = AckEvent(qpn: nat, psn: nat, validPsn: bool, isNak: bool)
  datatype IbhMeta = IbhMeta(op: OpCode, qpn: nat, psn: nat, validPsn: bool, numPkg: nat)
  datatype Header = Header(op: OpCode, dstQp: nat, psn: nat, ackReq: bool)

  datatype Packet = Packet(op: OpCode, dstQp: nat, psn: nat, addr: nat, length: nat, isNak: bool, ackReq: bool)

  // What the receive path keeps of a packet.
  datatype Arrival = Arrival(op: OpCode, qpn: nat, psn: nat, isNak: bool, numPkg: nat)

  datatype Verdict =
    | Forward            // in order, or an acknowledgement
    | Reexecute          // duplicate read request, served again
    | AckAgain           // duplicate write, acknowledged and dropped
    | DropDuplicate
    | Nak(psn: nat)      // out of sequence, NAK sent
    | DropInvalid        // out of sequence, NAK already sent

  // A packet and the state it was judged against.
  datatype Judged = Judged(packet: Arrival, seen: RxStateRsp)

  // PSNs a request takes up.
  function NumPkg(op: OpCode, length: nat): nat {
    if op.ReadRequest? then ((length + (PMTU - 1)) / PMTU) % NUM_PKG_MOD else 1
  }

  // Opcodes for which the local request handler produces a packet.
  predicate Supported(op: OpCode) {
    || op.ReadRequest? || op.WriteFirst? || op.WriteMiddle? || op.WriteLast? || op.WriteOnly?
    || op.SendFirst? || op.SendMiddle? || op.SendLast? || op.SendOnly?
  }

  // ---------------------------------------------------------------- transmit path

  datatype TxPath = TxPath(
    // inputs
    sq: seq<LocalReq>, retransEvents: seq<Retransmitter.Event>, acks: seq<AckEvent>, readEvents: seq<Event>,
    // between the processes
    appMeta: seq<Event>, addrLens: seq<AddrLen>, connReq: seq<nat>, dstQp: seq<nat>,
    ibhMeta: seq<IbhMeta>, exhMeta: seq<Event>, metas: seq<RetransMeta>, headers: seq<Header>,
    txReq: seq<TxStateReq>, txRsp: seq<Row>,
    // registers of generate_ibh
    busy: bool, meta: IbhMeta, dst: nat,
    // everything written so far
    entries: seq<Retransmitter.InsertReq>, wire: seq<Packet>)

  function LocalEvent(r: LocalReq): Event { Event(r.op, r.qpn, r.raddr, r.length, 0, false, false) }

  function ResendEvent(ev: Retransmitter.Event): Event {
    Event(ev.entry.opCode, ev.qpn, ev.entry.remoteAddr, ev.entry.length, ev.entry.psn, true, false)
  }

  // local_req_handler: retransmissions first. The addresses of every local request
  // are queued for the retransmitter, whether or not its opcode yields a packet.
  function LocalReqHandler(tx: TxPath): TxPath {
    if tx.retransEvents != [] then
      tx.(retransEvents := tx.retransEvents[1..], appMeta := tx.appMeta + [ResendEvent(tx.retransEvents[0])])
    else if tx.sq != [] then
      var r := tx.sq[0];
      tx.(sq := tx.sq[1..],
          appMeta := if Supported(r.op) then tx.appMeta + [LocalEvent(r)] else tx.appMeta,
          addrLens := tx.addrLens + [AddrLen(r.laddr, r.raddr, r.length, r.lst, r.offs)])
    else tx
  }

  function MetaOf(ev: Event): IbhMeta {
    if ev.validPsn then IbhMeta(ev.op, ev.qpn, ev.psn, true, 1)
    else IbhMeta(ev.op, ev.qpn, 0, false, NumPkg(ev.op, ev.length))
  }

  // meta_merger: acknowledgements, then read responses, then local requests.
  function MetaMerger(tx: TxPath): TxPath {
    if tx.acks != [] then
      var a := tx.acks[0];
      tx.(acks := tx.acks[1..], connReq := tx.connReq + [a.qpn],
          ibhMeta := tx.ibhMeta + [IbhMeta(Ack, a.qpn, a.psn, a.validPsn, 1)],
          exhMeta := tx.exhMeta + [Event(Ack, a.qpn, 0, 0, a.psn, a.validPsn, a.isNak)])
    else if tx.readEvents != [] then
      var ev := tx.readEvents[0];
      tx.(readEvents := tx.readEvents[1..], connReq := tx.connReq + [ev.qpn],
          ibhMeta := tx.ibhMeta + [IbhMeta(ev.op, ev.qpn, ev.psn, ev.validPsn, 1)],
          exhMeta := tx.exhMeta + [ev])
    else if tx.appMeta != [] then
      var ev := tx.appMeta[0];
      tx.(appMeta := tx.appMeta[1..], connReq := tx.connReq + [ev.qpn],
          ibhMeta := tx.ibhMeta + [MetaOf(ev)], exhMeta := tx.exhMeta + [ev])
    else tx
  }

  // Connection lookup of the destination QP.
  function ConnTable(tx: TxPath, conn: seq<nat>): TxPath {
    if tx.connReq != [] then
      var q := tx.connReq[0];
      tx.(connReq := tx.connReq[1..], dstQp := tx.dstQp + [if q < |conn| then conn[q] else 0])
    else tx
  }

  // generate_ibh, state META
  function StartHeader(tx: TxPath): TxPath {
    if tx.ibhMeta != [] && tx.dstQp != [] then
      var m, d := tx.ibhMeta[0], tx.dstQp[0];
      var tx' := tx.(ibhMeta := tx.ibhMeta[1..], dstQp := tx.dstQp[1..], meta := m, dst := d);
      if m.validPsn then tx'.(headers := tx.headers + [Header(m.op, d, m.psn, false)])
      else tx'.(txReq := tx.txReq + [TxRead(m.qpn)], busy := true)
    else tx
  }

  // generate_ibh, state GET_PSN
  function FinishHeader(tx: TxPath): TxPath {
    if tx.txRsp == [] then tx
    else
      var row, m := tx.txRsp[0], tx.meta;
      var tx' := tx.(txRsp := tx.txRsp[1..], busy := false);
      if m.op == Ack then
        tx'.(headers := tx.headers + [Header(m.op, tx.dst, (row.respEpsn - 1) % PSN_MOD, false)])
      else
        tx'.(headers := tx.headers + [Header(m.op, tx.dst, row.reqNext, true)],
             txReq := tx.txReq + [TxWrite(m.qpn, (row.reqNext + m.numPkg) % PSN_MOD)],
             metas := tx.metas + [RetransMeta(m.qpn, row.reqNext, m.op)])
  }

  function GenerateIbh(tx: TxPath): TxPath {
    if tx.busy then FinishHeader(tx) else StartHeader(tx)
  }

  function EntryOf(m: RetransMeta, a: AddrLen): Retransmitter.InsertReq {
    Retransmitter.InsertReq(m.qpn, Retransmitter.Entry(m.psn, m.op, a.laddr, a.raddr, a.length, a.lst, a.offs))
  }

  function MergeRetransRequest(tx: TxPath): TxPath {
    if tx.metas != [] && tx.addrLens != [] then
      tx.(metas := tx.metas[1..], addrLens := tx.addrLens[1..],
          entries := tx.entries + [EntryOf(tx.metas[0], tx.addrLens[0])])
    else tx
  }

  // generate_exh and prepend_ibh_header join the i-th header with the i-th extended header.
  function Transmit(tx: TxPath): TxPath {
    if tx.headers != [] && tx.exhMeta != [] then
      var h, ev := tx.headers[0], tx.exhMeta[0];
      tx.(headers := tx.headers[1..], exhMeta := tx.exhMeta[1..],
          wire := tx.wire + [Packet(h.op, h.dstQp, h.psn, ev.addr, ev.length, ev.isNak, h.ackReq)])
    else tx
  }

  // ---------------------------------------------------------------- receive path

  datatype RxPath = RxPath(
    arrivals: seq<Arrival>, rxReq: seq<RxStateReq>, rxRsp: seq<RxStateRsp>,
    // registers of rx_ibh_fsm
    busy: bool, packet: Arrival,
    // everything judged so far, and everything written to the other outputs
    judged: seq<Judged>, out: RxOut)

  datatype Policy = Policy(isDrop: bool, ackOnly: bool)
  datatype Completion = Completion(isAck: bool, qpn: nat, psn: nat)
  datatype TimerClear = TimerClear(qpn: nat, stop: bool)

  // headers: passed on to rx_exh_fsm. drops, policies: what becomes of payload and
  // packet. events: acknowledgements and NAKs to send. updates: to the retransmitter.
  // completions: to flow control. clears: to the transport timer.
  datatype RxOut = RxOut(headers: seq<Arrival>, drops: seq<bool>, policies: seq<Policy>, events: seq<AckEvent>,
                         updates: seq<Retransmitter.UpdateReq>, completions: seq<Completion>, clears: seq<TimerClear>)

  function NoOutput(): RxOut { RxOut([], [], [], [], [], [], []) }

  function Joined(a: RxOut, b: RxOut): RxOut {
    RxOut(a.headers + b.headers, a.drops + b.drops, a.policies + b.policies, a.events + b.events,
          a.updates + b.updates, a.completions + b.completions, a.clears + b.clears)
  }

  // What a packet passed on makes known: a response that is no NAK releases or advances
  // the head of the retransmission list, whether or not its PSN is in the window.
  function Notices(p: Arrival, st: RxStateRsp): RxOut {
    var r := IsResponse(p.op);
    NoOutput().(
      headers := [p], policies := [Policy(false, false)],
      drops := if p.op != Ack && !p.op.ReadRequest? then [false] else [],
      updates := if r && !p.isNak then [Retransmitter.UpdateReq(p.qpn, p.psn, p.op)] else [],
      completions := if r && !p.isNak && !p.op.ReadRespFirst? && !p.op.ReadRespMiddle?
                     then [Completion(p.op == Ack, p.qpn, p.psn)] else [],
      clears := if r && !p.op.ReadRespMiddle? then [TimerClear(p.qpn, p.psn == st.maxForward)] else [])
  }

  function Emitted(p: Arrival, st: RxStateRsp): RxOut {
    match VerdictOn(p, st)
    case Forward => Notices(p, st)
    case Reexecute => NoOutput().(headers := [p], policies := [Policy(false, false)])
    case AckAgain =>
      NoOutput().(drops := [true], policies := [Policy(false, true)], events := [AckEvent(p.qpn, p.psn, true, false)])
    case DropDuplicate => NoOutput().(drops := [true], policies := [Policy(true, false)])
    case Nak(psn) =>
      NoOutput().(drops := [true], policies := [Policy(true, false)], events := [AckEvent(p.qpn, psn, true, true)])
    case DropInvalid => NoOutput().(drops := [true], policies := [Policy(true, false)])
  }

  predicate InAckWindow(epsn: nat, psn: nat, maxForward: nat) {
    || (epsn <= psn && psn <= maxForward)
    || ((epsn <= psn || psn <= maxForward) && maxForward < epsn)
  }

  predicate InDuplicateWindow(oldest: nat, epsn: nat, psn: nat) {
    || (oldest < epsn && psn < epsn && psn >= oldest)
    || (oldest > epsn && (psn < epsn || psn >= oldest))
  }

  function VerdictOn(p: Arrival, st: RxStateRsp): Verdict {
    if st.epsn == p.psn || p.op == Ack then Forward
    else if InDuplicateWindow(st.oldest, st.epsn, p.psn) then
      if p.op.ReadRequest? then Reexecute else if IsWrite(p.op) then AckAgain else DropDuplicate
    else if st.retry == 7 then Nak(if IsResponse(p.op) then p.psn else st.epsn)
    else DropInvalid
  }

  // What rx_ibh_fsm writes back to the state table, if anything.
  function WriteBack(p: Arrival, st: RxStateRsp): seq<RxStateReq> {
    match VerdictOn(p, st)
    case Forward =>
      if !p.isNak && (p.op != Ack || InAckWindow(st.epsn, p.psn, st.maxForward)) then
        [RxWrite(p.qpn, (p.psn + p.numPkg) % PSN_MOD, 7, IsResponse(p.op))]
      else []
    case Nak(_) => [RxWrite(p.qpn, st.epsn, 6, IsResponse(p.op))]
    case DropInvalid => [RxWrite(p.qpn, st.epsn, st.retry, IsResponse(p.op))]
    case _ => []
  }

  function RxIbhFsm(rx: RxPath): RxPath {
    if !rx.busy then
      if rx.arrivals == [] then rx
      else
        var p := rx.arrivals[0];
        rx.(arrivals := rx.arrivals[1..], packet := p, busy := true,
            rxReq := rx.rxReq + [RxRead(p.qpn, IsResponse(p.op))])
    else if rx.rxRsp == [] then rx
    else
      var p, st := rx.packet, rx.rxRsp[0];
      rx.(rxRsp := rx.rxRsp[1..], busy := false,
          rxReq := rx.rxReq + WriteBack(p, st),
          judged := rx.judged + [Judged(p, st)], out := Joined(rx.out, Emitted(p, st)))
  }

  // ---------------------------------------------------------------- state table

  function WriteRow(row: Row, r: RxStateReq): Row {
    if r.RxRead? then row
    else if r.isResponse then row.(reqOldUnack := r.epsn)
    else row.(respEpsn := r.epsn, retry := r.retry)
  }

  function ReadRow(row: Row, isResponse: bool): RxStateRsp {
    if isResponse then RxStateRsp(row.reqOldUnack, row.reqOldValid, (row.reqNext - 1) % PSN_MOD, 0)
    else RxStateRsp(row.respEpsn, row.respOld, row.respEpsn, row.retry)
  }

  function SetupRow(remotePsn: nat, localPsn: nat): Row {
    Row(localPsn, localPsn, remotePsn, remotePsn, remotePsn, 7)
  }

  datatype Node = Node(conn: seq<nat>, table: seq<Row>, tx: TxPath, rx: RxPath, ifReq: seq<IfStateReq>, ifRsp: seq<Row>)

  function ServeRx(n: Node): Node
    requires n.rx.rxReq != []
  {
    var r := n.rx.rxReq[0];
    var rx := n.rx.(rxReq := n.rx.rxReq[1..]);
    if r.qpn >= |n.table| then n.(rx := rx)
    else if r.RxRead? then n.(rx := rx.(rxRsp := rx.rxRsp + [ReadRow(n.table[r.qpn], r.isResponse)]))
    else n.(rx := rx, table := n.table[r.qpn := WriteRow(n.table[r.qpn], r)])
  }

  function ServeTx(n: Node): Node
    requires n.tx.txReq != []
  {
    var r := n.tx.txReq[0];
    var tx := n.tx.(txReq := n.tx.txReq[1..]);
    if r.qpn >= |n.table| then n.(tx := tx)
    else if r.TxRead? then n.(tx := tx.(txRsp := tx.txRsp + [n.table[r.qpn]]))
    else n.(tx := tx, table := n.table[r.qpn := n.table[r.qpn].(reqNext := r.psn)])
  }

  function ServeIf(n: Node): Node
    requires n.ifReq != []
  {
    var r, n' := n.ifReq[0], n.(ifReq := n.ifReq[1..]);
    if r.qpn >= |n.table| then n'
    else if r.IfRead? then n'.(ifRsp := n.ifRsp + [n.table[r.qpn]])
    else n'.(table := n.table[r.qpn := SetupRow(r.remotePsn, r.localPsn)])
  }

  // The receive path has priority, then the transmit path, then connection setup.
  function StateTable(n: Node): Node {
    if n.rx.rxReq != [] then ServeRx(n)
    else if n.tx.txReq != [] then ServeTx(n)
    else if n.ifReq != [] then ServeIf(n)
    else n
  }

  // ---------------------------------------------------------------- runs

  datatype Action =
    | RunLocalReqHandler | RunMetaMerger | RunConnTable | RunGenerateIbh | RunMergeRetrans | RunTransmit
    | RunRxIbhFsm | RunStateTable
    | Submit(req: LocalReq) | Resend(ev: Retransmitter.Event) | OfferAck(ack: AckEvent) | OfferRead(readEvent: Event)
    | Arrive(packet: Arrival) | Setup(ifReq: IfStateReq)

  function Next(n: Node, a: Action): Node {
    match a
    case RunLocalReqHandler => n.(tx := LocalReqHandler(n.tx))
    case RunMetaMerger => n.(tx := MetaMerger(n.tx))
    case RunConnTable => n.(tx := ConnTable(n.tx, n.conn))
    case RunGenerateIbh => n.(tx := GenerateIbh(n.tx))
    case RunMergeRetrans => n.(tx := MergeRetransRequest(n.tx))
    case RunTransmit => n.(tx := Transmit(n.tx))
    case RunRxIbhFsm => n.(rx := RxIbhFsm(n.rx))
    case RunStateTable => StateTable(n)
    case Submit(r) => n.(tx := n.tx.(sq := n.tx.sq + [r]))
    case Resend(ev) => n.(tx := n.tx.(retransEvents := n.tx.retransEvents + [ev]))
    case OfferAck(a) => n.(tx := n.tx.(acks := n.tx.acks + [a]))
    case OfferRead(ev) => n.(tx := n.tx.(readEvents := n.tx.readEvents + [ev]))
    case Arrive(p) => n.(rx := n.rx.(arrivals := n.rx.arrivals + [p]))
    case Setup(r) => n.(ifReq := n.ifReq + [r])
  }

  function Run(n: Node, actions: seq<Action>): Node
    decreases |actions|
  {
    if actions == [] then n
    else Next(Run(n, actions[..|actions| - 1]), actions[|actions| - 1])
  }

  ghost predicate QuietTx(tx: TxPath) {
    && tx.sq == [] && tx.retransEvents == [] && tx.acks == [] && tx.readEvents == []
    && tx.appMeta == [] && tx.addrLens == [] && tx.connReq == [] && tx.dstQp == []
    && tx.ibhMeta == [] && tx.exhMeta == [] && tx.metas == [] && tx.headers == []
    && tx.txReq == [] && tx.txRsp == [] && !tx.busy && tx.entries == [] && tx.wire == []
  }

  ghost predicate QuietRx(rx: RxPath) {
    rx.arrivals == [] && rx.rxReq == [] && rx.rxRsp == [] && !rx.busy && rx.judged == [] && rx.out == NoOutput()
  }

  // Every queue pair has been set up and nothing has moved yet.
  ghost predicate Initial(n: Node) {
    && QuietTx(n.tx) && QuietRx(n.rx) && n.ifReq == []
    && forall q :: 0 <= q < |n.table| ==> IsSetup(n.table[q])
  }

  ghost predicate IsSetup(row: Row) {
    row.reqNext < PSN_MOD && row.respEpsn < PSN_MOD && row == SetupRow(row.reqNext, row.respEpsn)
  }
}
