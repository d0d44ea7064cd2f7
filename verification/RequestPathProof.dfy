// Numbering and pairing on the transmit path, for every interleaving of the node's
// processes.
module RequestPathProof {
  import opened InfiniBand
  import Retransmitter
  import opened RequestPath

  // ---------------------------------------------------------------- ghost state

  // What an item in a FIFO stands for: the k-th supported request, the i-th event the
  // retransmitter handed in, the i-th acknowledgement or the i-th read event offered.
  datatype Tag = New(k: nat) | Again(i: nat) | OfAck(i: nat) | OfRead(i: nat)

  datatype Item = Item(ev: Event, tag: Tag)

  // reqs: the supported requests taken so far. nums: unbounded sequence numbers of those that have
  // got a PSN. at: for each QP, the sequence number its next request will get. resent:
  // the events the retransmitter handed in. acks, readEvs: what was offered to be sent back.
  datatype Ledger = Ledger(reqs: seq<LocalReq>, nums: seq<nat>, at: seq<nat>, resent: seq<Retransmitter.Event>,
                           acks: seq<AckEvent>, readEvs: seq<Event>)

  // seen: every request taken, supported or not. merged: how many supported ones have
  // passed the meta merger. The other sequences shadow the FIFOs of the same stage.
  datatype TxTrack = TxTrack(
    led: Ledger, seen: seq<LocalReq>, merged: nat,
    again: seq<Item>, app: seq<Item>, ibh: seq<Item>, gi: seq<Item>, heads: seq<Item>, wire: seq<Item>)

  function Pages(r: LocalReq): nat { NumPkg(r.op, r.length) }

  function DstOf(conn: seq<nat>, q: nat): nat { if q < |conn| then conn[q] else 0 }

  // ---------------------------------------------------------------- what items and outputs must be

  predicate IsReply(tag: Tag) { tag.OfAck? || tag.OfRead? }

  // An acknowledgement as an event: no address, no length.
  function AckAsEvent(a: AckEvent): Event { Event(Ack, a.qpn, 0, 0, a.psn, a.validPsn, a.isNak) }

  ghost predicate ItemOk(led: Ledger, it: Item) {
    && it.ev.qpn < |led.at|
    && match it.tag
       case New(k) => k < |led.reqs| && it.ev == LocalEvent(led.reqs[k])
       case Again(i) => i < |led.resent| && it.ev == ResendEvent(led.resent[i])
       case OfAck(i) => i < |led.acks| && it.ev == AckAsEvent(led.acks[i])
       case OfRead(i) => i < |led.readEvs| && it.ev == led.readEvs[i] && IsResponse(it.ev.op) && it.ev.validPsn
  }

  ghost predicate MetaOk(m: IbhMeta, it: Item) {
    if IsReply(it.tag) then
      && m.op == it.ev.op && m.qpn == it.ev.qpn && m.psn == it.ev.psn && m.validPsn == it.ev.validPsn
      && (m.validPsn || it.tag.OfAck?)
    else m == MetaOf(it.ev)
  }

  ghost predicate HeaderOk(led: Ledger, conn: seq<nat>, h: Header, it: Item) {
    && h.op == it.ev.op && h.dstQp == DstOf(conn, it.ev.qpn)
    && match it.tag
       case New(k) => k < |led.nums| && h.psn == led.nums[k] % PSN_MOD && h.ackReq
       case Again(_) => h.psn == it.ev.psn && !h.ackReq
       case _ => (it.ev.validPsn ==> h.psn == it.ev.psn) && !h.ackReq
  }

  ghost predicate PacketOk(led: Ledger, conn: seq<nat>, p: Packet, it: Item) {
    && HeaderOk(led, conn, Header(p.op, p.dstQp, p.psn, p.ackReq), it)
    && p.addr == it.ev.addr && p.length == it.ev.length && p.isNak == it.ev.isNak
  }

  ghost predicate AllOk(led: Ledger, items: seq<Item>) {
    forall i :: 0 <= i < |items| ==> ItemOk(led, items[i])
  }

  // The new requests among the items are exactly from, from + 1, ..., to - 1 in order.
  ghost predicate Consecutive(items: seq<Item>, from: nat, to: nat)
    decreases |items|
  {
    if items == [] then from == to
    else if items[0].tag.New? then items[0].tag.k == from && Consecutive(items[1..], from + 1, to)
    else Consecutive(items[1..], from, to)
  }

  function News(items: seq<Item>): nat
    decreases |items|
  {
    if items == [] then 0 else (if items[0].tag.New? then 1 else 0) + News(items[1..])
  }

  // ---------------------------------------------------------------- the FIFOs and their shadows

  ghost predicate AgainRel(retrans: seq<Retransmitter.Event>, again: seq<Item>) {
    && |again| == |retrans|
    && forall i :: 0 <= i < |again| ==> again[i].tag.Again? && again[i].ev == ResendEvent(retrans[i])
  }

  ghost predicate AppRel(appMeta: seq<Event>, app: seq<Item>) {
    && |app| == |appMeta|
    && forall i :: 0 <= i < |app| ==> !IsReply(app[i].tag) && app[i].ev == appMeta[i]
  }

  ghost predicate IbhRel(ibhMeta: seq<IbhMeta>, ibh: seq<Item>) {
    && |ibh| == |ibhMeta|
    && forall i :: 0 <= i < |ibh| ==> MetaOk(ibhMeta[i], ibh[i])
  }

  ghost predicate GiRel(busy: bool, m: IbhMeta, dst: nat, conn: seq<nat>, gi: seq<Item>) {
    && |gi| == (if busy then 1 else 0)
    && (busy ==> MetaOk(m, gi[0]) && !m.validPsn && dst == DstOf(conn, m.qpn))
  }

  ghost predicate HeadRel(led: Ledger, conn: seq<nat>, headers: seq<Header>, heads: seq<Item>) {
    && |heads| == |headers|
    && forall i :: 0 <= i < |heads| ==> HeaderOk(led, conn, headers[i], heads[i])
  }

  ghost predicate WireRel(led: Ledger, conn: seq<nat>, packets: seq<Packet>, wire: seq<Item>) {
    && |wire| == |packets|
    && forall i :: 0 <= i < |wire| ==> PacketOk(led, conn, packets[i], wire[i])
  }

  // The extended headers wait in the order of the headers made, in progress, and to come.
  ghost predicate ExhRel(exhMeta: seq<Event>, items: seq<Item>) {
    && |items| == |exhMeta|
    && forall i :: 0 <= i < |items| ==> items[i].ev == exhMeta[i]
  }

  ghost predicate ConnRel(connReq: seq<nat>, dstQp: seq<nat>, ibhMeta: seq<IbhMeta>, conn: seq<nat>) {
    && |dstQp| + |connReq| == |ibhMeta|
    && (forall i :: 0 <= i < |dstQp| ==> dstQp[i] == DstOf(conn, ibhMeta[i].qpn))
    && (forall i, j :: 0 <= i < |connReq| && j == |dstQp| + i ==> connReq[i] == ibhMeta[j].qpn)
  }

  // The QP of a request that yields a packet exists.
  predicate SubmitOk(r: LocalReq, queues: nat) { Supported(r.op) ==> r.qpn < queues }

  ghost predicate InputsOk(sq: seq<LocalReq>, acks: seq<AckEvent>, readEvents: seq<Event>, queues: nat) {
    && (forall i :: 0 <= i < |sq| ==> SubmitOk(sq[i], queues))
    && (forall i :: 0 <= i < |acks| ==> acks[i].qpn < queues)
    && (forall i :: 0 <= i < |readEvents| ==>
          readEvents[i].qpn < queues && IsResponse(readEvents[i].op) && readEvents[i].validPsn)
  }

  // What still waits is the end of what was offered.
  ghost predicate WaitsOf<T>(waiting: seq<T>, offered: seq<T>) {
    |waiting| <= |offered| && forall i, j :: 0 <= i < |waiting| && j == |offered| - |waiting| + i ==> waiting[i] == offered[j]
  }

  ghost predicate RepliesRel(led: Ledger, acks: seq<AckEvent>, readEvents: seq<Event>) {
    WaitsOf(acks, led.acks) && WaitsOf(readEvents, led.readEvs)
  }

  // ---------------------------------------------------------------- pairing

  function AddrLenOf(r: LocalReq): AddrLen { AddrLen(r.laddr, r.raddr, r.length, r.lst, r.offs) }

  // The supported requests among rs, in order.
  function KeepSupported(rs: seq<LocalReq>): seq<LocalReq>
    decreases |rs|
  {
    if rs == [] then []
    else
      var last := rs[|rs| - 1];
      KeepSupported(rs[..|rs| - 1]) + if Supported(last.op) then [last] else []
  }

  // What generate_ibh notes of request k.
  function MetaFor(led: Ledger, k: nat): RetransMeta
    requires k < |led.reqs| && k < |led.nums|
  {
    RetransMeta(led.reqs[k].qpn, led.nums[k] % PSN_MOD, led.reqs[k].op)
  }

  // The i-th numbered request meets the addresses of the i-th request taken.
  ghost predicate Paired(led: Ledger, seen: seq<LocalReq>, entries: seq<Retransmitter.InsertReq>,
                         metas: seq<RetransMeta>, addrLens: seq<AddrLen>) {
    var e := |entries|;
    && e + |metas| == |led.nums| <= |led.reqs|
    && e + |addrLens| == |seen|
    && (forall i, j :: 0 <= i < |addrLens| && j == e + i ==> addrLens[i] == AddrLenOf(seen[j]))
    && (forall i, j :: 0 <= i < |metas| && j == e + i ==> metas[i] == MetaFor(led, j))
    && (forall i :: 0 <= i < e ==> entries[i] == EntryOf(MetaFor(led, i), AddrLenOf(seen[i])))
  }

  // ---------------------------------------------------------------- the state table's next PSN

  // The value a queue of writes leaves behind for QP q.
  ghost function LastWrite(v: nat, rs: seq<TxStateReq>, q: nat): nat
    decreases |rs|
  {
    if rs == [] then v
    else LastWrite(if rs[0].TxWrite? && rs[0].qpn == q then rs[0].psn else v, rs[1..], q)
  }

  ghost predicate OnlyWrites(rs: seq<TxStateReq>, queues: nat) {
    forall i :: 0 <= i < |rs| ==> rs[i].TxWrite? && rs[i].qpn < queues
  }

  ghost predicate TxQueue(table: seq<Row>, rs: seq<TxStateReq>, rsp: seq<Row>, busy: bool, q: nat) {
    if !busy then rsp == [] && OnlyWrites(rs, |table|)
    else
      && q < |table|
      && ((rsp == [] && |rs| > 0 && rs[|rs| - 1] == TxRead(q) && OnlyWrites(rs[..|rs| - 1], |table|))
          || (rs == [] && |rsp| == 1 && rsp[0].reqNext == table[q].reqNext))
  }

  ghost predicate NextPsns(table: seq<Row>, rs: seq<TxStateReq>, at: seq<nat>) {
    && |at| == |table|
    && forall q :: 0 <= q < |table| ==> LastWrite(table[q].reqNext, rs, q) == at[q] % PSN_MOD
  }

  // ---------------------------------------------------------------- counting

  // PSNs taken up by the requests on q among the first k.
  function PagesBefore(reqs: seq<LocalReq>, k: nat, q: nat): nat
    requires k <= |reqs|
    decreases k
  {
    if k == 0 then 0
    else PagesBefore(reqs, k - 1, q) + if reqs[k - 1].qpn == q then Pages(reqs[k - 1]) else 0
  }

  ghost predicate Counted(led: Ledger, base: seq<nat>) {
    && |base| == |led.at| && |led.nums| <= |led.reqs|
    && (forall k :: 0 <= k < |led.reqs| ==>
          led.reqs[k].qpn < |base| && Supported(led.reqs[k].op))
    && (forall q {:trigger led.at[q]} :: 0 <= q < |base| ==> led.at[q] == base[q] + PagesBefore(led.reqs, |led.nums|, q))
    && (forall k {:trigger led.nums[k]} :: 0 <= k < |led.nums| ==>
          led.nums[k] == base[led.reqs[k].qpn] + PagesBefore(led.reqs, k, led.reqs[k].qpn))
  }

  // ---------------------------------------------------------------- the invariant

  // Every item is what its tag says.
  ghost predicate ItemsInv(t: TxTrack) {
    && AllOk(t.led, t.again) && AllOk(t.led, t.app) && AllOk(t.led, t.ibh)
    && AllOk(t.led, t.gi) && AllOk(t.led, t.heads) && AllOk(t.led, t.wire)
  }

  // The requests pass every stage in order, none lost, none twice.
  ghost predicate OrderInv(t: TxTrack) {
    && Consecutive(t.wire + t.heads, 0, |t.led.nums|)
    && Consecutive(t.gi + t.ibh, |t.led.nums|, t.merged)
    && Consecutive(t.app, t.merged, |t.led.reqs|)
  }

  ghost predicate FifoInv(tx: TxPath, t: TxTrack, conn: seq<nat>) {
    && AgainRel(tx.retransEvents, t.again) && AppRel(tx.appMeta, t.app) && IbhRel(tx.ibhMeta, t.ibh)
    && GiRel(tx.busy, tx.meta, tx.dst, conn, t.gi) && HeadRel(t.led, conn, tx.headers, t.heads)
    && WireRel(t.led, conn, tx.wire, t.wire) && ExhRel(tx.exhMeta, t.heads + t.gi + t.ibh)
    && ConnRel(tx.connReq, tx.dstQp, tx.ibhMeta, conn)
    && InputsOk(tx.sq, tx.acks, tx.readEvents, |t.led.at|) && RepliesRel(t.led, tx.acks, tx.readEvents)
  }

  ghost predicate TableInv(table: seq<Row>, tx: TxPath, t: TxTrack) {
    NextPsns(table, tx.txReq, t.led.at) && TxQueue(table, tx.txReq, tx.txRsp, tx.busy, tx.meta.qpn)
  }

  ghost predicate PairInv(tx: TxPath, t: TxTrack) {
    t.led.reqs == KeepSupported(t.seen) && Paired(t.led, t.seen, tx.entries, tx.metas, tx.addrLens)
  }

  // Connection setup is over; the connection interface only reads.
  ghost predicate NoSetups(rs: seq<IfStateReq>) { forall i :: 0 <= i < |rs| ==> rs[i].IfRead? }

  ghost predicate TxInv(n: Node, t: TxTrack, base: seq<nat>) {
    && ItemsInv(t) && OrderInv(t) && FifoInv(n.tx, t, n.conn)
    && TableInv(n.table, n.tx, t) && PairInv(n.tx, t) && Counted(t.led, base)
    && NoSetups(n.ifReq)
  }

  // ---------------------------------------------------------------- list lemmas

  function One(it: Item): nat { if it.tag.New? then 1 else 0 }

  lemma {:induction false} ConsecutiveSnoc(items: seq<Item>, from: nat, to: nat, it: Item)
    requires Consecutive(items, from, to) && (it.tag.New? ==> it.tag.k == to)
    ensures Consecutive(items + [it], from, to + One(it))
    decreases |items|
  {
    if items == [] {
      assert [it][1..] == [];
    } else {
      assert (items + [it])[0] == items[0] && (items + [it])[1..] == items[1..] + [it];
      ConsecutiveSnoc(items[1..], if items[0].tag.New? then from + 1 else from, to, it);
    }
  }

  lemma {:induction false} ConsecutiveBound(items: seq<Item>, from: nat, to: nat)
    requires Consecutive(items, from, to)
    ensures from <= to
    ensures items != [] && items[0].tag.New? ==> items[0].tag.k == from && from < to
    decreases |items|
  {
    if items != [] {
      ConsecutiveBound(items[1..], if items[0].tag.New? then from + 1 else from, to);
    }
  }

  lemma {:induction false} LastWriteSnoc(v: nat, rs: seq<TxStateReq>, r: TxStateReq, q: nat)
    ensures LastWrite(v, rs + [r], q) == if r.TxWrite? && r.qpn == q then r.psn else LastWrite(v, rs, q)
    decreases |rs|
  {
    if rs == [] {
      assert [r][1..] == [];
    } else {
      assert (rs + [r])[0] == rs[0] && (rs + [r])[1..] == rs[1..] + [r];
      LastWriteSnoc(if rs[0].TxWrite? && rs[0].qpn == q then rs[0].psn else v, rs[1..], r, q);
    }
  }

  lemma {:induction false} PagesBeforeAppend(reqs: seq<LocalReq>, r: LocalReq, k: nat, q: nat)
    requires k <= |reqs|
    ensures PagesBefore(reqs + [r], k, q) == PagesBefore(reqs, k, q)
    decreases k
  {
    if k > 0 {
      PagesBeforeAppend(reqs, r, k - 1, q);
    }
  }

  // ---------------------------------------------------------------- growing the ledger

  ghost predicate Grows(led: Ledger, led': Ledger) {
    && |led'.at| == |led.at|
    && |led.reqs| <= |led'.reqs| && (forall k :: 0 <= k < |led.reqs| ==> led'.reqs[k] == led.reqs[k])
    && |led.nums| <= |led'.nums| && (forall k :: 0 <= k < |led.nums| ==> led'.nums[k] == led.nums[k])
    && |led.resent| <= |led'.resent| && (forall k :: 0 <= k < |led.resent| ==> led'.resent[k] == led.resent[k])
    && |led.acks| <= |led'.acks| && (forall k :: 0 <= k < |led.acks| ==> led'.acks[k] == led.acks[k])
    && |led.readEvs| <= |led'.readEvs| && (forall k :: 0 <= k < |led.readEvs| ==> led'.readEvs[k] == led.readEvs[k])
  }

  lemma AllOkGrows(led: Ledger, led': Ledger, items: seq<Item>)
    requires Grows(led, led') && AllOk(led, items)
    ensures AllOk(led', items)
  {
    forall i | 0 <= i < |items| ensures ItemOk(led', items[i]) {
      assert ItemOk(led, items[i]);
    }
  }

  lemma ItemsGrow(t: TxTrack, led': Ledger)
    requires ItemsInv(t) && Grows(t.led, led')
    ensures ItemsInv(t.(led := led'))
  {
    AllOkGrows(t.led, led', t.again);
    AllOkGrows(t.led, led', t.app);
    AllOkGrows(t.led, led', t.ibh);
    AllOkGrows(t.led, led', t.gi);
    AllOkGrows(t.led, led', t.heads);
    AllOkGrows(t.led, led', t.wire);
  }

  lemma RelsGrow(led: Ledger, led': Ledger, conn: seq<nat>, headers: seq<Header>, heads: seq<Item>,
                 packets: seq<Packet>, wire: seq<Item>)
    requires Grows(led, led') && HeadRel(led, conn, headers, heads) && WireRel(led, conn, packets, wire)
    ensures HeadRel(led', conn, headers, heads) && WireRel(led', conn, packets, wire)
  {
  }

  // ---------------------------------------------------------------- tracks

  // Requests, responses and retransmissions name queue pairs; the connection interface
  // only reads.
  predicate TxAllowed(queues: nat, a: Action) {
    match a
    case Submit(r) => SubmitOk(r, queues)
    case Resend(ev) => ev.qpn < queues
    case OfferAck(ack) => ack.qpn < queues
    case OfferRead(ev) => ev.qpn < queues && IsResponse(ev.op) && ev.validPsn
    case Setup(r) => r.IfRead?
    case _ => true
  }

  ghost function GrownLedger(led: Ledger, r: LocalReq): Ledger { led.(reqs := led.reqs + [r]) }

  ghost function HandlerTrack(tx: TxPath, t: TxTrack): TxTrack {
    if tx.retransEvents != [] then
      if t.again != [] then t.(again := t.again[1..], app := t.app + [t.again[0]]) else t
    else if tx.sq != [] then
      var r, t' := tx.sq[0], t.(seen := t.seen + [tx.sq[0]]);
      if Supported(r.op) then
        t'.(app := t.app + [Item(LocalEvent(r), New(|t.led.reqs|))], led := GrownLedger(t.led, r))
      else t'
    else t
  }

  ghost function MergerTrack(tx: TxPath, t: TxTrack): TxTrack {
    if tx.acks != [] && |tx.acks| <= |t.led.acks| then
      t.(ibh := t.ibh + [Item(AckAsEvent(tx.acks[0]), OfAck(|t.led.acks| - |tx.acks|))])
    else if tx.acks != [] then t
    else if tx.readEvents != [] && |tx.readEvents| <= |t.led.readEvs| then
      t.(ibh := t.ibh + [Item(tx.readEvents[0], OfRead(|t.led.readEvs| - |tx.readEvents|))])
    else if tx.readEvents != [] then t
    else if t.app != [] then t.(app := t.app[1..], ibh := t.ibh + [t.app[0]], merged := t.merged + One(t.app[0]))
    else t
  }

  ghost function HeaderTrack(tx: TxPath, t: TxTrack): TxTrack {
    if tx.ibhMeta != [] && tx.dstQp != [] && t.ibh != [] then
      if tx.ibhMeta[0].validPsn then t.(ibh := t.ibh[1..], heads := t.heads + [t.ibh[0]])
      else t.(ibh := t.ibh[1..], gi := [t.ibh[0]])
    else t
  }

  ghost function NumberedLedger(led: Ledger, q: nat, pages: nat): Ledger {
    if q < |led.at| then led.(nums := led.nums + [led.at[q]], at := led.at[q := led.at[q] + pages]) else led
  }

  ghost function FinishTrack(tx: TxPath, t: TxTrack): TxTrack {
    if tx.txRsp == [] || t.gi == [] then t
    else
      t.(heads := t.heads + t.gi, gi := [],
         led := if t.gi[0].tag.New? then NumberedLedger(t.led, tx.meta.qpn, tx.meta.numPkg) else t.led)
  }

  ghost function TransmitTrack(tx: TxPath, t: TxTrack): TxTrack {
    if tx.headers != [] && tx.exhMeta != [] && t.heads != [] then
      t.(heads := t.heads[1..], wire := t.wire + [t.heads[0]])
    else t
  }

  ghost function ResendTrack(t: TxTrack, ev: Retransmitter.Event): TxTrack {
    t.(again := t.again + [Item(ResendEvent(ev), Again(|t.led.resent|))],
       led := t.led.(resent := t.led.resent + [ev]))
  }

  ghost function NextTrack(n: Node, t: TxTrack, a: Action): TxTrack {
    match a
    case RunLocalReqHandler => HandlerTrack(n.tx, t)
    case RunMetaMerger => MergerTrack(n.tx, t)
    case RunGenerateIbh => if n.tx.busy then FinishTrack(n.tx, t) else HeaderTrack(n.tx, t)
    case RunTransmit => TransmitTrack(n.tx, t)
    case Resend(ev) => ResendTrack(t, ev)
    case OfferAck(ack) => t.(led := t.led.(acks := t.led.acks + [ack]))
    case OfferRead(ev) => t.(led := t.led.(readEvs := t.led.readEvs + [ev]))
    case _ => t
  }

  // ---------------------------------------------------------------- the shadows, step by step

  lemma TakeShadow(t: TxTrack, r: LocalReq)
    requires ItemsInv(t) && OrderInv(t) && r.qpn < |t.led.at|
    ensures
      var t' := t.(app := t.app + [Item(LocalEvent(r), New(|t.led.reqs|))], led := GrownLedger(t.led, r));
      ItemsInv(t') && OrderInv(t')
  {
    var led' := GrownLedger(t.led, r);
    ItemsGrow(t, led');
    ConsecutiveSnoc(t.app, t.merged, |t.led.reqs|, Item(LocalEvent(r), New(|t.led.reqs|)));
    assert ItemOk(led', Item(LocalEvent(r), New(|t.led.reqs|)));
  }

  lemma HandlerShadow(tx: TxPath, t: TxTrack)
    requires ItemsInv(t) && OrderInv(t) && AgainRel(tx.retransEvents, t.again)
    requires tx.sq != [] ==> SubmitOk(tx.sq[0], |t.led.at|)
    ensures ItemsInv(HandlerTrack(tx, t)) && OrderInv(HandlerTrack(tx, t))
  {
    if tx.retransEvents != [] {
      ConsecutiveSnoc(t.app, t.merged, |t.led.reqs|, t.again[0]);
    } else if tx.sq != [] && Supported(tx.sq[0].op) {
      TakeShadow(t, tx.sq[0]);
    }
  }

  lemma HandlerFifos(tx: TxPath, t: TxTrack, conn: seq<nat>)
    requires FifoInv(tx, t, conn)
    ensures FifoInv(LocalReqHandler(tx), HandlerTrack(tx, t), conn)
  {
    var t' := HandlerTrack(tx, t);
    hide HeadRel, WireRel, IbhRel, GiRel, ExhRel, ConnRel;
    RelsGrow(t.led, t'.led, conn, tx.headers, t.heads, tx.wire, t.wire);
  }

  lemma MergerShadow(tx: TxPath, t: TxTrack)
    requires ItemsInv(t) && OrderInv(t) && InputsOk(tx.sq, tx.acks, tx.readEvents, |t.led.at|)
    requires RepliesRel(t.led, tx.acks, tx.readEvents)
    ensures ItemsInv(MergerTrack(tx, t)) && OrderInv(MergerTrack(tx, t))
  {
    var t' := MergerTrack(tx, t);
    if t' != t {
      var it := t'.ibh[|t.ibh|];
      ConsecutiveBound(t.app, t.merged, |t.led.reqs|);
      ConsecutiveSnoc(t.gi + t.ibh, |t.led.nums|, t.merged, it);
      assert t.gi + (t.ibh + [it]) == (t.gi + t.ibh) + [it];
    }
  }

  lemma ExhSnoc(exhMeta: seq<Event>, items: seq<Item>, it: Item)
    requires ExhRel(exhMeta, items)
    ensures ExhRel(exhMeta + [it.ev], items + [it])
  {
  }

  lemma ConnSnoc(connReq: seq<nat>, dstQp: seq<nat>, ibhMeta: seq<IbhMeta>, conn: seq<nat>, m: IbhMeta)
    requires ConnRel(connReq, dstQp, ibhMeta, conn)
    ensures ConnRel(connReq + [m.qpn], dstQp, ibhMeta + [m], conn)
  {
  }

  lemma MergerFifos(tx: TxPath, t: TxTrack, conn: seq<nat>)
    requires FifoInv(tx, t, conn)
    ensures FifoInv(MetaMerger(tx), MergerTrack(tx, t), conn)
  {
    hide HeadRel, WireRel, GiRel, ExhRel, ConnRel, AgainRel;
    var tx', t' := MetaMerger(tx), MergerTrack(tx, t);
    if |t'.ibh| > |t.ibh| {
      var it, m := t'.ibh[|t.ibh|], tx'.ibhMeta[|tx.ibhMeta|];
      ExhSnoc(tx.exhMeta, t.heads + t.gi + t.ibh, it);
      assert t.heads + t.gi + t'.ibh == (t.heads + t.gi + t.ibh) + [it];
      ConnSnoc(tx.connReq, tx.dstQp, tx.ibhMeta, conn, m);
      assert MetaOk(m, it);
    }
  }

  lemma StartShadow(tx: TxPath, t: TxTrack)
    requires ItemsInv(t) && OrderInv(t) && t.gi == [] && IbhRel(tx.ibhMeta, t.ibh)
    ensures ItemsInv(HeaderTrack(tx, t)) && OrderInv(HeaderTrack(tx, t))
  {
    if tx.ibhMeta != [] && tx.dstQp != [] {
      assert MetaOk(tx.ibhMeta[0], t.ibh[0]) && ItemOk(t.led, t.ibh[0]);
      StartOrder(t, t.ibh[0]);
    }
  }

  lemma StartOrder(t: TxTrack, it: Item)
    requires OrderInv(t) && t.gi == [] && t.ibh != [] && it == t.ibh[0]
    ensures OrderInv(t.(ibh := t.ibh[1..], gi := [it]))
    ensures !it.tag.New? ==> OrderInv(t.(ibh := t.ibh[1..], heads := t.heads + [it]))
  {
    assert t.gi + t.ibh == t.ibh && [it] + t.ibh[1..] == t.ibh && t.gi + t.ibh[1..] == t.ibh[1..];
    if !it.tag.New? {
      ConsecutiveSnoc(t.wire + t.heads, 0, |t.led.nums|, it);
      assert t.wire + (t.heads + [it]) == (t.wire + t.heads) + [it];
    }
  }

  lemma StartFifos(tx: TxPath, t: TxTrack, conn: seq<nat>)
    requires FifoInv(tx, t, conn) && !tx.busy && AllOk(t.led, t.ibh)
    ensures FifoInv(StartHeader(tx), HeaderTrack(tx, t), conn)
  {
    if tx.ibhMeta != [] && tx.dstQp != [] {
      var it, t' := t.ibh[0], HeaderTrack(tx, t);
      assert MetaOk(tx.ibhMeta[0], it) && ItemOk(t.led, it);
      assert t'.heads + t'.gi + t'.ibh == t.heads + t.gi + t.ibh;
    }
  }

  lemma ConnFifos(tx: TxPath, t: TxTrack, conn: seq<nat>)
    requires FifoInv(tx, t, conn)
    ensures FifoInv(ConnTable(tx, conn), t, conn)
  {
  }

  lemma PairsMerge(tx: TxPath, t: TxTrack)
    requires PairInv(tx, t)
    ensures PairInv(MergeRetransRequest(tx), t)
  {
  }

  lemma PairedGrows(led: Ledger, led': Ledger, seen: seq<LocalReq>, entries: seq<Retransmitter.InsertReq>,
                    metas: seq<RetransMeta>, addrLens: seq<AddrLen>)
    requires Paired(led, seen, entries, metas, addrLens) && Grows(led, led') && led'.nums == led.nums
    ensures Paired(led', seen, entries, metas, addrLens)
  {
    forall k | 0 <= k < |led.nums| ensures MetaFor(led', k) == MetaFor(led, k) {
    }
  }

  lemma PairedTakes(led: Ledger, seen: seq<LocalReq>, entries: seq<Retransmitter.InsertReq>,
                    metas: seq<RetransMeta>, addrLens: seq<AddrLen>, r: LocalReq)
    requires Paired(led, seen, entries, metas, addrLens)
    ensures Paired(led, seen + [r], entries, metas, addrLens + [AddrLenOf(r)])
  {
  }

  lemma HandlerPairs(tx: TxPath, t: TxTrack)
    requires PairInv(tx, t)
    ensures PairInv(LocalReqHandler(tx), HandlerTrack(tx, t))
  {
    if tx.retransEvents == [] && tx.sq != [] {
      var r, t' := tx.sq[0], HandlerTrack(tx, t);
      assert t'.seen[..|t.seen|] == t.seen;
      PairedTakes(t.led, t.seen, tx.entries, tx.metas, tx.addrLens, r);
      PairedGrows(t.led, t'.led, t'.seen, tx.entries, tx.metas, LocalReqHandler(tx).addrLens);
    }
  }

  lemma StartTable(table: seq<Row>, tx: TxPath, t: TxTrack)
    requires TableInv(table, tx, t) && !tx.busy && IbhRel(tx.ibhMeta, t.ibh) && AllOk(t.led, t.ibh)
    ensures TableInv(table, StartHeader(tx), HeaderTrack(tx, t))
  {
    var tx' := StartHeader(tx);
    if tx'.busy {
      var r := TxRead(tx.ibhMeta[0].qpn);
      assert MetaOk(tx.ibhMeta[0], t.ibh[0]) && ItemOk(t.led, t.ibh[0]);
      assert tx'.txReq[..|tx'.txReq| - 1] == tx.txReq;
      forall q | 0 <= q < |table| ensures LastWrite(table[q].reqNext, tx'.txReq, q) == t.led.at[q] % PSN_MOD {
        LastWriteSnoc(table[q].reqNext, tx.txReq, r, q);
      }
    }
  }

  lemma TransmitShadow(tx: TxPath, t: TxTrack)
    requires ItemsInv(t) && OrderInv(t)
    ensures ItemsInv(TransmitTrack(tx, t)) && OrderInv(TransmitTrack(tx, t))
  {
    if t.heads != [] {
      assert (t.wire + [t.heads[0]]) + t.heads[1..] == t.wire + t.heads;
    }
  }

  lemma TransmitFifos(tx: TxPath, t: TxTrack, conn: seq<nat>)
    requires FifoInv(tx, t, conn)
    ensures FifoInv(Transmit(tx), TransmitTrack(tx, t), conn)
  {
    if tx.headers != [] {
      assert t.heads[1..] + t.gi + t.ibh == (t.heads + t.gi + t.ibh)[1..];
      assert (t.heads + t.gi + t.ibh)[0] == t.heads[0];
    }
  }

  // ---------------------------------------------------------------- numbering a request

  // What generate_ibh holds while it waits for a PSN is a new request or an
  // acknowledgement, and the new request is the next one without a number.
  lemma InProgress(tx: TxPath, t: TxTrack, conn: seq<nat>)
    requires tx.busy && GiRel(tx.busy, tx.meta, tx.dst, conn, t.gi) && AllOk(t.led, t.gi)
    requires Consecutive(t.gi + t.ibh, |t.led.nums|, t.merged) && t.merged <= |t.led.reqs|
    requires forall k :: 0 <= k < |t.led.reqs| ==> Supported(t.led.reqs[k].op)
    ensures |t.gi| == 1 && tx.meta.qpn < |t.led.at| && tx.meta.op == t.gi[0].ev.op && tx.meta.qpn == t.gi[0].ev.qpn
    ensures t.gi[0].tag.New? <==> tx.meta.op != Ack
    ensures t.gi[0].tag.New? ==>
              var k := |t.led.nums|;
              t.gi[0].tag.k == k < |t.led.reqs| && t.gi[0].ev == LocalEvent(t.led.reqs[k]) && tx.meta.numPkg == Pages(t.led.reqs[k])
    ensures !t.gi[0].tag.New? ==> t.gi[0].tag.OfAck? && !t.gi[0].ev.validPsn
  {
    assert ItemOk(t.led, t.gi[0]);
    assert (t.gi + t.ibh)[0] == t.gi[0];
    ConsecutiveBound(t.gi + t.ibh, |t.led.nums|, t.merged);
  }

  lemma FinishOrder(t: TxTrack, led': Ledger)
    requires OrderInv(t) && |t.gi| == 1 && |led'.nums| == |t.led.nums| + One(t.gi[0]) && |led'.reqs| == |t.led.reqs|
    requires t.gi[0].tag.New? ==> t.gi[0].tag.k == |t.led.nums|
    ensures OrderInv(t.(heads := t.heads + t.gi, gi := [], led := led'))
  {
    var it := t.gi[0];
    assert t.gi == [it];
    ConsecutiveSnoc(t.wire + t.heads, 0, |t.led.nums|, it);
    assert t.wire + (t.heads + [it]) == (t.wire + t.heads) + [it];
    assert (t.gi + t.ibh)[0] == it && (t.gi + t.ibh)[1..] == t.ibh && [] + t.ibh == t.ibh;
  }

  lemma FinishShadow(tx: TxPath, t: TxTrack, conn: seq<nat>)
    requires tx.busy && tx.txRsp != [] && ItemsInv(t) && OrderInv(t)
    requires GiRel(tx.busy, tx.meta, tx.dst, conn, t.gi) && t.merged <= |t.led.reqs|
    requires forall k :: 0 <= k < |t.led.reqs| ==> Supported(t.led.reqs[k].op)
    ensures ItemsInv(FinishTrack(tx, t)) && OrderInv(FinishTrack(tx, t)) && Grows(t.led, FinishTrack(tx, t).led)
  {
    InProgress(tx, t, conn);
    var t' := FinishTrack(tx, t);
    FinishOrder(t, t'.led);
    ItemsGrow(t, t'.led);
  }

  // The header it writes carries the right operation, destination and PSN.
  lemma FinishHeads(tx: TxPath, t: TxTrack, conn: seq<nat>)
    requires tx.busy && tx.txRsp != [] && |t.gi| == 1 && GiRel(tx.busy, tx.meta, tx.dst, conn, t.gi)
    requires HeadRel(t.led, conn, tx.headers, t.heads) && WireRel(t.led, conn, tx.wire, t.wire)
    requires tx.meta.op == t.gi[0].ev.op && tx.meta.qpn == t.gi[0].ev.qpn && !t.gi[0].tag.Again?
    requires t.gi[0].tag.New? <==> tx.meta.op != Ack
    requires t.gi[0].tag.New? ==> t.gi[0].tag.k == |t.led.nums|
    requires !t.gi[0].tag.New? ==> t.gi[0].tag.OfAck? && !t.gi[0].ev.validPsn
    requires tx.meta.qpn < |t.led.at| && tx.txRsp[0].reqNext == t.led.at[tx.meta.qpn] % PSN_MOD
    ensures HeadRel(FinishTrack(tx, t).led, conn, FinishHeader(tx).headers, FinishTrack(tx, t).heads)
    ensures WireRel(FinishTrack(tx, t).led, conn, tx.wire, t.wire)
  {
    var tx', t' := FinishHeader(tx), FinishTrack(tx, t);
    RelsGrow(t.led, t'.led, conn, tx.headers, t.heads, tx.wire, t.wire);
    assert HeaderOk(t'.led, conn, tx'.headers[|tx.headers|], t.gi[0]);
  }

  lemma FinishFifos(tx: TxPath, t: TxTrack, conn: seq<nat>)
    requires tx.busy && tx.txRsp != [] && FifoInv(tx, t, conn) && AllOk(t.led, t.gi)
    requires Consecutive(t.gi + t.ibh, |t.led.nums|, t.merged) && t.merged <= |t.led.reqs|
    requires forall k :: 0 <= k < |t.led.reqs| ==> Supported(t.led.reqs[k].op)
    requires tx.meta.qpn < |t.led.at| && tx.txRsp[0].reqNext == t.led.at[tx.meta.qpn] % PSN_MOD
    ensures FifoInv(FinishHeader(tx), FinishTrack(tx, t), conn)
  {
    InProgress(tx, t, conn);
    FinishHeads(tx, t, conn);
    var t' := FinishTrack(tx, t);
    assert t'.heads + t'.gi + t'.ibh == t.heads + t.gi + t.ibh;
  }

  lemma FinishTable(table: seq<Row>, tx: TxPath, t: TxTrack)
    requires tx.busy && tx.txRsp != [] && TableInv(table, tx, t) && |t.gi| == 1
    requires t.gi[0].tag.New? <==> tx.meta.op != Ack
    ensures TableInv(table, FinishHeader(tx), FinishTrack(tx, t))
    ensures tx.txRsp[0].reqNext == t.led.at[tx.meta.qpn] % PSN_MOD
  {
    var q, tx' := tx.meta.qpn, FinishHeader(tx);
    assert LastWrite(table[q].reqNext, [], q) == t.led.at[q] % PSN_MOD;
    if tx.meta.op != Ack {
      AddMod(t.led.at[q], tx.meta.numPkg);
      forall p | 0 <= p < |table|
        ensures LastWrite(table[p].reqNext, tx'.txReq, p) == FinishTrack(tx, t).led.at[p] % PSN_MOD
      {
        LastWriteSnoc(table[p].reqNext, [], TxWrite(q, (tx.txRsp[0].reqNext + tx.meta.numPkg) % PSN_MOD), p);
        assert [] + [TxWrite(q, (tx.txRsp[0].reqNext + tx.meta.numPkg) % PSN_MOD)] == tx'.txReq;
      }
    }
  }

  lemma FinishPairs(tx: TxPath, t: TxTrack)
    requires tx.busy && tx.txRsp != [] && PairInv(tx, t) && |t.gi| == 1 && tx.meta.qpn < |t.led.at|
    requires t.gi[0].tag.New? <==> tx.meta.op != Ack
    requires t.gi[0].tag.New? ==>
               var k := |t.led.nums|;
               k < |t.led.reqs| && tx.meta.qpn == t.led.reqs[k].qpn && tx.meta.op == t.led.reqs[k].op
    requires tx.txRsp[0].reqNext == t.led.at[tx.meta.qpn] % PSN_MOD
    ensures PairInv(FinishHeader(tx), FinishTrack(tx, t))
  {
    var led' := FinishTrack(tx, t).led;
    forall k | 0 <= k < |t.led.nums| ensures MetaFor(led', k) == MetaFor(t.led, k) {
    }
  }

  lemma FinishCounts(led: Ledger, base: seq<nat>, q: nat, pages: nat)
    requires Counted(led, base) && |led.nums| < |led.reqs|
    requires q == led.reqs[|led.nums|].qpn && pages == Pages(led.reqs[|led.nums|])
    ensures Counted(NumberedLedger(led, q, pages), base)
  {
    var led', m := NumberedLedger(led, q, pages), |led.nums|;
    forall p | 0 <= p < |base| ensures led'.at[p] == base[p] + PagesBefore(led.reqs, m + 1, p) {
      assert led.at[p] == base[p] + PagesBefore(led.reqs, m, p);
    }
    forall k | 0 <= k < m + 1
      ensures led'.nums[k] == base[led.reqs[k].qpn] + PagesBefore(led.reqs, k, led.reqs[k].qpn)
    {
      if k == m { assert led.at[q] == base[q] + PagesBefore(led.reqs, m, q); }
    }
  }

  lemma GrowCounts(led: Ledger, base: seq<nat>, r: LocalReq)
    requires Counted(led, base) && r.qpn < |base| && Supported(r.op)
    ensures Counted(GrownLedger(led, r), base)
  {
    forall q | 0 <= q < |base|
      ensures PagesBefore(led.reqs + [r], |led.nums|, q) == PagesBefore(led.reqs, |led.nums|, q)
    {
      PagesBeforeAppend(led.reqs, r, |led.nums|, q);
    }
    forall k | 0 <= k < |led.nums|
      ensures PagesBefore(led.reqs + [r], k, led.reqs[k].qpn) == PagesBefore(led.reqs, k, led.reqs[k].qpn)
    {
      PagesBeforeAppend(led.reqs, r, k, led.reqs[k].qpn);
    }
  }

  // ---------------------------------------------------------------- the state table

  lemma ServeTxTable(n: Node, t: TxTrack)
    requires TableInv(n.table, n.tx, t) && n.tx.txReq != []
    ensures TableInv(ServeTx(n).table, ServeTx(n).tx, t)
  {
    var n', rs := ServeTx(n), n.tx.txReq;
    if rs[0].TxWrite? {
      forall q | 0 <= q < |n.table| ensures LastWrite(n'.table[q].reqNext, rs[1..], q) == t.led.at[q] % PSN_MOD {
        assert LastWrite(n.table[q].reqNext, rs, q) == t.led.at[q] % PSN_MOD;
      }
      if n.tx.busy { assert rs[1..][..|rs| - 2] == rs[..|rs| - 1][1..]; }
    } else {
      assert |rs| == 1;
      forall q | 0 <= q < |n.table| ensures LastWrite(n.table[q].reqNext, rs[1..], q) == t.led.at[q] % PSN_MOD {
        assert LastWrite(n.table[q].reqNext, rs, q) == t.led.at[q] % PSN_MOD;
      }
    }
  }

  lemma ServeRxTable(n: Node, t: TxTrack)
    requires TableInv(n.table, n.tx, t) && n.rx.rxReq != []
    ensures TableInv(ServeRx(n).table, n.tx, t)
  {
    var n' := ServeRx(n);
    forall q | 0 <= q < |n.table| ensures LastWrite(n'.table[q].reqNext, n.tx.txReq, q) == t.led.at[q] % PSN_MOD {
      assert LastWrite(n.table[q].reqNext, n.tx.txReq, q) == t.led.at[q] % PSN_MOD;
      assert n'.table[q].reqNext == n.table[q].reqNext;
    }
  }

  // ---------------------------------------------------------------- each step keeps the invariant

  lemma HandlerKeeps(n: Node, t: TxTrack, base: seq<nat>)
    requires TxInv(n, t, base)
    ensures TxInv(n.(tx := LocalReqHandler(n.tx)), HandlerTrack(n.tx, t), base)
  {
    HandlerShadow(n.tx, t);
    HandlerFifos(n.tx, t, n.conn);
    HandlerPairs(n.tx, t);
    if n.tx.retransEvents == [] && n.tx.sq != [] && Supported(n.tx.sq[0].op) {
      GrowCounts(t.led, base, n.tx.sq[0]);
    }
  }

  lemma MergerKeeps(n: Node, t: TxTrack, base: seq<nat>)
    requires TxInv(n, t, base)
    ensures TxInv(n.(tx := MetaMerger(n.tx)), MergerTrack(n.tx, t), base)
  {
    MergerShadow(n.tx, t);
    MergerFifos(n.tx, t, n.conn);
  }

  lemma ConnKeeps(n: Node, t: TxTrack, base: seq<nat>)
    requires TxInv(n, t, base)
    ensures TxInv(n.(tx := ConnTable(n.tx, n.conn)), t, base)
  {
    ConnFifos(n.tx, t, n.conn);
  }

  lemma StartKeeps(n: Node, t: TxTrack, base: seq<nat>)
    requires TxInv(n, t, base) && !n.tx.busy
    ensures TxInv(n.(tx := StartHeader(n.tx)), HeaderTrack(n.tx, t), base)
  {
    StartShadow(n.tx, t);
    StartFifos(n.tx, t, n.conn);
    StartTable(n.table, n.tx, t);
  }

  // What generate_ibh needs to know when a PSN comes back.
  lemma FinishFacts(n: Node, t: TxTrack, base: seq<nat>)
    requires TxInv(n, t, base) && n.tx.busy && n.tx.txRsp != []
    ensures t.merged <= |t.led.reqs|
    ensures |t.gi| == 1 && n.tx.meta.qpn < |t.led.at|
    ensures t.gi[0].tag.New? <==> n.tx.meta.op != Ack
    ensures t.gi[0].tag.New? ==>
              var k := |t.led.nums|;
              && k < |t.led.reqs| && n.tx.meta.qpn == t.led.reqs[k].qpn && n.tx.meta.op == t.led.reqs[k].op
              && n.tx.meta.numPkg == Pages(t.led.reqs[k])
  {
    ConsecutiveBound(t.app, t.merged, |t.led.reqs|);
    ConsecutiveBound(t.gi + t.ibh, |t.led.nums|, t.merged);
    InProgress(n.tx, t, n.conn);
    assert (t.gi + t.ibh)[0] == t.gi[0];
  }

  lemma FinishKeeps(n: Node, t: TxTrack, base: seq<nat>)
    requires TxInv(n, t, base) && n.tx.busy && n.tx.txRsp != []
    ensures TxInv(n.(tx := FinishHeader(n.tx)), FinishTrack(n.tx, t), base)
  {
    FinishFacts(n, t, base);
    var tx', t' := FinishHeader(n.tx), FinishTrack(n.tx, t);
    assert ItemsInv(t') && OrderInv(t') by { FinishShadow(n.tx, t, n.conn); }
    assert n.tx.txRsp[0].reqNext == t.led.at[n.tx.meta.qpn] % PSN_MOD && TableInv(n.table, tx', t') by {
      FinishTable(n.table, n.tx, t);
    }
    assert FifoInv(tx', t', n.conn) by { FinishFifos(n.tx, t, n.conn); }
    assert PairInv(tx', t') by { FinishPairs(n.tx, t); }
    assert Counted(t'.led, base) by {
      if t.gi[0].tag.New? { FinishCounts(t.led, base, n.tx.meta.qpn, n.tx.meta.numPkg); }
    }
  }

  lemma TransmitKeeps(n: Node, t: TxTrack, base: seq<nat>)
    requires TxInv(n, t, base)
    ensures TxInv(n.(tx := Transmit(n.tx)), TransmitTrack(n.tx, t), base)
  {
    TransmitShadow(n.tx, t);
    TransmitFifos(n.tx, t, n.conn);
  }

  lemma MergeRetransKeeps(n: Node, t: TxTrack, base: seq<nat>)
    requires TxInv(n, t, base)
    ensures TxInv(n.(tx := MergeRetransRequest(n.tx)), t, base)
  {
    PairsMerge(n.tx, t);
  }

  lemma ServeRxKeeps(n: Node, t: TxTrack, base: seq<nat>)
    requires TxInv(n, t, base) && n.rx.rxReq != []
    ensures TxInv(ServeRx(n), t, base)
  {
    ServeRxTable(n, t);
  }

  lemma ServeTxKeeps(n: Node, t: TxTrack, base: seq<nat>)
    requires TxInv(n, t, base) && n.tx.txReq != []
    ensures TxInv(ServeTx(n), t, base)
  {
    ServeTxTable(n, t);
    assert FifoInv(ServeTx(n).tx, t, ServeTx(n).conn);
  }

  lemma ServeIfKeeps(n: Node, t: TxTrack, base: seq<nat>)
    requires TxInv(n, t, base) && n.ifReq != []
    ensures TxInv(ServeIf(n), t, base)
  {
    assert n.ifReq[0].IfRead?;
    assert NoSetups(ServeIf(n).ifReq);
  }

  lemma StateTableKeeps(n: Node, t: TxTrack, base: seq<nat>)
    requires TxInv(n, t, base)
    ensures TxInv(StateTable(n), t, base)
  {
    if n.rx.rxReq != [] {
      ServeRxKeeps(n, t, base);
    } else if n.tx.txReq != [] {
      ServeTxKeeps(n, t, base);
    } else if n.ifReq != [] {
      ServeIfKeeps(n, t, base);
    }
  }

  lemma ResendShadow(t: TxTrack, ev: Retransmitter.Event)
    requires ItemsInv(t) && OrderInv(t) && ev.qpn < |t.led.at|
    ensures ItemsInv(ResendTrack(t, ev)) && OrderInv(ResendTrack(t, ev)) && Grows(t.led, ResendTrack(t, ev).led)
  {
    var t' := ResendTrack(t, ev);
    ItemsGrow(t, t'.led);
    assert ItemOk(t'.led, t'.again[|t.again|]);
  }

  lemma ResendFifos(tx: TxPath, t: TxTrack, conn: seq<nat>, ev: Retransmitter.Event)
    requires FifoInv(tx, t, conn) && Grows(t.led, ResendTrack(t, ev).led)
    ensures FifoInv(tx.(retransEvents := tx.retransEvents + [ev]), ResendTrack(t, ev), conn)
  {
    RelsGrow(t.led, ResendTrack(t, ev).led, conn, tx.headers, t.heads, tx.wire, t.wire);
  }

  // Neither numbers nor pairing nor the next PSNs look at the retransmissions.
  lemma ResendRest(table: seq<Row>, tx: TxPath, t: TxTrack, base: seq<nat>, ev: Retransmitter.Event)
    requires TableInv(table, tx, t) && PairInv(tx, t) && Counted(t.led, base)
    ensures
      var tx', t' := tx.(retransEvents := tx.retransEvents + [ev]), ResendTrack(t, ev);
      TableInv(table, tx', t') && PairInv(tx', t') && Counted(t'.led, base)
  {
    forall k | 0 <= k < |t.led.nums| && k < |t.led.reqs|
      ensures MetaFor(ResendTrack(t, ev).led, k) == MetaFor(t.led, k)
    {
    }
  }

  lemma ResendKeeps(n: Node, t: TxTrack, base: seq<nat>, ev: Retransmitter.Event)
    requires TxInv(n, t, base) && TxAllowed(|n.table|, Resend(ev))
    ensures TxInv(Next(n, Resend(ev)), NextTrack(n, t, Resend(ev)), base)
  {
    assert |t.led.at| == |n.table|;
    hide ItemsInv, OrderInv, FifoInv, TableInv, PairInv, Counted;
    ResendShadow(t, ev);
    ResendFifos(n.tx, t, n.conn, ev);
    ResendRest(n.table, n.tx, t, base, ev);
  }

  lemma InputsKeep(n: Node, t: TxTrack, base: seq<nat>, sq: seq<LocalReq>, led': Ledger, acks: seq<AckEvent>, evs: seq<Event>)
    requires TxInv(n, t, base) && InputsOk(sq, acks, evs, |t.led.at|) && RepliesRel(led', acks, evs)
    requires led' == t.led.(acks := led'.acks, readEvs := led'.readEvs) && Grows(t.led, led')
    ensures TxInv(n.(tx := n.tx.(sq := sq, acks := acks, readEvents := evs)), t.(led := led'), base)
  {
    var t' := t.(led := led');
    ItemsGrow(t, led');
    RelsGrow(t.led, led', n.conn, n.tx.headers, t.heads, n.tx.wire, t.wire);
    SameNumbers(n.tx, t, led', base);
    hide ItemsInv, AllOk, HeadRel, WireRel, PairInv, Counted, Grows;
  }

  // Neither numbers nor pairing look at the replies.
  lemma SameNumbers(tx: TxPath, t: TxTrack, led': Ledger, base: seq<nat>)
    requires PairInv(tx, t) && Counted(t.led, base) && led' == t.led.(acks := led'.acks, readEvs := led'.readEvs)
    ensures PairInv(tx, t.(led := led')) && Counted(led', base)
  {
    forall k | 0 <= k < |t.led.nums| && k < |t.led.reqs| ensures MetaFor(led', k) == MetaFor(t.led, k) {
    }
  }

  lemma InputsAre(n: Node, t: TxTrack, base: seq<nat>)
    requires TxInv(n, t, base)
    ensures InputsOk(n.tx.sq, n.tx.acks, n.tx.readEvents, |t.led.at|) && |t.led.at| == |n.table|
    ensures RepliesRel(t.led, n.tx.acks, n.tx.readEvents)
  {
  }

  lemma OfferedOk(n: Node, t: TxTrack, a: Action)
    requires InputsOk(n.tx.sq, n.tx.acks, n.tx.readEvents, |t.led.at|) && |t.led.at| == |n.table|
    requires RepliesRel(t.led, n.tx.acks, n.tx.readEvents)
    requires TxAllowed(|n.table|, a) && (a.Submit? || a.OfferAck? || a.OfferRead?)
    ensures InputsOk(Next(n, a).tx.sq, Next(n, a).tx.acks, Next(n, a).tx.readEvents, |t.led.at|)
    ensures
      var led' := NextTrack(n, t, a).led;
      && RepliesRel(led', Next(n, a).tx.acks, Next(n, a).tx.readEvents) && Grows(t.led, led')
      && led' == t.led.(acks := led'.acks, readEvs := led'.readEvs) && NextTrack(n, t, a) == t.(led := led')
  {
  }

  lemma OfferIs(n: Node, a: Action)
    requires a.Submit? || a.OfferAck? || a.OfferRead?
    ensures
      var tx' := Next(n, a).tx;
      Next(n, a) == n.(tx := n.tx.(sq := tx'.sq, acks := tx'.acks, readEvents := tx'.readEvents))
  {
  }

  lemma OfferKeeps(n: Node, t: TxTrack, base: seq<nat>, a: Action)
    requires TxInv(n, t, base) && TxAllowed(|n.table|, a) && (a.Submit? || a.OfferAck? || a.OfferRead?)
    ensures TxInv(Next(n, a), NextTrack(n, t, a), base)
  {
    var tx' := Next(n, a).tx;
    InputsAre(n, t, base);
    OfferedOk(n, t, a);
    OfferIs(n, a);
    hide TxInv, TxAllowed, InputsOk, RepliesRel, Grows, Next, NextTrack;
    InputsKeep(n, t, base, tx'.sq, NextTrack(n, t, a).led, tx'.acks, tx'.readEvents);
  }

  lemma SetupKeeps(n: Node, t: TxTrack, base: seq<nat>, r: IfStateReq)
    requires TxInv(n, t, base) && r.IfRead?
    ensures TxInv(Next(n, Setup(r)), t, base)
  {
    assert NoSetups(n.ifReq + [r]);
  }

  lemma RxKeeps(n: Node, t: TxTrack, base: seq<nat>, rx: RxPath)
    requires TxInv(n, t, base)
    ensures TxInv(n.(rx := rx), t, base)
  {
  }

  lemma GenerateKeeps(n: Node, t: TxTrack, base: seq<nat>)
    requires TxInv(n, t, base)
    ensures TxInv(Next(n, RunGenerateIbh), NextTrack(n, t, RunGenerateIbh), base)
  {
    if !n.tx.busy { StartKeeps(n, t, base); } else if n.tx.txRsp != [] { FinishKeeps(n, t, base); }
  }

  predicate FromOutside(a: Action) {
    a.Submit? || a.Resend? || a.OfferAck? || a.OfferRead? || a.Arrive? || a.Setup?
  }

  lemma InputKeeps(n: Node, t: TxTrack, base: seq<nat>, a: Action)
    requires TxInv(n, t, base) && TxAllowed(|n.table|, a) && FromOutside(a)
    ensures TxInv(Next(n, a), NextTrack(n, t, a), base)
  {
    hide TxInv;
    match a {
      case Resend(ev) => ResendKeeps(n, t, base, ev);
      case Setup(r) => SetupKeeps(n, t, base, r);
      case Arrive(p) => RxKeeps(n, t, base, n.rx.(arrivals := n.rx.arrivals + [p]));
      case _ => OfferKeeps(n, t, base, a);
    }
  }

  lemma StepKeeps(n: Node, t: TxTrack, base: seq<nat>, a: Action)
    requires TxInv(n, t, base) && TxAllowed(|n.table|, a)
    ensures TxInv(Next(n, a), NextTrack(n, t, a), base)
  {
    if FromOutside(a) {
      InputKeeps(n, t, base, a);
    } else {
      match a {
        case RunLocalReqHandler => HandlerKeeps(n, t, base);
        case RunMetaMerger => MergerKeeps(n, t, base);
        case RunConnTable => ConnKeeps(n, t, base);
        case RunGenerateIbh => GenerateKeeps(n, t, base);
        case RunMergeRetrans => MergeRetransKeeps(n, t, base);
        case RunTransmit => TransmitKeeps(n, t, base);
        case RunStateTable => StateTableKeeps(n, t, base);
        case RunRxIbhFsm => RxKeeps(n, t, base, RxIbhFsm(n.rx));
      }
    }
  }
}
