// What the transmit path puts into the retransmitter and on the wire, in every run.
module RequestPathTheorems {
  import opened InfiniBand
  import Retransmitter
  import opened RequestPath
  import opened RequestPathProof

  function BaseOf(table: seq<Row>): seq<nat> {
    seq(|table|, q requires 0 <= q < |table| => table[q].reqNext)
  }

  ghost function StartTrack(n: Node): TxTrack {
    TxTrack(Ledger([], [], BaseOf(n.table), [], [], []), [], 0, [], [], [], [], [], [])
  }

  ghost function TrackOf(n: Node, actions: seq<Action>): TxTrack
    decreases |actions|
  {
    if actions == [] then StartTrack(n)
    else
      var before := actions[..|actions| - 1];
      NextTrack(Run(n, before), TrackOf(n, before), actions[|actions| - 1])
  }

  predicate AllTxAllowed(actions: seq<Action>, queues: nat) {
    forall k :: 0 <= k < |actions| ==> TxAllowed(queues, actions[k])
  }

  lemma StartHolds(n: Node)
    requires Initial(n)
    ensures TxInv(n, StartTrack(n), BaseOf(n.table))
  {
    var t := StartTrack(n);
    forall q | 0 <= q < |n.table| ensures LastWrite(n.table[q].reqNext, n.tx.txReq, q) == t.led.at[q] % PSN_MOD {
      assert IsSetup(n.table[q]);
    }
    assert [] + [] == t.wire + t.heads == t.gi + t.ibh == t.app;
  }

  lemma {:induction false} RunKeeps(n: Node, actions: seq<Action>)
    requires Initial(n) && AllTxAllowed(actions, |n.table|)
    ensures TxInv(Run(n, actions), TrackOf(n, actions), BaseOf(n.table))
    decreases |actions|
  {
    if actions == [] {
      StartHolds(n);
    } else {
      var before := actions[..|actions| - 1];
      RunKeeps(n, before);
      ConnKept(n, before);
      StepKeeps(Run(n, before), TrackOf(n, before), BaseOf(n.table), actions[|actions| - 1]);
    }
  }

  // ---------------------------------------------------------------- requests are taken in order

  function SubmittedBy(a: Action): seq<LocalReq> { if a.Submit? then [a.req] else [] }

  function Submitted(actions: seq<Action>): seq<LocalReq>
    decreases |actions|
  {
    if actions == [] then [] else Submitted(actions[..|actions| - 1]) + SubmittedBy(actions[|actions| - 1])
  }

  lemma StepTakes(n: Node, t: TxTrack, a: Action)
    ensures NextTrack(n, t, a).seen + Next(n, a).tx.sq == t.seen + n.tx.sq + SubmittedBy(a)
  {
    if a.RunLocalReqHandler? && n.tx.retransEvents == [] && n.tx.sq != [] {
      assert n.tx.sq == [n.tx.sq[0]] + n.tx.sq[1..];
    } else if a.Submit? {
      assert t.seen + (n.tx.sq + [a.req]) == t.seen + n.tx.sq + [a.req];
    } else {
      assert NextTrack(n, t, a).seen == t.seen && Next(n, a).tx.sq == n.tx.sq;
    }
  }

  lemma {:induction false} TakenInOrder(n: Node, actions: seq<Action>)
    requires Initial(n)
    ensures TrackOf(n, actions).seen + Run(n, actions).tx.sq == Submitted(actions)
    decreases |actions|
  {
    if actions != [] {
      var before := actions[..|actions| - 1];
      TakenInOrder(n, before);
      StepTakes(Run(n, before), TrackOf(n, before), actions[|actions| - 1]);
    }
  }

  // ---------------------------------------------------------------- the numbering

  // The unbounded sequence number of request k: where its QP started, plus the PSNs of
  // the requests before it on the same QP.
  function NumberOf(base: seq<nat>, reqs: seq<LocalReq>, k: nat): nat
    requires k < |reqs| && reqs[k].qpn < |base|
  {
    base[reqs[k].qpn] + PagesBefore(reqs, k, reqs[k].qpn)
  }

  // The retransmission entry request k ought to get.
  function OwnEntry(base: seq<nat>, reqs: seq<LocalReq>, k: nat): Retransmitter.InsertReq
    requires k < |reqs| && reqs[k].qpn < |base|
  {
    var r := reqs[k];
    Retransmitter.InsertReq(r.qpn,
      Retransmitter.Entry(NumberOf(base, reqs, k) % PSN_MOD, r.op, r.laddr, r.raddr, r.length, r.lst, r.offs))
  }

  lemma {:induction false} KeepConcat(xs: seq<LocalReq>, ys: seq<LocalReq>)
    ensures KeepSupported(xs + ys) == KeepSupported(xs) + KeepSupported(ys)
    decreases |ys|
  {
    if ys == [] {
      assert xs + ys == xs;
    } else {
      assert (xs + ys)[..|xs + ys| - 1] == xs + ys[..|ys| - 1];
      KeepConcat(xs, ys[..|ys| - 1]);
    }
  }

  lemma {:induction false} PagesOfPrefix(xs: seq<LocalReq>, ys: seq<LocalReq>, k: nat, q: nat)
    requires k <= |xs| <= |ys| && ys[..|xs|] == xs
    ensures PagesBefore(xs, k, q) == PagesBefore(ys, k, q)
    decreases k
  {
    if k > 0 {
      assert ys[k - 1] == ys[..|xs|][k - 1];
      PagesOfPrefix(xs, ys, k - 1, q);
    }
  }

  // The ledger of a run is a prefix of the supported requests submitted.
  lemma LedgerIsPrefix(n: Node, actions: seq<Action>)
    requires Initial(n) && AllTxAllowed(actions, |n.table|)
    ensures
      var led, reqs := TrackOf(n, actions).led, KeepSupported(Submitted(actions));
      && |led.nums| <= |led.reqs| <= |reqs| && reqs[..|led.reqs|] == led.reqs
      && forall k :: 0 <= k < |led.nums| ==>
           reqs[k] == led.reqs[k] && reqs[k].qpn < |n.table| && led.nums[k] == NumberOf(BaseOf(n.table), reqs, k)
  {
    RunKeeps(n, actions);
    TakenInOrder(n, actions);
    var t, e := TrackOf(n, actions), Run(n, actions);
    KeepConcat(t.seen, e.tx.sq);
    var led, reqs, base := t.led, KeepSupported(Submitted(actions)), BaseOf(n.table);
    forall k | 0 <= k < |led.nums|
      ensures reqs[k] == led.reqs[k] && reqs[k].qpn < |n.table| && led.nums[k] == NumberOf(base, reqs, k)
    {
      PagesOfPrefix(led.reqs, reqs, k, reqs[k].qpn);
      assert led.nums[k] == base[led.reqs[k].qpn] + PagesBefore(led.reqs, k, led.reqs[k].qpn);
    }
  }

  // ---------------------------------------------------------------- pairing

  // In every run: the i-th entry carries the QP, opcode and PSN of the i-th supported
  // request, and the addresses and length of the i-th request submitted.
  lemma EntriesInRun(n: Node, actions: seq<Action>)
    requires Initial(n) && AllTxAllowed(actions, |n.table|)
    ensures
      var entries, all := Run(n, actions).tx.entries, Submitted(actions);
      var reqs := KeepSupported(all);
      && |entries| <= |reqs| && |entries| <= |all|
      && forall i :: 0 <= i < |entries| ==>
           && reqs[i].qpn < |n.table|
           && entries[i] == EntryOf(RetransMeta(reqs[i].qpn, NumberOf(BaseOf(n.table), reqs, i) % PSN_MOD, reqs[i].op),
                                    AddrLenOf(all[i]))
  {
    RunKeeps(n, actions);
    TakenInOrder(n, actions);
    LedgerIsPrefix(n, actions);
    var t, e := TrackOf(n, actions), Run(n, actions);
    forall i | 0 <= i < |e.tx.entries| ensures t.seen[i] == Submitted(actions)[i] {
      assert Submitted(actions)[i] == (t.seen + e.tx.sq)[i];
    }
  }

  // An entry is its own request's iff the two queues have not slipped against each
  // other at that place.
  lemma EntryIsOwnIff(n: Node, actions: seq<Action>, i: nat)
    requires Initial(n) && AllTxAllowed(actions, |n.table|) && i < |Run(n, actions).tx.entries|
    ensures
      var all := Submitted(actions);
      var reqs := KeepSupported(all);
      && i < |reqs| && i < |all| && reqs[i].qpn < |n.table|
      && (Run(n, actions).tx.entries[i] == OwnEntry(BaseOf(n.table), reqs, i)
          <==> AddrLenOf(all[i]) == AddrLenOf(reqs[i]))
  {
    EntriesInRun(n, actions);
  }

  lemma {:induction false} AllKept(rs: seq<LocalReq>)
    requires forall i :: 0 <= i < |rs| ==> Supported(rs[i].op)
    ensures KeepSupported(rs) == rs
    decreases |rs|
  {
    if rs != [] {
      AllKept(rs[..|rs| - 1]);
    }
  }

  predicate FirstSupported(rs: seq<LocalReq>, n: nat)
    requires n <= |rs|
  {
    forall k :: 0 <= k < n ==> Supported(rs[k].op)
  }

  lemma {:induction false} KeepLength(rs: seq<LocalReq>)
    ensures |KeepSupported(rs)| <= |rs|
    ensures |KeepSupported(rs)| == |rs| <==> FirstSupported(rs, |rs|)
    decreases |rs|
  {
    if rs != [] {
      var before := rs[..|rs| - 1];
      KeepLength(before);
      assert FirstSupported(rs, |rs|) <==> FirstSupported(before, |before|) && Supported(rs[|rs| - 1].op);
    }
  }

  // Where the i-th supported request was submitted: at place i iff none before it was
  // unsupported, otherwise later.
  lemma {:induction false} KeepPlace(rs: seq<LocalReq>, i: nat) returns (j: nat)
    requires i < |KeepSupported(rs)|
    ensures i <= j < |rs| && rs[j] == KeepSupported(rs)[i]
    ensures j == i <==> FirstSupported(rs, i + 1)
    decreases |rs|
  {
    var before := rs[..|rs| - 1];
    KeepLength(before);
    if i < |KeepSupported(before)| {
      j := KeepPlace(before, i);
      assert FirstSupported(rs, i + 1) <==> FirstSupported(before, i + 1);
    } else {
      j := |rs| - 1;
      assert FirstSupported(rs, i + 1) ==> i + 1 == |rs| || FirstSupported(before, i + 1);
      if i < j && FirstSupported(rs, i + 1) { KeepPrefix(before, i + 1); }
    }
  }

  lemma {:induction false} KeepPrefix(rs: seq<LocalReq>, n: nat)
    requires n <= |rs| && FirstSupported(rs, n)
    ensures |KeepSupported(rs)| >= n
    decreases |rs|
  {
    if n == |rs| {
      KeepLength(rs);
    } else {
      KeepPrefix(rs[..|rs| - 1], n);
    }
  }

  // If no two requests agree in all their addresses and lengths, entry i is its own
  // request's iff none of the first i + 1 requests had an unsupported opcode.
  lemma PairsIffSupported(n: Node, actions: seq<Action>, i: nat)
    requires Initial(n) && AllTxAllowed(actions, |n.table|) && i < |Run(n, actions).tx.entries|
    requires forall a, b :: 0 <= a < b < |Submitted(actions)| ==>
               AddrLenOf(Submitted(actions)[a]) != AddrLenOf(Submitted(actions)[b])
    ensures
      var all := Submitted(actions);
      var reqs := KeepSupported(all);
      && i < |reqs| && i < |all| && reqs[i].qpn < |n.table|
      && (Run(n, actions).tx.entries[i] == OwnEntry(BaseOf(n.table), reqs, i) <==> FirstSupported(all, i + 1))
  {
    EntryIsOwnIff(n, actions, i);
    var j := KeepPlace(Submitted(actions), i);
  }

  // With supported opcodes only, every entry pairs the right halves.
  lemma EntriesPair(n: Node, actions: seq<Action>)
    requires Initial(n) && AllTxAllowed(actions, |n.table|)
    requires forall i :: 0 <= i < |Submitted(actions)| ==> Supported(Submitted(actions)[i].op)
    ensures
      var entries, reqs := Run(n, actions).tx.entries, Submitted(actions);
      && |entries| <= |reqs|
      && forall i :: 0 <= i < |entries| ==>
           reqs[i].qpn < |n.table| && entries[i] == OwnEntry(BaseOf(n.table), reqs, i)
  {
    AllKept(Submitted(actions));
    EntriesInRun(n, actions);
  }

  // ---------------------------------------------------------------- an unsupported opcode shifts the queues

  lemma RunSnoc(n: Node, actions: seq<Action>, a: Action)
    ensures Run(n, actions + [a]) == Next(Run(n, actions), a)
    ensures Submitted(actions + [a]) == Submitted(actions) + SubmittedBy(a)
  {
    assert (actions + [a])[..|actions|] == actions;
  }

  function Take(bad: LocalReq, good: LocalReq): seq<Action> {
    [Submit(bad), Submit(good)] + [RunLocalReqHandler] + [RunLocalReqHandler]
  }

  function Queue(bad: LocalReq, good: LocalReq): seq<Action> { Take(bad, good) + [RunMetaMerger] + [RunConnTable] }

  function Shift(bad: LocalReq, good: LocalReq): seq<Action> {
    Queue(bad, good) + [RunGenerateIbh] + [RunStateTable] + [RunGenerateIbh] + [RunMergeRetrans]
  }

  // A request the handler makes no packet for still queues its addresses: the next
  // request's entry then gets them.
  lemma UnsupportedShifts(n: Node, bad: LocalReq, good: LocalReq)
    requires Initial(n) && !Supported(bad.op) && Supported(good.op) && good.qpn < |n.table|
    ensures AllTxAllowed(Shift(bad, good), |n.table|) && Submitted(Shift(bad, good)) == [bad, good]
    ensures Run(n, Shift(bad, good)).tx.entries
            == [EntryOf(RetransMeta(good.qpn, n.table[good.qpn].reqNext, good.op), AddrLenOf(bad))]
  {
    ShiftAllowed(bad, good, |n.table|);
    ShiftQueues(n, bad, good);
    AloneAfter(n, Run(n, Queue(bad, good)), bad, good);
    hide Run, Next, Queue, Submitted, Alone, Initial;
    ShiftNumbers(n, Queue(bad, good), good);
    var acts := Queue(bad, good) + [RunGenerateIbh] + [RunStateTable] + [RunGenerateIbh];
    ShiftMerges(n, acts);
  }

  lemma ShiftAllowed(bad: LocalReq, good: LocalReq, queues: nat)
    requires !Supported(bad.op) && good.qpn < queues
    ensures AllTxAllowed(Shift(bad, good), queues)
  {
  }

  lemma AloneAfter(n: Node, e: Node, bad: LocalReq, good: LocalReq)
    requires Initial(n) && Supported(good.op) && good.qpn < |n.table|
    requires e == n.(tx := n.tx.(addrLens := [AddrLenOf(bad), AddrLenOf(good)], dstQp := [DstOf(n.conn, good.qpn)],
                                 ibhMeta := [MetaOf(LocalEvent(good))], exhMeta := [LocalEvent(good)]))
    ensures Alone(e, good) && e.table == n.table && e.tx.entries == [] && |e.tx.addrLens| == 2
    ensures e.tx.addrLens[0] == AddrLenOf(bad)
  {
  }

  lemma ShiftMerges(n: Node, acts: seq<Action>)
    requires Run(n, acts).tx.metas != [] && Run(n, acts).tx.addrLens != []
    ensures Submitted(acts + [RunMergeRetrans]) == Submitted(acts)
    ensures
      var tx := Run(n, acts).tx;
      Run(n, acts + [RunMergeRetrans]).tx.entries == tx.entries + [EntryOf(tx.metas[0], tx.addrLens[0])]
  {
    RunSnoc(n, acts, RunMergeRetrans);
  }

  lemma ShiftSubmits(n: Node, bad: LocalReq, good: LocalReq)
    requires Initial(n)
    ensures
      var acts := [Submit(bad), Submit(good)];
      Run(n, acts) == n.(tx := n.tx.(sq := [bad, good])) && Submitted(acts) == [bad, good]
  {
    var none: seq<Action> := [];
    RunSnoc(n, none, Submit(bad));
    RunSnoc(n, none + [Submit(bad)], Submit(good));
    assert none + [Submit(bad)] + [Submit(good)] == [Submit(bad), Submit(good)];
  }

  lemma ShiftTakes(n: Node, bad: LocalReq, good: LocalReq)
    requires Initial(n) && !Supported(bad.op) && Supported(good.op)
    ensures Submitted(Take(bad, good)) == [bad, good]
    ensures Run(n, Take(bad, good))
            == n.(tx := n.tx.(appMeta := [LocalEvent(good)], addrLens := [AddrLenOf(bad), AddrLenOf(good)]))
  {
    ShiftSubmits(n, bad, good);
    var a2 := [Submit(bad), Submit(good)];
    RunSnoc(n, a2, RunLocalReqHandler);
    assert Run(n, a2 + [RunLocalReqHandler]) == n.(tx := n.tx.(sq := [good], addrLens := [AddrLenOf(bad)]));
    RunSnoc(n, a2 + [RunLocalReqHandler], RunLocalReqHandler);
  }

  lemma ShiftQueues(n: Node, bad: LocalReq, good: LocalReq)
    requires Initial(n) && !Supported(bad.op) && Supported(good.op)
    ensures Submitted(Queue(bad, good)) == [bad, good]
    ensures Run(n, Queue(bad, good)) == n.(tx := n.tx.(
              addrLens := [AddrLenOf(bad), AddrLenOf(good)], dstQp := [DstOf(n.conn, good.qpn)],
              ibhMeta := [MetaOf(LocalEvent(good))], exhMeta := [LocalEvent(good)]))
  {
    ShiftTakes(n, bad, good);
    RunSnoc(n, Take(bad, good), RunMetaMerger);
    RunSnoc(n, Take(bad, good) + [RunMetaMerger], RunConnTable);
  }

  // A request alone in the queues, with nobody else at the state table.
  ghost predicate Alone(e: Node, good: LocalReq) {
    && Supported(good.op) && good.qpn < |e.table|
    && e.tx.ibhMeta == [MetaOf(LocalEvent(good))] && |e.tx.dstQp| == 1 && !e.tx.busy
    && e.tx.txReq == [] && e.tx.txRsp == [] && e.rx.rxReq == [] && e.tx.metas == []
  }

  lemma AloneNumbered(e: Node, good: LocalReq)
    requires Alone(e, good)
    ensures
      var f := Next(Next(Next(e, RunGenerateIbh), RunStateTable), RunGenerateIbh);
      && f.tx.metas == [RetransMeta(good.qpn, e.table[good.qpn].reqNext, good.op)]
      && f.tx.addrLens == e.tx.addrLens && f.tx.entries == e.tx.entries
  {
    var g := Next(e, RunGenerateIbh);
    assert g.tx == StartHeader(e.tx);
    var h := Next(g, RunStateTable);
    assert h.tx.txRsp == [e.table[good.qpn]] && h.tx.meta == MetaOf(LocalEvent(good));
  }

  lemma ShiftNumbers(n: Node, acts: seq<Action>, good: LocalReq)
    requires Alone(Run(n, acts), good) && Run(n, acts).table == n.table
    ensures
      var all := acts + [RunGenerateIbh] + [RunStateTable] + [RunGenerateIbh];
      && Submitted(all) == Submitted(acts)
      && Run(n, all).tx.metas == [RetransMeta(good.qpn, n.table[good.qpn].reqNext, good.op)]
      && Run(n, all).tx.addrLens == Run(n, acts).tx.addrLens && Run(n, all).tx.entries == Run(n, acts).tx.entries
  {
    AloneNumbered(Run(n, acts), good);
    hide Next, Alone;
    RunSnoc(n, acts, RunGenerateIbh);
    RunSnoc(n, acts + [RunGenerateIbh], RunStateTable);
    RunSnoc(n, acts + [RunGenerateIbh] + [RunStateTable], RunGenerateIbh);
  }

  // ---------------------------------------------------------------- the wire

  function NewTags(items: seq<Item>): seq<nat>
    decreases |items|
  {
    if items == [] then []
    else (if items[0].tag.New? then [items[0].tag.k] else []) + NewTags(items[1..])
  }

  lemma {:induction false} NewTagsCount(items: seq<Item>, rest: seq<Item>, from: nat, to: nat)
    requires Consecutive(items + rest, from, to)
    ensures from + |NewTags(items)| <= to
    ensures forall m :: 0 <= m < |NewTags(items)| ==> NewTags(items)[m] == from + m
    decreases |items|
  {
    if items == [] {
      ConsecutiveBound(items + rest, from, to);
    } else {
      assert (items + rest)[0] == items[0] && (items + rest)[1..] == items[1..] + rest;
      NewTagsCount(items[1..], rest, if items[0].tag.New? then from + 1 else from, to);
    }
  }

  function ResentBy(a: Action): seq<Retransmitter.Event> { if a.Resend? then [a.ev] else [] }

  // The events the retransmitter handed in, in order.
  function Resent(actions: seq<Action>): seq<Retransmitter.Event>
    decreases |actions|
  {
    if actions == [] then [] else Resent(actions[..|actions| - 1]) + ResentBy(actions[|actions| - 1])
  }

  lemma StepResends(n: Node, t: TxTrack, a: Action)
    ensures NextTrack(n, t, a).led.resent == t.led.resent + ResentBy(a)
  {
    assert t.led.resent + [] == t.led.resent;
  }

  lemma {:induction false} ResentAre(n: Node, actions: seq<Action>)
    ensures TrackOf(n, actions).led.resent == Resent(actions)
    decreases |actions|
  {
    if actions != [] {
      var before := actions[..|actions| - 1];
      ResentAre(n, before);
      StepResends(Run(n, before), TrackOf(n, before), actions[|actions| - 1]);
    }
  }

  function AckedBy(a: Action): seq<AckEvent> { if a.OfferAck? then [a.ack] else [] }

  function AnsweredBy(a: Action): seq<Event> { if a.OfferRead? then [a.readEvent] else [] }

  // The acknowledgements and read responses to be sent back, in order.
  datatype Replies = Replies(acks: seq<AckEvent>, readEvs: seq<Event>)

  function RepliesOf(actions: seq<Action>): Replies
    decreases |actions|
  {
    if actions == [] then Replies([], [])
    else
      var rs, a := RepliesOf(actions[..|actions| - 1]), actions[|actions| - 1];
      Replies(rs.acks + AckedBy(a), rs.readEvs + AnsweredBy(a))
  }

  lemma {:induction false} RepliesAre(n: Node, actions: seq<Action>)
    ensures Replies(TrackOf(n, actions).led.acks, TrackOf(n, actions).led.readEvs) == RepliesOf(actions)
    decreases |actions|
  {
    if actions != [] {
      var before, a := actions[..|actions| - 1], actions[|actions| - 1];
      RepliesAre(n, before);
      StepReplies(Run(n, before), TrackOf(n, before), a);
    }
  }

  lemma StepReplies(n: Node, t: TxTrack, a: Action)
    ensures NextTrack(n, t, a).led.acks == t.led.acks + AckedBy(a)
    ensures NextTrack(n, t, a).led.readEvs == t.led.readEvs + AnsweredBy(a)
  {
    assert t.led.acks + [] == t.led.acks && t.led.readEvs + [] == t.led.readEvs;
  }

  // What packet i must be, given what it stands for. An acknowledgement that comes without
  // a PSN gets one from the state table.
  ghost predicate Carries(conn: seq<nat>, base: seq<nat>, reqs: seq<LocalReq>, resent: seq<Retransmitter.Event>,
                          replies: Replies, p: Packet, tag: Tag) {
    match tag
    case New(k) =>
      && k < |reqs| && reqs[k].qpn < |base|
      && p == Packet(reqs[k].op, DstOf(conn, reqs[k].qpn), NumberOf(base, reqs, k) % PSN_MOD, reqs[k].raddr,
                     reqs[k].length, false, true)
    case Again(i) =>
      && i < |resent| && resent[i].qpn < |base|
      && var e := resent[i].entry;
         p == Packet(e.opCode, DstOf(conn, resent[i].qpn), e.psn, e.remoteAddr, e.length, false, false)
    case OfAck(i) =>
      && i < |replies.acks|
      && var a := replies.acks[i];
         p == Packet(Ack, DstOf(conn, a.qpn), if a.validPsn then a.psn else p.psn, 0, 0, a.isNak, false)
    case OfRead(i) =>
      && i < |replies.readEvs|
      && var r := replies.readEvs[i];
         IsResponse(r.op) && p == Packet(r.op, DstOf(conn, r.qpn), r.psn, r.addr, r.length, r.isNak, false)
  }

  // ---------------------------------------------------------------- replies leave in order

  function AckTags(items: seq<Item>): seq<nat>
    decreases |items|
  {
    if items == [] then []
    else
      var tag := items[|items| - 1].tag;
      AckTags(items[..|items| - 1]) + if tag.OfAck? then [tag.i] else []
  }

  function ReadTags(items: seq<Item>): seq<nat>
    decreases |items|
  {
    if items == [] then []
    else
      var tag := items[|items| - 1].tag;
      ReadTags(items[..|items| - 1]) + if tag.OfRead? then [tag.i] else []
  }

  lemma TagsSnoc(items: seq<Item>, it: Item)
    ensures AckTags(items + [it]) == AckTags(items) + if it.tag.OfAck? then [it.tag.i] else []
    ensures ReadTags(items + [it]) == ReadTags(items) + if it.tag.OfRead? then [it.tag.i] else []
  {
    assert (items + [it])[..|items|] == items;
  }

  lemma {:induction false} TagsPrefix(items: seq<Item>, rest: seq<Item>)
    ensures AckTags(items) <= AckTags(items + rest) && ReadTags(items) <= ReadTags(items + rest)
    decreases |rest|
  {
    if rest == [] {
      assert items + rest == items;
    } else {
      assert (items + rest)[..|items + rest| - 1] == items + rest[..|rest| - 1];
      TagsPrefix(items, rest[..|rest| - 1]);
    }
  }

  // Everything merged so far, the oldest first.
  ghost function Merged(t: TxTrack): seq<Item> { t.wire + (t.heads + (t.gi + t.ibh)) }

  ghost predicate Upto(tags: seq<nat>, n: nat) { |tags| == n && forall m :: 0 <= m < n ==> tags[m] == m }

  ghost predicate RepliesMerged(tx: TxPath, t: TxTrack) {
    && |tx.acks| <= |t.led.acks| && Upto(AckTags(Merged(t)), |t.led.acks| - |tx.acks|)
    && |tx.readEvents| <= |t.led.readEvs| && Upto(ReadTags(Merged(t)), |t.led.readEvs| - |tx.readEvents|)
  }

  lemma MergerMerges(tx: TxPath, t: TxTrack)
    requires RepliesMerged(tx, t) && AppRel(tx.appMeta, t.app)
    ensures RepliesMerged(MetaMerger(tx), MergerTrack(tx, t))
  {
    hide AckTags, ReadTags;
    var t' := MergerTrack(tx, t);
    if t'.ibh != t.ibh {
      var it := t'.ibh[|t.ibh|];
      assert t'.ibh == t.ibh + [it];
      assert Merged(t') == Merged(t) + [it];
      TagsSnoc(Merged(t), it);
    }
  }

  lemma OthersMerge(n: Node, t: TxTrack, a: Action)
    requires RepliesMerged(n.tx, t) && !a.RunMetaMerger? && GiRel(n.tx.busy, n.tx.meta, n.tx.dst, n.conn, t.gi)
    ensures Merged(NextTrack(n, t, a)) == Merged(t)
    ensures RepliesMerged(Next(n, a).tx, NextTrack(n, t, a))
  {
    hide AckTags, ReadTags;
    SameMerged(n, t, a);
    hide Merged;
    SameWaiting(n, t, a);
  }

  lemma SameMerged(n: Node, t: TxTrack, a: Action)
    requires !a.RunMetaMerger? && GiRel(n.tx.busy, n.tx.meta, n.tx.dst, n.conn, t.gi)
    ensures Merged(NextTrack(n, t, a)) == Merged(t)
  {
    hide HandlerTrack, HeaderTrack, FinishTrack, TransmitTrack, ResendTrack;
    HeaderMerged(n.tx, t);
    FinishMerged(n.tx, t);
    TransmitMerged(n.tx, t);
    HandlerMerged(n.tx, t);
    hide Merged, NumberedLedger;
    if a.Resend? { ResendMerged(t, a.ev); }
    if a.OfferAck? || a.OfferRead? { LedgerMerged(t, NextTrack(n, t, a).led); }
  }

  lemma HeaderMerged(tx: TxPath, t: TxTrack)
    requires tx.busy || t.gi == []
    ensures !tx.busy ==> Merged(HeaderTrack(tx, t)) == Merged(t)
  {
    if t.ibh != [] { assert [t.ibh[0]] + t.ibh[1..] == t.ibh; }
  }

  lemma FinishMerged(tx: TxPath, t: TxTrack)
    ensures Merged(FinishTrack(tx, t)) == Merged(t)
  {
  }

  lemma TransmitMerged(tx: TxPath, t: TxTrack)
    ensures Merged(TransmitTrack(tx, t)) == Merged(t)
  {
    if t.heads != [] { assert [t.heads[0]] + t.heads[1..] == t.heads; }
  }

  lemma HandlerMerged(tx: TxPath, t: TxTrack)
    ensures Merged(HandlerTrack(tx, t)) == Merged(t)
  {
  }

  lemma ResendMerged(t: TxTrack, ev: Retransmitter.Event)
    ensures Merged(ResendTrack(t, ev)) == Merged(t)
  {
  }

  lemma LedgerMerged(t: TxTrack, led: Ledger)
    ensures Merged(t.(led := led)) == Merged(t)
  {
  }

  lemma SameWaiting(n: Node, t: TxTrack, a: Action)
    requires !a.RunMetaMerger?
    ensures
      var led, led' := t.led, NextTrack(n, t, a).led;
      && |led'.acks| - |Next(n, a).tx.acks| == |led.acks| - |n.tx.acks|
      && |led'.readEvs| - |Next(n, a).tx.readEvents| == |led.readEvs| - |n.tx.readEvents|
  {
  }

  lemma {:induction false} RepliesMerge(n: Node, actions: seq<Action>)
    requires Initial(n) && AllTxAllowed(actions, |n.table|)
    ensures RepliesMerged(Run(n, actions).tx, TrackOf(n, actions))
    decreases |actions|
  {
    if actions == [] {
      assert Merged(StartTrack(n)) == [];
    } else {
      var before, a := actions[..|actions| - 1], actions[|actions| - 1];
      var p, t := Run(n, before), TrackOf(n, before);
      RepliesMerge(n, before);
      RunKeeps(n, before);
      assert AppRel(p.tx.appMeta, t.app) && GiRel(p.tx.busy, p.tx.meta, p.tx.dst, p.conn, t.gi);
      hide TxInv, RepliesMerged, MergerTrack, Run;
      if a.RunMetaMerger? {
        MergerMerges(p.tx, t);
      } else {
        hide Next, NextTrack;
        OthersMerge(p, t, a);
      }
    }
  }

  lemma RepliesInOrder(n: Node, actions: seq<Action>)
    requires Initial(n) && AllTxAllowed(actions, |n.table|)
    ensures
      var items := TrackOf(n, actions).wire;
      && (forall m :: 0 <= m < |AckTags(items)| ==> AckTags(items)[m] == m)
      && (forall m :: 0 <= m < |ReadTags(items)| ==> ReadTags(items)[m] == m)
  {
    RepliesMerge(n, actions);
    var t := TrackOf(n, actions);
    TagsPrefix(t.wire, t.heads + (t.gi + t.ibh));
  }

  // In every run the new requests leave in the order of submission, none skipped, each
  // numbered from its QP's start by the PSNs of its predecessors, and ask for an
  // acknowledgement; everything else on the wire is an event of the retransmitter, an
  // acknowledgement or a read response, sent as it came. Acknowledgements leave in the
  // order offered, none skipped, and so do read responses.
  lemma WireInRun(n: Node, actions: seq<Action>)
    requires Initial(n) && AllTxAllowed(actions, |n.table|)
    ensures
      var wire, items, reqs := Run(n, actions).tx.wire, TrackOf(n, actions).wire, KeepSupported(Submitted(actions));
      && |items| == |wire|
      && (forall i :: 0 <= i < |wire| ==>
            Carries(n.conn, BaseOf(n.table), reqs, Resent(actions), RepliesOf(actions), wire[i], items[i].tag))
      && (forall m :: 0 <= m < |NewTags(items)| ==> NewTags(items)[m] == m)
      && (forall m :: 0 <= m < |AckTags(items)| ==> AckTags(items)[m] == m)
      && (forall m :: 0 <= m < |ReadTags(items)| ==> ReadTags(items)[m] == m)
  {
    RunKeeps(n, actions);
    LedgerIsPrefix(n, actions);
    ResentAre(n, actions);
    RepliesAre(n, actions);
    RepliesInOrder(n, actions);
    var t, e := TrackOf(n, actions), Run(n, actions);
    var reqs, base := KeepSupported(Submitted(actions)), BaseOf(n.table);
    NewTagsCount(t.wire, t.heads, 0, |t.led.nums|);
    ConnKept(n, actions);
    forall i | 0 <= i < |e.tx.wire|
      ensures Carries(n.conn, base, reqs, Resent(actions), RepliesOf(actions), e.tx.wire[i], t.wire[i].tag)
    {
      assert PacketOk(t.led, n.conn, e.tx.wire[i], t.wire[i]);
      assert ItemOk(t.led, t.wire[i]);
      PacketCarries(t.led, n.conn, base, reqs, e.tx.wire[i], t.wire[i]);
    }
  }

  lemma PacketCarries(led: Ledger, conn: seq<nat>, base: seq<nat>, reqs: seq<LocalReq>, p: Packet, it: Item)
    requires PacketOk(led, conn, p, it) && ItemOk(led, it) && |led.at| == |base|
    requires |led.nums| <= |led.reqs| <= |reqs|
    requires forall k :: 0 <= k < |led.nums| ==>
               reqs[k] == led.reqs[k] && reqs[k].qpn < |base| && led.nums[k] == NumberOf(base, reqs, k)
    ensures Carries(conn, base, reqs, led.resent, Replies(led.acks, led.readEvs), p, it.tag)
  {
  }

  lemma {:induction false} ConnKept(n: Node, actions: seq<Action>)
    ensures Run(n, actions).conn == n.conn && |Run(n, actions).table| == |n.table|
    decreases |actions|
  {
    hide Next;
    if actions != [] {
      var before := actions[..|actions| - 1];
      ConnKept(n, before);
      ConnStep(Run(n, before), actions[|actions| - 1]);
    }
  }

  lemma ConnStep(n: Node, a: Action)
    ensures Next(n, a).conn == n.conn && |Next(n, a).table| == |n.table|
  {
  }
}
