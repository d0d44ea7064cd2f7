// The PSN of an acknowledgement that comes without one: it is taken from the state table
// when the header is made, one less than the PSN its queue pair expects then.
module RequestPathReplies {
  import opened InfiniBand
  import Retransmitter
  import opened RequestPath
  import opened RequestPathProof
  import opened RequestPathTheorems
  import opened StateHistory

  // Before the PSN expected by q at some moment of the run.
  ghost predicate LastAccepted(n: Node, actions: seq<Action>, q: nat, psn: nat) {
    exists row: Row :: Held(n, actions, q, row) && psn == (row.respEpsn - 1) % PSN_MOD
  }

  ghost predicate Numbered(n: Node, actions: seq<Action>, psn: nat, it: Item) {
    it.tag.OfAck? && !it.ev.validPsn ==> LastAccepted(n, actions, it.ev.qpn, psn)
  }

  ghost predicate AcksNumbered(n: Node, actions: seq<Action>, tx: TxPath, t: TxTrack) {
    && |t.heads| == |tx.headers| && |t.wire| == |tx.wire|
    && (tx.txRsp != [] ==> Held(n, actions, tx.meta.qpn, tx.txRsp[0]))
    && (forall i :: 0 <= i < |t.heads| ==> Numbered(n, actions, tx.headers[i].psn, t.heads[i]))
    && (forall i :: 0 <= i < |t.wire| ==> Numbered(n, actions, tx.wire[i].psn, t.wire[i]))
  }

  lemma NumberedLater(n: Node, actions: seq<Action>, a: Action, psn: nat, it: Item)
    requires Numbered(n, actions, psn, it)
    ensures Numbered(n, actions + [a], psn, it)
  {
    if it.tag.OfAck? && !it.ev.validPsn {
      var row: Row :| Held(n, actions, it.ev.qpn, row) && psn == (row.respEpsn - 1) % PSN_MOD;
      HeldLater(n, actions, a, it.ev.qpn, row);
    }
  }

  lemma AcksLater(n: Node, actions: seq<Action>, a: Action, tx: TxPath, t: TxTrack)
    requires AcksNumbered(n, actions, tx, t)
    ensures AcksNumbered(n, actions + [a], tx, t)
  {
    if tx.txRsp != [] { HeldLater(n, actions, a, tx.meta.qpn, tx.txRsp[0]); }
    forall psn: nat, it: Item | Numbered(n, actions, psn, it) ensures Numbered(n, actions + [a], psn, it) {
      NumberedLater(n, actions, a, psn, it);
    }
  }

  // A header with a valid PSN needs none; the others are numbered from the answer.
  lemma HeaderNumbers(n: Node, actions: seq<Action>, tx: TxPath, t: TxTrack)
    requires AcksNumbered(n, actions, tx, t) && IbhRel(tx.ibhMeta, t.ibh) && !tx.busy && tx.txRsp == []
    ensures AcksNumbered(n, actions, StartHeader(tx), HeaderTrack(tx, t))
  {
    hide LastAccepted, Held;
    if tx.ibhMeta != [] && tx.dstQp != [] {
      assert MetaOk(tx.ibhMeta[0], t.ibh[0]);
    }
  }

  lemma FinishNumbers(n: Node, actions: seq<Action>, tx: TxPath, t: TxTrack)
    requires AcksNumbered(n, actions, tx, t) && tx.busy && tx.txRsp != [] && |t.gi| == 1
    requires tx.meta.qpn == t.gi[0].ev.qpn && (t.gi[0].tag.New? <==> tx.meta.op != Ack)
    requires |tx.txRsp| == 1
    ensures AcksNumbered(n, actions, FinishHeader(tx), FinishTrack(tx, t))
  {
    hide Held;
    var row, tx' := tx.txRsp[0], FinishHeader(tx);
    if tx.meta.op == Ack {
      assert Held(n, actions, tx.meta.qpn, row) && tx'.headers[|tx.headers|].psn == (row.respEpsn - 1) % PSN_MOD;
      assert LastAccepted(n, actions, tx.meta.qpn, tx'.headers[|tx.headers|].psn);
    }
    hide LastAccepted;
  }

  lemma GenerateNumbers(n: Node, actions: seq<Action>, p: Node, t: TxTrack, base: seq<nat>)
    requires TxInv(p, t, base) && AcksNumbered(n, actions, p.tx, t)
    ensures AcksNumbered(n, actions, GenerateIbh(p.tx), NextTrack(p, t, RunGenerateIbh))
  {
    hide AcksNumbered;
    if !p.tx.busy {
      HeaderNumbers(n, actions, p.tx, t);
    } else if p.tx.txRsp != [] {
      FinishFacts(p, t, base);
      Waiting(p, t, base);
      FinishNumbers(n, actions, p.tx, t);
    }
  }

  lemma Waiting(p: Node, t: TxTrack, base: seq<nat>)
    requires TxInv(p, t, base) && p.tx.busy && p.tx.txRsp != []
    ensures |p.tx.txRsp| == 1 && |t.gi| == 1 && p.tx.meta.qpn == t.gi[0].ev.qpn
  {
    ConsecutiveBound(t.app, t.merged, |t.led.reqs|);
    InProgress(p.tx, t, p.conn);
  }

  lemma TransmitNumbers(n: Node, actions: seq<Action>, tx: TxPath, t: TxTrack)
    requires AcksNumbered(n, actions, tx, t)
    ensures AcksNumbered(n, actions, Transmit(tx), TransmitTrack(tx, t))
  {
    hide Numbered, Held;
  }

  // The one read under way is for the queue pair in the register.
  lemma ReadIsRegister(p: Node, t: TxTrack, base: seq<nat>)
    requires TxInv(p, t, base) && p.tx.txReq != [] && p.tx.txReq[0].TxRead?
    ensures p.tx.txReq[0].qpn == p.tx.meta.qpn && p.tx.txRsp == [] && p.tx.meta.qpn < |p.table|
  {
    assert TxQueue(p.table, p.tx.txReq, p.tx.txRsp, p.tx.busy, p.tx.meta.qpn);
    if p.tx.busy && |p.tx.txReq| > 1 { NotOnlyRead(p.table, p.tx); }
  }

  lemma NotOnlyRead(table: seq<Row>, tx: TxPath)
    requires TxQueue(table, tx.txReq, tx.txRsp, tx.busy, tx.meta.qpn) && tx.busy && |tx.txReq| > 1
    ensures tx.txReq[0].TxWrite?
  {
    assert tx.txReq[..|tx.txReq| - 1][0] == tx.txReq[0];
  }

  lemma ServeNumbers(n: Node, actions: seq<Action>, p: Node, t: TxTrack, base: seq<nat>)
    requires p == Run(n, actions) && TxInv(p, t, base) && p.tx.txReq != [] && AcksNumbered(n, actions, p.tx, t)
    ensures AcksNumbered(n, actions + [RunStateTable], ServeTx(p).tx, t)
  {
    AcksLater(n, actions, RunStateTable, p.tx, t);
    if p.tx.txReq[0].TxRead? {
      ReadIsRegister(p, t, base);
      HeldNow(n, actions, RunStateTable, p.tx.meta.qpn);
    }
    hide Numbered, Held, TxInv;
  }

  lemma OthersNumber(n: Node, actions: seq<Action>, p: Node, t: TxTrack, a: Action)
    requires AcksNumbered(n, actions, p.tx, t)
    requires !a.RunGenerateIbh? && !a.RunTransmit? && !(a.RunStateTable? && p.rx.rxReq == [] && p.tx.txReq != [])
    ensures AcksNumbered(n, actions, Next(p, a).tx, NextTrack(p, t, a))
  {
    hide Numbered, Held;
  }

  lemma StepNumbers(n: Node, actions: seq<Action>, p: Node, t: TxTrack, base: seq<nat>, a: Action)
    requires p == Run(n, actions) && TxInv(p, t, base) && AcksNumbered(n, actions, p.tx, t)
    ensures AcksNumbered(n, actions + [a], Next(p, a).tx, NextTrack(p, t, a))
  {
    hide AcksNumbered, TxInv, Run, GenerateIbh, Transmit, TransmitTrack, HeaderTrack, FinishTrack;
    if a.RunStateTable? && p.rx.rxReq == [] && p.tx.txReq != [] {
      ServeNumbers(n, actions, p, t, base);
    } else {
      AcksLater(n, actions, a, p.tx, t);
      if a.RunGenerateIbh? {
        GenerateNumbers(n, actions + [a], p, t, base);
      } else if a.RunTransmit? {
        TransmitNumbers(n, actions + [a], p.tx, t);
      } else {
        OthersNumber(n, actions + [a], p, t, a);
      }
    }
  }

  lemma {:induction false} RunNumbers(n: Node, actions: seq<Action>)
    requires Initial(n) && AllTxAllowed(actions, |n.table|)
    ensures AcksNumbered(n, actions, Run(n, actions).tx, TrackOf(n, actions))
    decreases |actions|
  {
    if actions != [] {
      var before, a := actions[..|actions| - 1], actions[|actions| - 1];
      LastStep(n, actions);
      hide Next, NextTrack, AcksNumbered, TxInv, Run, TrackOf, AllTxAllowed, Initial;
      RunNumbers(n, before);
      RunKeeps(n, before);
      StepNumbers(n, before, Run(n, before), TrackOf(n, before), BaseOf(n.table), a);
    }
  }

  lemma LastStep(n: Node, actions: seq<Action>)
    requires actions != []
    ensures
      var before, a := actions[..|actions| - 1], actions[|actions| - 1];
      && before + [a] == actions && Run(n, actions) == Next(Run(n, before), a)
      && TrackOf(n, actions) == NextTrack(Run(n, before), TrackOf(n, before), a)
      && forall queues :: AllTxAllowed(actions, queues) ==> AllTxAllowed(before, queues)
  {
    hide Next, NextTrack;
  }

  // In every run: an acknowledgement on the wire that was offered with a PSN carries that
  // one, and any other the PSN before the one its queue pair expected at some moment.
  lemma AckPsns(n: Node, actions: seq<Action>, i: nat)
    requires Initial(n) && AllTxAllowed(actions, |n.table|) && i < |Run(n, actions).tx.wire|
    ensures
      var wire, items := Run(n, actions).tx.wire, TrackOf(n, actions).wire;
      && |items| == |wire|
      && (items[i].tag.OfAck? ==>
            && items[i].tag.i < |RepliesOf(actions).acks|
            && var ack := RepliesOf(actions).acks[items[i].tag.i];
               if ack.validPsn then wire[i].psn == ack.psn else LastAccepted(n, actions, ack.qpn, wire[i].psn))
  {
    WireInRun(n, actions);
    RunNumbers(n, actions);
    var t := TrackOf(n, actions);
    assert Numbered(n, actions, Run(n, actions).tx.wire[i].psn, t.wire[i]);
    if t.wire[i].tag.OfAck? { AckOfItem(n, actions, i); }
  }

  lemma AckOfItem(n: Node, actions: seq<Action>, i: nat)
    requires Initial(n) && AllTxAllowed(actions, |n.table|)
    requires i < |TrackOf(n, actions).wire| && TrackOf(n, actions).wire[i].tag.OfAck?
    ensures
      var it := TrackOf(n, actions).wire[i];
      it.tag.i < |RepliesOf(actions).acks| && it.ev == AckAsEvent(RepliesOf(actions).acks[it.tag.i])
  {
    RunKeeps(n, actions);
    RepliesAre(n, actions);
    assert ItemOk(TrackOf(n, actions).led, TrackOf(n, actions).wire[i]);
  }
}
