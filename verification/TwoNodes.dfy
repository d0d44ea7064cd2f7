// A sender and a receiver joined by a channel that may drop, duplicate and reorder
// packets, both running their processes in any interleaving.
module TwoNodes {
  import opened Wrappers
  import opened InfiniBand
  import Retransmitter
  import opened RequestPath
  import opened RequestPathProof
  import opened RequestPathTheorems
  import opened ReceivePathProof
  import opened ReceivePathTheorems
  import opened AcceptedPrefix

  datatype Net = Net(a: Node, b: Node)

  // Deliver(i) hands the receiver a copy of the i-th packet the sender ever put on the
  // wire: packets may come late, again, out of order or never.
  datatype Move = AtSender(act: Action) | AtReceiver(act: Action) | Deliver(i: nat)

  // What rx_process_ibh and rx_process_exh make of a packet: PSN from the 24-bit header
  // field, PSN count from the RETH of a read request, NAK flag from the AETH.
  function ArrivalOf(p: Packet): Arrival {
    Arrival(p.op, p.dstQp, p.psn % PSN_MOD, HasAeth(p.op) && p.isNak, NumPkg(p.op, p.length))
  }

  function Step(net: Net, m: Move): Net {
    match m
    case AtSender(x) => net.(a := Next(net.a, x))
    case AtReceiver(x) => net.(b := Next(net.b, x))
    case Deliver(i) =>
      if i < |net.a.tx.wire| then net.(b := Next(net.b, Arrive(ArrivalOf(net.a.tx.wire[i])))) else net
  }

  function Runs(net: Net, moves: seq<Move>): Net
    decreases |moves|
  {
    if moves == [] then net else Step(Runs(net, moves[..|moves| - 1]), moves[|moves| - 1])
  }

  // ---------------------------------------------------------------- what each node sees of a run

  function SenderActs(moves: seq<Move>): seq<Action>
    decreases |moves|
  {
    if moves == [] then []
    else
      var m := moves[|moves| - 1];
      SenderActs(moves[..|moves| - 1]) + if m.AtSender? then [m.act] else []
  }

  function ReceiverAct(net: Net, m: Move): seq<Action> {
    match m
    case AtSender(_) => []
    case AtReceiver(x) => [x]
    case Deliver(i) => if i < |net.a.tx.wire| then [Arrive(ArrivalOf(net.a.tx.wire[i]))] else []
  }

  function ReceiverActs(net: Net, moves: seq<Move>): seq<Action>
    decreases |moves|
  {
    if moves == [] then []
    else
      var before := moves[..|moves| - 1];
      ReceiverActs(net, before) + ReceiverAct(Runs(net, before), moves[|moves| - 1])
  }

  // For each packet that arrived, in order, its place on the sender's wire, if it came
  // from there.
  function SourceOf(net: Net, m: Move): seq<Option<nat>> {
    match m
    case AtSender(_) => []
    case AtReceiver(x) => if x.Arrive? then [None] else []
    case Deliver(i) => if i < |net.a.tx.wire| then [Some(i)] else []
  }

  function Sources(net: Net, moves: seq<Move>): seq<Option<nat>>
    decreases |moves|
  {
    if moves == [] then []
    else
      var before := moves[..|moves| - 1];
      Sources(net, before) + SourceOf(Runs(net, before), moves[|moves| - 1])
  }

  lemma Snoc(n: Node, acts: seq<Action>, x: Action)
    ensures Run(n, acts + [x]) == Next(Run(n, acts), x)
    ensures Arrived(acts + [x]) == Arrived(acts) + ArrivedBy(x)
  {
    assert (acts + [x])[..|acts|] == acts;
  }

  lemma {:induction false} ProjectsSender(net: Net, moves: seq<Move>)
    ensures Runs(net, moves).a == Run(net.a, SenderActs(moves))
    decreases |moves|
  {
    hide Next, ReceiverAct;
    if moves != [] {
      var before, m := moves[..|moves| - 1], moves[|moves| - 1];
      ProjectsSender(net, before);
      if m.AtSender? {
        Snoc(net.a, SenderActs(before), m.act);
      } else {
        assert SenderActs(before) + [] == SenderActs(before);
      }
    }
  }

  lemma AddAct(n: Node, acts: seq<Action>, xs: seq<Action>)
    requires |xs| <= 1
    ensures Run(n, acts + xs) == if xs == [] then Run(n, acts) else Next(Run(n, acts), xs[0])
  {
    if xs == [] {
      assert acts + xs == acts;
    } else {
      Snoc(n, acts, xs[0]);
      assert xs == [xs[0]];
    }
  }

  lemma StepReceiver(net: Net, m: Move)
    ensures |ReceiverAct(net, m)| <= 1
    ensures Step(net, m).b == if ReceiverAct(net, m) == [] then net.b else Next(net.b, ReceiverAct(net, m)[0])
  {
    hide Next;
  }

  lemma {:induction false} ProjectsReceiver(net: Net, moves: seq<Move>)
    ensures Runs(net, moves).b == Run(net.b, ReceiverActs(net, moves))
    decreases |moves|
  {
    if moves != [] {
      hide Next, Step, Run, ReceiverAct;
      var before, m := moves[..|moves| - 1], moves[|moves| - 1];
      ProjectsReceiver(net, before);
      StepReceiver(Runs(net, before), m);
      AddAct(net.b, ReceiverActs(net, before), ReceiverAct(Runs(net, before), m));
    }
  }

  lemma Projects(net: Net, moves: seq<Move>)
    ensures Runs(net, moves).a == Run(net.a, SenderActs(moves))
    ensures Runs(net, moves).b == Run(net.b, ReceiverActs(net, moves))
  {
    ProjectsSender(net, moves);
    ProjectsReceiver(net, moves);
  }

  // ---------------------------------------------------------------- allowed runs

  // Requests on the receiver's QP come from the sender only; other traffic is free.
  ghost predicate MoveOk(net: Net, m: Move, qb: nat) {
    match m
    case AtSender(x) => TxAllowed(|net.a.table|, x)
    case AtReceiver(x) => RxAllowed(|net.b.table|, x) && (x.Arrive? && x.packet.qpn == qb ==> IsResponse(x.packet.op))
    case Deliver(i) => i < |net.a.tx.wire| ==> net.a.tx.wire[i].dstQp < |net.b.table|
  }

  ghost predicate RunOk(net: Net, moves: seq<Move>, qb: nat)
    decreases |moves|
  {
    if moves == [] then true
    else
      var before := moves[..|moves| - 1];
      RunOk(net, before, qb) && MoveOk(Runs(net, before), moves[|moves| - 1], qb)
  }

  // Both nodes are set up, QP qa of the sender is connected to QP qb of the receiver
  // and no other QP is, and their PSNs start together.
  ghost predicate Connected(net: Net, qa: nat, qb: nat) {
    && Initial(net.a) && Initial(net.b) && qa < |net.a.table| && qb < |net.b.table|
    && (forall q :: 0 <= q < |net.a.table| ==> (DstOf(net.a.conn, q) == qb <==> q == qa))
    && net.a.table[qa].reqNext == net.b.table[qb].respEpsn
  }

  lemma {:induction false} SenderAllowed(net: Net, moves: seq<Move>, qb: nat)
    requires RunOk(net, moves, qb)
    ensures AllTxAllowed(SenderActs(moves), |net.a.table|)
    decreases |moves|
  {
    if moves != [] {
      var before, m := moves[..|moves| - 1], moves[|moves| - 1];
      SenderAllowed(net, before, qb);
      Projects(net, before);
      ConnKept(net.a, SenderActs(before));
    }
  }

  // ---------------------------------------------------------------- where arrivals come from

  ghost predicate Extends(wire: seq<Packet>, wire': seq<Packet>) {
    |wire| <= |wire'| && forall i :: 0 <= i < |wire| ==> wire'[i] == wire[i]
  }

  lemma WireExtends(net: Net, m: Move)
    ensures Extends(net.a.tx.wire, Step(net, m).a.tx.wire)
  {
  }

  ghost predicate CameFrom(wire: seq<Packet>, p: Arrival, src: Option<nat>, qb: nat) {
    match src
    case Some(w) => w < |wire| && p == ArrivalOf(wire[w])
    case None => p.qpn == qb ==> IsResponse(p.op)
  }

  ghost predicate AllCame(wire: seq<Packet>, ps: seq<Arrival>, srcs: seq<Option<nat>>, qb: nat) {
    |srcs| == |ps| && forall i :: 0 <= i < |ps| ==> CameFrom(wire, ps[i], srcs[i], qb)
  }

  lemma {:induction false} ArrivalsCame(net: Net, moves: seq<Move>, qb: nat)
    requires RunOk(net, moves, qb)
    ensures AllCame(Runs(net, moves).a.tx.wire, Arrived(ReceiverActs(net, moves)), Sources(net, moves), qb)
    decreases |moves|
  {
    if moves != [] {
      var before, m := moves[..|moves| - 1], moves[|moves| - 1];
      ArrivalsCame(net, before, qb);
      WireExtends(Runs(net, before), m);
      StepCame(Runs(net, before), m, ReceiverActs(net, before), Sources(net, before), qb);
    }
  }

  function ArrivalsBy(net: Net, m: Move): seq<Arrival> {
    var xs := ReceiverAct(net, m);
    if xs == [] then [] else ArrivedBy(xs[0])
  }

  lemma CameSnoc(wire: seq<Packet>, wire': seq<Packet>, ps: seq<Arrival>, srcs: seq<Option<nat>>,
                 p: seq<Arrival>, src: seq<Option<nat>>, qb: nat)
    requires AllCame(wire, ps, srcs, qb) && Extends(wire, wire') && AllCame(wire', p, src, qb)
    ensures AllCame(wire', ps + p, srcs + src, qb)
  {
    forall i | 0 <= i < |ps + p| ensures CameFrom(wire', (ps + p)[i], (srcs + src)[i], qb) {
      if i < |ps| {
        assert CameFrom(wire, ps[i], srcs[i], qb);
      } else {
        assert CameFrom(wire', p[i - |ps|], src[i - |ps|], qb);
      }
    }
  }

  lemma NewArrivalCame(net: Net, m: Move, qb: nat)
    requires m.AtReceiver? && m.act.Arrive? && m.act.packet.qpn == qb ==> IsResponse(m.act.packet.op)
    ensures AllCame(Step(net, m).a.tx.wire, ArrivalsBy(net, m), SourceOf(net, m), qb)
  {
  }

  lemma StepCame(net: Net, m: Move, acts: seq<Action>, srcs: seq<Option<nat>>, qb: nat)
    requires AllCame(net.a.tx.wire, Arrived(acts), srcs, qb) && Extends(net.a.tx.wire, Step(net, m).a.tx.wire)
    requires m.AtReceiver? && m.act.Arrive? && m.act.packet.qpn == qb ==> IsResponse(m.act.packet.op)
    ensures AllCame(Step(net, m).a.tx.wire, Arrived(acts + ReceiverAct(net, m)), srcs + SourceOf(net, m), qb)
  {
    NewArrivalCame(net, m, qb);
    CameSnoc(net.a.tx.wire, Step(net, m).a.tx.wire, Arrived(acts), srcs, ArrivalsBy(net, m), SourceOf(net, m), qb);
    ArrivedWith(net, m, acts);
  }

  lemma ArrivedWith(net: Net, m: Move, acts: seq<Action>)
    ensures Arrived(acts + ReceiverAct(net, m)) == Arrived(acts) + ArrivalsBy(net, m)
  {
    var xs := ReceiverAct(net, m);
    if xs == [] {
      assert acts + xs == acts;
    } else {
      assert xs == [xs[0]];
      Snoc(net.b, acts, xs[0]);
    }
  }

  lemma {:induction false} ReceiverAllowed(net: Net, moves: seq<Move>, qb: nat)
    requires RunOk(net, moves, qb)
    ensures AllRxAllowed(ReceiverActs(net, moves), |net.b.table|)
    decreases |moves|
  {
    if moves != [] {
      var before, m := moves[..|moves| - 1], moves[|moves| - 1];
      ReceiverAllowed(net, before, qb);
      Projects(net, before);
      ConnKept(net.b, ReceiverActs(net, before));
      NewActAllowed(Runs(net, before), m, qb);
    }
  }

  lemma NewActAllowed(net: Net, m: Move, qb: nat)
    requires MoveOk(net, m, qb)
    ensures AllRxAllowed(ReceiverAct(net, m), |net.b.table|)
  {
  }

  // ---------------------------------------------------------------- safety

  // The supported requests the sender's application submitted.
  function Requests(moves: seq<Move>): seq<LocalReq> { KeepSupported(Submitted(SenderActs(moves))) }

  ghost function PartAt(base: seq<nat>, reqs: seq<LocalReq>, resent: seq<Retransmitter.Event>,
                        items: seq<Item>, srcs: seq<Option<nat>>, i: nat): Part {
    if i < |srcs| && srcs[i].Some? && srcs[i].value < |items| then PartOf(base, reqs, resent, items[srcs[i].value].tag)
    else Nothing
  }

  // What each packet judged by the receiver stands for.
  ghost function PartsOf(net: Net, moves: seq<Move>): seq<Part> {
    var acts, srcs := SenderActs(moves), Sources(net, moves);
    var items, base := TrackOf(net.a, acts).wire, BaseOf(net.a.table);
    seq(|Runs(net, moves).b.rx.judged|,
        i requires 0 <= i < |Runs(net, moves).b.rx.judged| =>
          PartAt(base, Requests(moves), Resent(acts), items, srcs, i))
  }

  // Reads ask for something; lengths are 32-bit.
  predicate Sized(reqs: seq<LocalReq>, q: nat) {
    forall i :: 0 <= i < |reqs| && reqs[i].qpn == q ==> Pages(reqs[i]) > 0 && reqs[i].length < LEN_MOD
  }

  // What the sender's retransmissions on QP qa must be.
  ghost predicate Resuming(net: Net, moves: seq<Move>, qa: nat) {
    AllResumed(BaseOf(net.a.table), Requests(moves), qa, Resent(SenderActs(moves)))
  }

  lemma CarriedStands(conn: seq<nat>, base: seq<nat>, reqs: seq<LocalReq>, resent: seq<Retransmitter.Event>,
                      replies: Replies, p: Packet, tag: Tag, qa: nat, qb: nat)
    requires Carries(conn, base, reqs, resent, replies, p, tag) && p.dstQp == qb && !IsResponse(p.op) && qa < |base|
    requires forall q :: 0 <= q < |base| ==> (DstOf(conn, q) == qb <==> q == qa)
    requires Sized(reqs, qa)
    ensures PartOf(base, reqs, resent, tag).Part? ==>
              Stands(base, reqs, qa, ArrivalOf(p), PartOf(base, reqs, resent, tag))
    ensures AllResumed(base, reqs, qa, resent) ==> PartOf(base, reqs, resent, tag).Part?
  {
    hide NumberOf, Pages;
    if tag.New? {
      NewStands(conn, base, reqs, p, tag.k);
    } else if tag.Again? {
      assert resent[tag.i].qpn == qa;
      if Resumed(base, reqs, resent[tag.i]) {
        var part := PartOf(base, reqs, resent, tag);
        ResumptionStands(conn, base, reqs, resent[tag.i], p, part, qa);
      }
    }
  }

  lemma NewStands(conn: seq<nat>, base: seq<nat>, reqs: seq<LocalReq>, p: Packet, k: nat)
    requires Carries(conn, base, reqs, [], Replies([], []), p, New(k)) && Pages(reqs[k]) > 0
    ensures Stands(base, reqs, reqs[k].qpn, ArrivalOf(p), Part(k, 0))
  {
    hide NumberOf;
    assert p.psn % PSN_MOD == p.psn;
  }

  lemma ResumptionStands(conn: seq<nat>, base: seq<nat>, reqs: seq<LocalReq>, ev: Retransmitter.Event,
                         p: Packet, part: Part, q: nat)
    requires part.Part? && Resumes(base, reqs, ev, part.k, part.j) && ev.qpn == q && Sized(reqs, q)
    requires p == Packet(ev.entry.opCode, DstOf(conn, q), ev.entry.psn, ev.entry.remoteAddr, ev.entry.length,
                         false, false)
    ensures Stands(base, reqs, q, ArrivalOf(p), part)
  {
    hide NumberOf;
    assert (reqs[part.k].length - 0) % LEN_MOD == reqs[part.k].length;
    assert p.psn % PSN_MOD == p.psn;
  }

  // A packet that stands for part of a request carries that part.
  lemma JudgedStands(net: Net, moves: seq<Move>, qa: nat, qb: nat, i: nat)
    requires Connected(net, qa, qb) && RunOk(net, moves, qb) && Sized(Requests(moves), qa)
    requires i < |Runs(net, moves).b.rx.judged| && IsRequestOn(Runs(net, moves).b.rx.judged[i], qb)
    ensures
      var part := PartsOf(net, moves)[i];
      && (part.Part? ==>
            Stands(BaseOf(net.a.table), Requests(moves), qa, Runs(net, moves).b.rx.judged[i].packet, part))
      && (Resuming(net, moves, qa) ==> part.Part?)
  {
    var acts, rcts := SenderActs(moves), ReceiverActs(net, moves);
    var judged, wire := Runs(net, moves).b.rx.judged, Runs(net, moves).a.tx.wire;
    var items, srcs := TrackOf(net.a, acts).wire, Sources(net, moves);
    Projects(net, moves);
    SenderAllowed(net, moves, qb);
    WireInRun(net.a, acts);
    ArrivalsCame(net, moves, qb);
    JudgedInOrder(net.b, rcts);
    assert judged[i].packet == Packets(judged)[i] == Arrived(rcts)[i];
    assert CameFrom(wire, Arrived(rcts)[i], srcs[i], qb);
    var w := srcs[i].value;
    CarriedStands(net.a.conn, BaseOf(net.a.table), Requests(moves), Resent(acts), RepliesOf(acts), wire[w], items[w].tag,
                  qa, qb);
  }

  lemma JudgedStand(net: Net, moves: seq<Move>, qa: nat, qb: nat)
    requires Connected(net, qa, qb) && RunOk(net, moves, qb) && Sized(Requests(moves), qa)
    requires Resuming(net, moves, qa)
    ensures AllStand(BaseOf(net.a.table), Requests(moves), qa, Runs(net, moves).b.rx.judged, PartsOf(net, moves), qb)
  {
    var judged := Runs(net, moves).b.rx.judged;
    forall i | 0 <= i < |judged| && IsRequestOn(judged[i], qb)
      ensures Stands(BaseOf(net.a.table), Requests(moves), qa, judged[i].packet, PartsOf(net, moves)[i])
    {
      JudgedStands(net, moves, qa, qb, i);
    }
  }

  // A run in which retransmissions resume requests, and no request reaching the receiver
  // is 2^24 or more PSNs away from the one it expects.
  ghost predicate SafeRun(net: Net, moves: seq<Move>, qa: nat, qb: nat) {
    && Connected(net, qa, qb) && RunOk(net, moves, qb) && Sized(Requests(moves), qa) && Resuming(net, moves, qa)
    && InWindow(BaseOf(net.a.table), Requests(moves), qa, Runs(net, moves).b.rx.judged, PartsOf(net, moves), qb)
  }

  lemma JudgedRun(net: Net, moves: seq<Move>, qb: nat)
    requires Initial(net.b) && RunOk(net, moves, qb)
    ensures Sequential(net.b.table, Runs(net, moves).b.rx.judged)
  {
    Projects(net, moves);
    ReceiverAllowed(net, moves, qb);
    JudgedSequentially(net.b, ReceiverActs(net, moves));
  }

  lemma RunExact(net: Net, moves: seq<Move>, qa: nat, qb: nat, i: nat)
    requires SafeRun(net, moves, qa, qb) && i < |Runs(net, moves).b.rx.judged|
    ensures ExactAt(BaseOf(net.a.table), Requests(moves), qa, Runs(net, moves).b.rx.judged, PartsOf(net, moves), qb, i)
  {
    JudgedStand(net, moves, qa, qb);
    JudgedRun(net, moves, qb);
    AcceptedExactly(net.b.table, BaseOf(net.a.table), Requests(moves), qa, Runs(net, moves).b.rx.judged,
                    PartsOf(net, moves), qb, i);
  }

  // Two-node safety. Whatever the channel drops, duplicates or reorders, the requests the
  // receiver accepts as new are in every reachable state a prefix of those the sender
  // submitted on the QP.
  lemma AcceptedArePrefix(net: Net, moves: seq<Move>, qa: nat, qb: nat)
    requires SafeRun(net, moves, qa, qb)
    ensures Accepted(Runs(net, moves).b.rx.judged, PartsOf(net, moves), qb)
            <= IndexesOn(Requests(moves), |Requests(moves)|, qa)
  {
    var judged, parts, reqs := Runs(net, moves).b.rx.judged, PartsOf(net, moves), Requests(moves);
    var base := BaseOf(net.a.table);
    forall i | 0 <= i < |judged| ensures ExactAt(base, reqs, qa, judged, parts, qb, i) {
      RunExact(net, moves, qa, qb, i);
    }
    var next := AcceptsPrefix(base, reqs, qa, judged, parts, qb, |judged|);
    assert judged[..|judged|] == judged && parts[..|judged|] == parts;
    IndexesArePrefix(reqs, next, |reqs|, qa);
  }

  // In particular, while fewer than 2^24 PSNs have been submitted on the QP, however long
  // the channel holds packets back.
  lemma FewAreAcceptedInOrder(net: Net, moves: seq<Move>, qa: nat, qb: nat)
    requires Connected(net, qa, qb) && RunOk(net, moves, qb) && Sized(Requests(moves), qa)
    requires Resuming(net, moves, qa)
    requires PagesBefore(Requests(moves), |Requests(moves)|, qa) < PSN_MOD
    ensures SafeRun(net, moves, qa, qb)
    ensures Accepted(Runs(net, moves).b.rx.judged, PartsOf(net, moves), qb)
            <= IndexesOn(Requests(moves), |Requests(moves)|, qa)
  {
    JudgedStand(net, moves, qa, qb);
    JudgedRun(net, moves, qb);
    FewStayNear(net.b.table, BaseOf(net.a.table), Requests(moves), qa, Runs(net, moves).b.rx.judged,
                PartsOf(net, moves), qb);
    AcceptedArePrefix(net, moves, qa, qb);
  }

  // Without either assumption, exactly this decides: packet i is accepted as new iff its
  // PSN and the number expected agree modulo 2^24. If it stands for part of a request,
  // that is its unbounded number.
  lemma AcceptedIffCongruent(net: Net, moves: seq<Move>, qa: nat, qb: nat, i: nat)
    requires Connected(net, qa, qb) && RunOk(net, moves, qb) && Sized(Requests(moves), qa)
    requires i < |Runs(net, moves).b.rx.judged| && IsRequestOn(Runs(net, moves).b.rx.judged[i], qb)
    ensures
      var judged, part := Runs(net, moves).b.rx.judged, PartsOf(net, moves)[i];
      var expected := Expected(net.b.table[qb].respEpsn, judged[..i], qb);
      && (Accepts(judged[i], qb) <==> Congruent(judged[i].packet.psn, expected))
      && (part.Part? ==>
            && First(part) < |Requests(moves)| && Requests(moves)[First(part)].qpn == qa
            && (Accepts(judged[i], qb)
                <==> Congruent(Number(BaseOf(net.a.table), Requests(moves), part), expected)))
  {
    var judged, base, part := Runs(net, moves).b.rx.judged, BaseOf(net.a.table), PartsOf(net, moves)[i];
    JudgedStands(net, moves, qa, qb, i);
    JudgedRun(net, moves, qb);
    AcceptsIffPsn(net.b.table, judged, qb, i);
    if part.Part? {
      AcceptsIff(net.b.table, base, Requests(moves), qa, judged, part, qb, i);
    }
  }
}
