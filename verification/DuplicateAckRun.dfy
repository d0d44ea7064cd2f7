// The closed system in a run in which one acknowledgement arrives twice: every condition for
// in-order delivery is met but that acknowledgements are in turn, and the receiver accepts a
// request that was never submitted.
module DuplicateAckRun {
  import opened InfiniBand
  import Retransmitter
  import opened RetransmitterProof
  import RT = RetransmitterTheorems
  import RR = RetransmitterRuns
  import opened RequestPath
  import opened RequestPathProof
  import opened RequestPathTheorems
  import opened ReceivePathProof
  import opened ReceivePathTheorems
  import opened PsnWindow
  import opened RequestPathRuns
  import opened AcceptedPrefix
  import opened Resumption
  import opened TwoNodes
  import opened ReliableSender
  import opened ClosedLoop
  import opened TimelyAnswers
  import opened ClosedLoopRuns

  // ---------------------------------------------------------------- how far the run has got

  function AcceptCount(judged: seq<Judged>, q: nat): nat
    decreases |judged|
  {
    if judged == [] then 0
    else AcceptCount(judged[..|judged| - 1], q) + if Accepts(judged[|judged| - 1], q) then 1 else 0
  }

  // The sender's next PSN and oldest PSN not acknowledged, the updates written, the packets
  // judged at the sender; the PSN the receiver expects, and how many requests it accepted.
  datatype Progress = Progress(next: nat, unack: nat, updates: seq<Retransmitter.UpdateReq>, answers: seq<Arrival>,
                               expected: nat, accepted: nat)

  ghost predicate SenderAt(n: Node, queues: nat, qa: nat, qb: nat, handed: nat, p: Progress) {
    && Idle(n) && |n.table| == queues && qa < queues && DstOf(n.conn, qa) == qb
    && n.table[qa].reqNext == p.next < PSN_MOD && n.table[qa].reqOldUnack == p.unack < PSN_MOD
    && |n.tx.entries| == handed && n.rx.out.updates == p.updates && Packets(n.rx.judged) == p.answers
  }

  ghost predicate ReceiverAt(n: Node, qb: nat, p: Progress) {
    Idle(n) && qb < |n.table| && n.table[qb].respEpsn == p.expected && AcceptCount(n.rx.judged, qb) == p.accepted
  }

  ghost predicate Held(c: Stage, queues: nat, qa: nat, qb: nat, p: Progress) {
    && SenderAt(c.net.a, queues, qa, qb, c.handed, p) && ReceiverAt(c.net.b, qb, p) && c.updated == |p.updates|
  }

  ghost predicate Stops(sys: System, acts: seq<Act>, qa: nat, qb: nat, c: Stage, xs: seq<Retransmitter.Action>,
                        log: seq<Op>, p: Progress) {
    && Reaches(sys, acts, qa, qb, c, xs) && Rests(sys.rt, xs, log) && Held(c, |sys.rt.sv.ptrs|, qa, qb, p)
  }

  // ---------------------------------------------------------------- a request is sent, inserted and delivered

  function NextPsn(psn: nat, r: LocalReq): nat { (psn + NumPkg(r.op, r.length)) % PSN_MOD }

  function EntryFor(q: nat, psn: nat, r: LocalReq): InsertReq { EntryOf(RetransMeta(q, psn, r.op), AddressesOf(r)) }

  lemma SentAt(n: Node, queues: nat, qa: nat, qb: nat, handed: nat, p: Progress, r: LocalReq)
    requires SenderAt(n, queues, qa, qb, handed, p) && r.qpn == qa && Idle(Sent(n, r))
    ensures SenderAt(Sent(n, r), queues, qa, qb, handed + 1, p.(next := NextPsn(p.next, r)))
    ensures Sent(n, r).tx.entries[handed] == EntryFor(qa, p.next, r)
    ensures
      var wire := Sent(n, r).tx.wire;
      |wire| == |n.tx.wire| + 1 && wire[|n.tx.wire|] == Packet(r.op, qb, p.next, r.raddr, r.length, false, true)
  {
    hide Idle;
  }

  lemma TookRequest(n: Node, qb: nat, p: Progress, packet: Packet)
    requires ReceiverAt(n, qb, p) && packet.dstQp == qb && !IsResponse(packet.op) && packet.psn == p.expected < PSN_MOD
    requires Idle(Took(n, ArrivalOf(packet)))
    ensures
      ReceiverAt(Took(n, ArrivalOf(packet)), qb,
                 p.(expected := (packet.psn + NumPkg(packet.op, packet.length)) % PSN_MOD, accepted := p.accepted + 1))
  {
    hide Idle, Emitted, Joined;
    var a := ArrivalOf(packet);
    var seen := SeenBy(n, a);
    var judged := n.rx.judged + [Judged(a, seen)];
    assert judged[..|n.rx.judged|] == n.rx.judged && judged[|n.rx.judged|] == Judged(a, seen);
    OneWrite(n.table[qb], a, seen);
  }

  lemma Delivers(sys: System, acts: seq<Act>, qa: nat, qb: nat, c: Stage, xs: seq<Retransmitter.Action>,
                 log: seq<Op>, p: Progress, r: LocalReq)
    returns (acts': seq<Act>, c': Stage, xs': seq<Retransmitter.Action>)
    requires Stops(sys, acts, qa, qb, c, xs, log, p) && p.next == p.expected
    requires Supported(r.op) && SubmitOk(r, |sys.rt.sv.ptrs|) && r.qpn == qa && |Inserts(log)| < |sys.rt.sv.nodes|
    ensures
      Stops(sys, acts', qa, qb, c', xs', log + [Op.Insert(EntryFor(qa, p.next, r))],
            p.(next := NextPsn(p.next, r), expected := NextPsn(p.next, r), accepted := p.accepted + 1))
    ensures c'.reqs == c.reqs + [r] && c'.returned == c.returned
  {
    hide Inserts, Reaches, Rests, SubmitOk, Idle, Sent, Took, Replay;
    var queues, i := |sys.rt.sv.ptrs|, |c.net.a.tx.wire|;
    acts' := SubmitOne(sys, acts, qa, qb, c, xs, r);
    SentAt(c.net.a, queues, qa, qb, c.handed, p, r);
    var c1 := With(c, true, Sent(c.net.a, r)).(reqs := c.reqs + [r]);
    acts', xs' := TakesOp(sys, acts', qa, qb, c1, xs, log, HandEntry, Op.Insert(EntryFor(qa, p.next, r)));
    var c2 := HandedOn(c1, HandEntry);
    var packet := c2.net.a.tx.wire[i];
    acts' := DeliverOne(sys, acts', qa, qb, c2, xs', i);
    TookRequest(c2.net.b, qb, p, packet);
    c' := With(c2, false, Took(c2.net.b, ArrivalOf(packet)));
  }

  // ---------------------------------------------------------------- a response arrives

  function Response(op: OpCode, q: nat, psn: nat): Arrival { Arrival(op, q, psn, false, 1) }

  function UpdateFor(a: Arrival): Retransmitter.UpdateReq { Retransmitter.UpdateReq(a.qpn, a.psn, a.op) }

  // In turn, it moves the oldest PSN not acknowledged; an acknowledgement outside the window
  // does not. Either way it is an update.
  ghost predicate Turns(p: Progress, a: Arrival, unack: nat) {
    || (a.psn == p.unack && unack == (p.unack + 1) % PSN_MOD)
    || (a.op == Ack && unack == p.unack && !InAckWindow(p.unack, a.psn, (p.next - 1) % PSN_MOD))
  }

  lemma TookResponse(n: Node, queues: nat, qa: nat, qb: nat, handed: nat, p: Progress, a: Arrival, unack: nat)
    requires SenderAt(n, queues, qa, qb, handed, p) && a == Response(a.op, qa, a.psn) && Idle(Took(n, a))
    requires IsResponse(a.op) && Turns(p, a, unack)
    ensures
      SenderAt(Took(n, a), queues, qa, qb, handed,
               p.(unack := unack, updates := p.updates + [UpdateFor(a)], answers := p.answers + [a]))
  {
    hide Idle;
    var seen := SeenBy(n, a);
    OneWrite(n.table[qa], a, seen);
    assert Packets(n.rx.judged + [Judged(a, seen)]) == Packets(n.rx.judged) + [a];
  }

  lemma Answers(sys: System, acts: seq<Act>, qa: nat, qb: nat, c: Stage, xs: seq<Retransmitter.Action>,
                log: seq<Op>, p: Progress, a: Arrival, unack: nat)
    returns (acts': seq<Act>, c': Stage, xs': seq<Retransmitter.Action>)
    requires Stops(sys, acts, qa, qb, c, xs, log, p) && WellFormed(a)
    requires a == Response(a.op, qa, a.psn) && IsResponse(a.op) && Turns(p, a, unack)
    ensures
      Stops(sys, acts', qa, qb, c', xs', log + [Update(UpdateFor(a))],
            p.(unack := unack, updates := p.updates + [UpdateFor(a)], answers := p.answers + [a]))
    ensures c'.reqs == c.reqs && c'.returned == c.returned
  {
    hide Inserts, Reaches, Rests, Idle, Took, Replay, Turns;
    acts' := AnswerOne(sys, acts, qa, qb, c, xs, a);
    TookResponse(c.net.a, |sys.rt.sv.ptrs|, qa, qb, c.handed, p, a, unack);
    var c1 := With(c, true, Took(c.net.a, a));
    acts', xs' := TakesOp(sys, acts', qa, qb, c1, xs, log, HandUpdate, Update(UpdateFor(a)));
    c' := HandedOn(c1, HandUpdate);
  }

  // ---------------------------------------------------------------- a timeout, and the packet sent again

  lemma TimesOut(sys: System, acts: seq<Act>, qa: nat, qb: nat, c: Stage, xs: seq<Retransmitter.Action>,
                 log: seq<Op>, p: Progress)
    returns (acts': seq<Act>, xs': seq<Retransmitter.Action>)
    requires Stops(sys, acts, qa, qb, c, xs, log, p)
    ensures Stops(sys, acts', qa, qb, c, xs', log + [Timeout(Retransmitter.RetransReq(qa, 0))], p)
  {
    hide Inserts, Reaches, Rests, Idle, Replay;
    var t := Retransmitter.RetransReq(qa, 0);
    acts', xs' := TakesOp(sys, acts, qa, qb, c, xs, log, OnRetransmitter(Retransmitter.OfferTimeout(t)), Timeout(t));
    assert HandedOn(c, OnRetransmitter(Retransmitter.OfferTimeout(t))) == c;
  }

  lemma SentAgainAt(n: Node, queues: nat, qa: nat, qb: nat, handed: nat, p: Progress, ev: Retransmitter.Event)
    requires SenderAt(n, queues, qa, qb, handed, p) && ev.qpn == qa && Idle(SentAgain(n, ev))
    ensures SenderAt(SentAgain(n, ev), queues, qa, qb, handed, p)
    ensures
      var wire, e := SentAgain(n, ev).tx.wire, ev.entry;
      |wire| == |n.tx.wire| + 1 && wire[|n.tx.wire|] == Packet(e.opCode, qb, e.psn, e.remoteAddr, e.length, false, false)
  {
    hide Idle;
  }

  // The event goes back to the transmit path, out on the wire and to the receiver.
  lemma SendsAgain(sys: System, acts: seq<Act>, qa: nat, qb: nat, c: Stage, xs: seq<Retransmitter.Action>,
                   log: seq<Op>, p: Progress, ev: Retransmitter.Event)
    returns (acts': seq<Act>, c': Stage)
    requires Stops(sys, acts, qa, qb, c, xs, log, p) && c.returned == 0
    requires Retransmitter.Run(sys.rt, xs).events == [ev] && ev.qpn == qa
    requires !IsResponse(ev.entry.opCode) && ev.entry.psn == p.expected < PSN_MOD
    ensures Reaches(sys, acts', qa, qb, c', xs) && c'.reqs == c.reqs
    ensures AcceptCount(c'.net.b.rx.judged, qb) == p.accepted + 1 && Packets(c'.net.a.rx.judged) == p.answers
    ensures c'.net.a.rx.out.updates == p.updates
  {
    hide Reaches, Rests, Idle, Took, SentAgain, Retransmitter.Run;
    var i := |c.net.a.tx.wire|;
    acts' := ResendOne(sys, acts, qa, qb, c, xs);
    SentAgainAt(c.net.a, |sys.rt.sv.ptrs|, qa, qb, c.handed, p, ev);
    var c1 := With(c, true, SentAgain(c.net.a, ev)).(returned := 1);
    acts' := DeliverOne(sys, acts', qa, qb, c1, xs, i);
    TookRequest(c1.net.b, qb, p, c1.net.a.tx.wire[i]);
    c' := With(c1, false, Took(c1.net.b, ArrivalOf(c1.net.a.tx.wire[i])));
  }

  // ---------------------------------------------------------------- the steps of the run

  function Psn(base: nat, i: nat): nat { (base + i) % PSN_MOD }

  function SmallWrite(q: nat): LocalReq { LocalReq(WriteOnly, q, 0, 0, 64, false, 0) }

  function LongRead(q: nat): LocalReq { LocalReq(ReadRequest, q, 0, 0, 3 * PMTU, false, 0) }

  function Submissions(q: nat): seq<LocalReq> { [SmallWrite(q), LongRead(q), SmallWrite(q)] }

  // The second acknowledgement is the first one again.
  function Responses(q: nat, base: nat): seq<Arrival> {
    [Response(Ack, q, Psn(base, 0)), Response(ReadRespFirst, q, Psn(base, 1)), Response(Ack, q, Psn(base, 0)),
     Response(ReadRespMiddle, q, Psn(base, 2))]
  }

  lemma PsnOf(base: nat, i: nat, k: nat)
    ensures (Psn(base, i) + k) % PSN_MOD == Psn(base, i + k)
  {
    AddMod(base + i, k);
  }

  // The first three steps are the requests, the next four the responses.
  function OpAt(q: nat, base: nat, k: nat): Op
    requires k < 7
  {
    if k < 3 then Op.Insert(RR.Given(q, base)[k]) else Update(UpdateFor(Responses(q, base)[k - 3]))
  }

  function LogAt(q: nat, base: nat, k: nat): seq<Op>
    requires k <= 7
    decreases k
  {
    if k == 0 then [] else LogAt(q, base, k - 1) + [OpAt(q, base, k - 1)]
  }

  function Sent3(k: nat): nat { if k < 3 then k else 3 }

  // PSNs sent and PSNs acknowledged after k steps.
  function NextAt(k: nat): nat { if k < 2 then k else if k == 2 then 4 else 5 }

  function UnackAt(k: nat): nat { if k < 4 then 0 else if k == 4 then 1 else if k < 7 then 2 else 3 }

  function UpdatesFor(answers: seq<Arrival>): seq<Retransmitter.UpdateReq> {
    seq(|answers|, i requires 0 <= i < |answers| => UpdateFor(answers[i]))
  }

  function ProgressAt(q: nat, base: nat, k: nat): Progress
    requires k <= 7
  {
    var answers := Responses(q, base)[..k - Sent3(k)];
    Progress(Psn(base, NextAt(k)), Psn(base, UnackAt(k)), UpdatesFor(answers), answers, Psn(base, NextAt(k)), Sent3(k))
  }

  ghost predicate Passes(sys: System, acts: seq<Act>, qa: nat, qb: nat, c: Stage, xs: seq<Retransmitter.Action>, k: nat)
    requires qa < |sys.net.a.table| && k <= 7
  {
    var base := sys.net.a.table[qa].reqNext;
    && Stops(sys, acts, qa, qb, c, xs, LogAt(qa, base, k), ProgressAt(qa, base, k))
    && c.reqs == Submissions(qa)[..Sent3(k)] && c.returned == 0
  }

  lemma Begins(sys: System, qa: nat, qb: nat)
    requires PowerUp(sys, qa, qb)
    ensures Passes(sys, [], qa, qb, Stage(sys.net, [], 0, 0, 0), [], 0)
  {
    Starts(sys, qa, qb);
    assert IsSetup(sys.net.a.table[qa]);
    hide Reaches, Rests;
    assert Packets(sys.net.a.rx.judged) == [];
  }

  // ---------------------------------------------------------------- the requests

  lemma RequestAt(q: nat, base: nat, k: nat)
    requires k < 3
    ensures
      var r, p := Submissions(q)[k], ProgressAt(q, base, k);
      && Supported(r.op) && r.qpn == q && p.next == p.expected
      && OpAt(q, base, k) == Op.Insert(EntryFor(q, p.next, r))
      && ProgressAt(q, base, k + 1)
         == p.(next := NextPsn(p.next, r), expected := NextPsn(p.next, r), accepted := p.accepted + 1)
  {
    PsnOf(base, 0, 1);
    PsnOf(base, 1, 3);
    PsnOf(base, 4, 1);
  }

  lemma {:induction false} InsertsAt(q: nat, base: nat, k: nat)
    requires k <= 7
    ensures |Inserts(LogAt(q, base, k))| == Sent3(k)
    decreases k
  {
    if k > 0 {
      InsertsAt(q, base, k - 1);
      InsertsAre(LogAt(q, base, k - 1), OpAt(q, base, k - 1));
    }
  }

  lemma RequestNext(sys: System, acts: seq<Act>, qa: nat, qb: nat, c: Stage, xs: seq<Retransmitter.Action>, k: nat)
    returns (acts': seq<Act>, c': Stage, xs': seq<Retransmitter.Action>)
    requires qa < |sys.net.a.table| == |sys.rt.sv.ptrs| && |sys.rt.sv.nodes| >= 3 && k < 3
    requires Passes(sys, acts, qa, qb, c, xs, k)
    ensures Passes(sys, acts', qa, qb, c', xs', k + 1)
  {
    var base := sys.net.a.table[qa].reqNext;
    RequestAt(qa, base, k);
    InsertsAt(qa, base, k);
    OneMoreSubmission(qa, k);
    hide Stops, ProgressAt, OpAt, Inserts, EntryFor, NextPsn, Submissions, Supported;
    acts', c', xs' := Delivers(sys, acts, qa, qb, c, xs, LogAt(qa, base, k), ProgressAt(qa, base, k), Submissions(qa)[k]);
  }

  lemma OneMoreSubmission(q: nat, k: nat)
    requires k < 3
    ensures |Submissions(q)| == 3 && Submissions(q)[..k] + [Submissions(q)[k]] == Submissions(q)[..k + 1]
  {
  }

  // ---------------------------------------------------------------- the responses

  lemma AheadOf(base: nat, i: nat, j: nat)
    requires i < PSN_MOD && j < PSN_MOD
    ensures Ahead(Psn(base, i), Psn(base, j)) == (j - i) % PSN_MOD
  {
    assert (base + j - (base + i)) % PSN_MOD == (j - i) % PSN_MOD;
  }

  // The repeated acknowledgement is outside the window from the third PSN to the last sent.
  lemma OutsideWindow(base: nat)
    ensures !InAckWindow(Psn(base, 2), Psn(base, 0), (Psn(base, 5) - 1) % PSN_MOD)
  {
    PsnOf(base, 4, 1);
    AckTestCyclic(Psn(base, 2), Psn(base, 0), Psn(base, 4));
    AheadOf(base, 2, 0);
    AheadOf(base, 2, 4);
  }

  lemma TurnAt(q: nat, base: nat, k: nat)
    requires 3 <= k < 7
    ensures Turns(ProgressAt(q, base, k), Responses(q, base)[k - 3], Psn(base, UnackAt(k + 1)))
  {
    PsnOf(base, 0, 1);
    PsnOf(base, 1, 1);
    PsnOf(base, 2, 1);
    OutsideWindow(base);
  }

  lemma ResponseAt(q: nat, base: nat, k: nat)
    requires 3 <= k < 7
    ensures
      var a, p := Responses(q, base)[k - 3], ProgressAt(q, base, k);
      && WellFormed(a) && a == Response(a.op, q, a.psn) && IsResponse(a.op) && OpAt(q, base, k) == Update(UpdateFor(a))
      && ProgressAt(q, base, k + 1)
         == p.(unack := Psn(base, UnackAt(k + 1)), updates := p.updates + [UpdateFor(a)], answers := p.answers + [a])
  {
    var rs, n := Responses(q, base), k - 3;
    assert rs[..n] + [rs[n]] == rs[..n + 1];
    assert UpdatesFor(rs[..n]) + [UpdateFor(rs[n])] == UpdatesFor(rs[..n + 1]);
  }

  lemma ResponseNext(sys: System, acts: seq<Act>, qa: nat, qb: nat, c: Stage, xs: seq<Retransmitter.Action>, k: nat)
    returns (acts': seq<Act>, c': Stage, xs': seq<Retransmitter.Action>)
    requires qa < |sys.net.a.table| && 3 <= k < 7 && Passes(sys, acts, qa, qb, c, xs, k)
    ensures Passes(sys, acts', qa, qb, c', xs', k + 1)
  {
    var base := sys.net.a.table[qa].reqNext;
    ResponseAt(qa, base, k);
    TurnAt(qa, base, k);
    hide Stops, ProgressAt, OpAt, Turns, Responses, UpdateFor, Response;
    acts', c', xs' := Answers(sys, acts, qa, qb, c, xs, LogAt(qa, base, k), ProgressAt(qa, base, k),
                              Responses(qa, base)[k - 3], Psn(base, UnackAt(k + 1)));
  }

  lemma {:induction false} Passing(sys: System, qa: nat, qb: nat, k: nat)
    returns (acts: seq<Act>, c: Stage, xs: seq<Retransmitter.Action>)
    requires PowerUp(sys, qa, qb) && |sys.rt.sv.nodes| >= 3 && k <= 7
    ensures Passes(sys, acts, qa, qb, c, xs, k)
    decreases k
  {
    assert qa < |sys.net.a.table| == |sys.rt.sv.ptrs|;
    if k == 0 {
      Begins(sys, qa, qb);
      acts, c, xs := [], Stage(sys.net, [], 0, 0, 0), [];
    } else {
      acts, c, xs := Passing(sys, qa, qb, k - 1);
      hide PowerUp, Passes;
      if k <= 3 {
        acts, c, xs := RequestNext(sys, acts, qa, qb, c, xs, k - 1);
      } else {
        acts, c, xs := ResponseNext(sys, acts, qa, qb, c, xs, k - 1);
      }
    }
  }

  // ---------------------------------------------------------------- what comes of it

  lemma LogIs(q: nat, base: nat)
    ensures LogAt(q, base, 7) + [Timeout(Retransmitter.RetransReq(q, 0))] == RR.DuplicateAck(q, base)
  {
    var given := RR.Given(q, base);
    assert LogAt(q, base, 3) == LogAt(q, base, 2) + [Op.Insert(given[2])];
    assert LogAt(q, base, 2) == LogAt(q, base, 1) + [Op.Insert(given[1])];
    assert LogAt(q, base, 1) == LogAt(q, base, 0) + [Op.Insert(given[0])];
    assert LogAt(q, base, 3) == RR.Inserting(q, base);
    hide RR.Inserting;
    assert LogAt(q, base, 4) == LogAt(q, base, 3) + [Update(RR.AckFor(q, base))];
    assert LogAt(q, base, 5) == LogAt(q, base, 4) + [Update(RR.PageFor(q, base, 0))];
    assert LogAt(q, base, 6) == LogAt(q, base, 5) + [Update(RR.AckFor(q, base))];
    assert LogAt(q, base, 7) == LogAt(q, base, 6) + [Update(RR.PageFor(q, base, 1))];
  }

  lemma AllPassed(sys: System, qa: nat, qb: nat)
    returns (acts: seq<Act>, c: Stage, xs: seq<Retransmitter.Action>, p: Progress)
    requires PowerUp(sys, qa, qb) && |sys.rt.sv.nodes| >= 3
    ensures
      var base := sys.net.a.table[qa].reqNext;
      && Stops(sys, acts, qa, qb, c, xs, LogAt(qa, base, 7), p) && c.reqs == Submissions(qa) && c.returned == 0
      && p.answers == Responses(qa, base) && p.updates == UpdatesFor(p.answers)
      && p.accepted == 3 && p.expected == Psn(base, 5)
  {
    var base := sys.net.a.table[qa].reqNext;
    acts, c, xs := Passing(sys, qa, qb, 7);
    p := ProgressAt(qa, base, 7);
    hide PowerUp, Stops, LogAt, Psn;
    assert Submissions(qa)[..3] == Submissions(qa) && Responses(qa, base)[..4] == Responses(qa, base);
  }

  // The run ends with four requests accepted and three submitted.
  lemma AcceptsFour(sys: System, qa: nat, qb: nat)
    returns (acts: seq<Act>, c: Stage, xs: seq<Retransmitter.Action>)
    requires PowerUp(sys, qa, qb) && |sys.rt.sv.nodes| >= 3
    ensures
      var base := sys.net.a.table[qa].reqNext;
      && Reaches(sys, acts, qa, qb, c, xs) && RT.TrackOf(sys.rt, xs).log == RR.DuplicateAck(qa, base)
      && c.reqs == Submissions(qa) && AcceptCount(c.net.b.rx.judged, qb) == 4
      && Packets(c.net.a.rx.judged) == Responses(qa, base)
      && c.net.a.rx.out.updates == UpdatesFor(Responses(qa, base))
  {
    var base := sys.net.a.table[qa].reqNext;
    assert Retransmitter.Initial(sys.rt) && qa < |sys.rt.sv.ptrs|;
    hide PowerUp, Stops, LogAt, RR.DuplicateAck, Submissions, Responses, Retransmitter.Initial, Retransmitter.Advance,
      Psn, AcceptCount;
    var p;
    acts, c, xs, p := AllPassed(sys, qa, qb);
    LogIs(qa, base);
    acts, xs := TimesOut(sys, acts, qa, qb, c, xs, LogAt(qa, base, 7), p);
    StopsRests(sys, acts, qa, qb, c, xs, RR.DuplicateAck(qa, base), p);
    ForeignEvent(sys, xs, qa, base);
    PsnOf(base, 5, 0);
    var ev := Retransmitter.Event(qa, Retransmitter.Advance(RR.LastEntry(base)));
    acts, c := SendsAgain(sys, acts, qa, qb, c, xs, RR.DuplicateAck(qa, base), p, ev);
  }

  lemma StopsRests(sys: System, acts: seq<Act>, qa: nat, qb: nat, c: Stage, xs: seq<Retransmitter.Action>,
                   log: seq<Op>, p: Progress)
    requires Stops(sys, acts, qa, qb, c, xs, log, p)
    ensures Rests(sys.rt, xs, log)
  {
    hide Rests, Reaches, Held;
  }

  lemma ForeignEvent(sys: System, xs: seq<Retransmitter.Action>, q: nat, base: nat)
    requires Retransmitter.Initial(sys.rt) && q < |sys.rt.sv.ptrs| && Rests(sys.rt, xs, RR.DuplicateAck(q, base))
    ensures
      var ev := Retransmitter.Event(q, Retransmitter.Advance(RR.LastEntry(base)));
      && Retransmitter.Run(sys.rt, xs).events == [ev] && RT.TrackOf(sys.rt, xs).log == RR.DuplicateAck(q, base)
      && ev.entry.opCode == WriteOnly && ev.entry.psn == Psn(base, 5)
  {
    hide RR.DuplicateAck, Replay, RT.TrackOf, Retransmitter.Run, Retransmitter.Initial;
    RR.ReplayDuplicate(|sys.rt.sv.ptrs|, q, base);
    RR.ForeignFields(base);
    RR.EventsAtRest(sys.rt, xs);
  }

  lemma {:induction false} AcceptedAreCounted(judged: seq<Judged>, parts: seq<Part>, q: nat)
    requires |parts| == |judged|
    ensures |Accepted(judged, parts, q)| == AcceptCount(judged, q)
    decreases |judged|
  {
    if judged != [] { AcceptedAreCounted(judged[..|judged| - 1], parts[..|judged| - 1], q); }
  }

  lemma {:induction false} IndexesAreFew(reqs: seq<LocalReq>, k: nat, q: nat)
    requires k <= |reqs|
    ensures |IndexesOn(reqs, k, q)| <= k
    decreases k
  {
    if k > 0 { IndexesAreFew(reqs, k - 1, q); }
  }

  lemma SubmissionsAre(q: nat)
    ensures
      var reqs := Submissions(q);
      && AllSupported(reqs) && KeepSupported(reqs) == reqs && Ranges(reqs, q) && Sized(reqs, q)
      && PagesBefore(reqs, 0, q) == 0 && PagesBefore(reqs, 1, q) == 1 && PagesBefore(reqs, 2, q) == 4
      && PagesBefore(reqs, 3, q) == 5 && |reqs| == 3
  {
    AllKept(Submissions(q));
  }

  lemma SameOffset(base: nat, i: nat, n: nat)
    requires i < 5 && n < 5 && Psn(base, i) == Psn(base, n)
    ensures i == n
  {
    assert (base + i - (base + n)) % PSN_MOD == 0;
  }

  lemma ResponseFits(base: seq<nat>, q: nat, i: nat)
    requires q < |base| && i < 4
    ensures
      var a := Responses(q, base[q])[i];
      a.numPkg == 1 && Fits(base, Submissions(q), q, a.psn, a.op)
  {
    var a, reqs, n := Responses(q, base[q])[i], Submissions(q), if i == 1 then 1 else if i == 3 then 2 else 0;
    SubmissionsAre(q);
    forall k: nat, j: nat | Covers(base, reqs, q, a.psn, k, j)
      ensures Retransmitter.KeepsEntry(a.op) <==> reqs[k].op.ReadRequest? && j + 1 < Pages(reqs[k])
    {
      SameOffset(base[q], PagesBefore(reqs, k, q) + j, n);
    }
  }

  // Every condition of in-order delivery is met but that acknowledgements are in turn, and
  // what the receiver accepts is no prefix of what was submitted.
  lemma DuplicateBreaksDelivery(sys: System, qa: nat, qb: nat) returns (acts: seq<Act>)
    requires PowerUp(sys, qa, qb) && |sys.rt.sv.nodes| >= 3
    ensures ActsOk(sys, acts, qb) && Closed(acts) && NoneEarly(|sys.rt.sv.ptrs|, LogOf(sys, acts), qa)
    ensures
      var reqs := Requests(Moves(sys, acts));
      && AllSupported(Submitted(SenderActs(Moves(sys, acts)))) && Ranges(reqs, qa) && Sized(reqs, qa)
      && PagesBefore(reqs, |reqs|, qa) == 5
    ensures
      var judged := Runs(sys.net, Moves(sys, acts)).a.rx.judged;
      && Packets(judged) == Responses(qa, sys.net.a.table[qa].reqNext)
      && Runs(sys.net, Moves(sys, acts)).a.rx.out.updates == UpdatesFor(Packets(judged))
      && forall i :: 0 <= i < |judged| ==>
           && judged[i].packet.numPkg == 1
           && Fits(BaseOf(sys.net.a.table), Requests(Moves(sys, acts)), qa, judged[i].packet.psn, judged[i].packet.op)
    ensures LogOf(sys, acts) == RR.DuplicateAck(qa, sys.net.a.table[qa].reqNext)
    ensures !(Accepted(Runs(sys.net, Moves(sys, acts)).b.rx.judged, PartsOf(sys.net, Moves(sys, acts)), qb)
              <= IndexesOn(Requests(Moves(sys, acts)), |Requests(Moves(sys, acts))|, qa))
    ensures !AllInTurn(Runs(sys.net, Moves(sys, acts)).a.rx.judged, qa)
  {
    var base, c, xs := BaseOf(sys.net.a.table), Stage(sys.net, [], 0, 0, 0), [];
    acts, c, xs := AcceptsFour(sys, qa, qb);
    hide PowerUp, Replay, Inserts, TimelyOn, RR.Playable, NoneEarly, RR.DuplicateAck, Fits, Responses, Submissions, Runs,
      Operate, Accepted, AcceptCount, IndexesOn, Packets, PagesBefore, Sized, Ranges, Releases;
    var moves := Moves(sys, acts);
    Parts(sys, acts);
    RR.ReplayDuplicate(|sys.rt.sv.ptrs|, qa, base[qa]);
    SubmissionsAre(qa);
    AnswersFit(base, Runs(sys.net, moves).a.rx.judged, qa);
    TooMany(Runs(sys.net, moves).b.rx.judged, PartsOf(sys.net, moves), Requests(moves), qa, qb);
    hide ActsOk, Closed, LogOf, Moves, Requests, AllSupported, Reaches;
    if AllInTurn(Runs(sys.net, moves).a.rx.judged, qa) {
      ClosedLoopDelivers(sys, acts, qa, qb);
      assert false;
    }
  }

  lemma AnswersFit(base: seq<nat>, judged: seq<Judged>, q: nat)
    requires q < |base| && Packets(judged) == Responses(q, base[q])
    ensures forall i :: 0 <= i < |judged| ==>
              judged[i].packet.numPkg == 1 && Fits(base, Submissions(q), q, judged[i].packet.psn, judged[i].packet.op)
  {
    forall i | 0 <= i < |judged|
      ensures judged[i].packet.numPkg == 1
      ensures Fits(base, Submissions(q), q, judged[i].packet.psn, judged[i].packet.op)
    {
      assert judged[i].packet == Packets(judged)[i];
      ResponseFits(base, q, i);
    }
  }

  lemma TooMany(judged: seq<Judged>, parts: seq<Part>, reqs: seq<LocalReq>, qa: nat, qb: nat)
    requires |parts| == |judged| && AcceptCount(judged, qb) > |reqs|
    ensures !(Accepted(judged, parts, qb) <= IndexesOn(reqs, |reqs|, qa))
  {
    AcceptedAreCounted(judged, parts, qb);
    IndexesAreFew(reqs, |reqs|, qa);
  }
}
