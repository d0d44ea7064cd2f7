// Whether the read response that asks for a local address gets the one of the read it
// answers: the retransmitter writes addresses for FIRST and ONLY updates, rx_exh_fsm takes
// one for each FIRST or ONLY header it is passed.
module ReadAddresses {
  import opened InfiniBand
  import Retransmitter
  import opened RetransmitterProof
  import RT = RetransmitterTheorems
  import opened RequestPath
  import opened RequestPathProof
  import opened RequestPathTheorems
  import opened ReceivePathProof
  import opened ReceivePathTheorems
  import opened AcceptedPrefix
  import ReadTransfer
  import opened Resumption
  import opened TwoNodes
  import opened ReliableSender
  import opened ClosedLoop
  import opened TimelyAnswers
  import RI = RetransmitterInits

  // ---------------------------------------------------------------- headers and updates

  // The headers for which rx_exh_fsm takes an address, in order.
  function AddressTakers(headers: seq<Arrival>): seq<Arrival>
    decreases |headers|
  {
    if headers == [] then []
    else
      var h := headers[|headers| - 1];
      AddressTakers(headers[..|headers| - 1]) + if h.op.ReadRespFirst? || h.op.ReadRespOnly? then [h] else []
  }

  function StartOps(ops: seq<Op>): seq<Retransmitter.UpdateReq>
    decreases |ops|
  {
    if ops == [] then []
    else
      var op := ops[|ops| - 1];
      StartOps(ops[..|ops| - 1]) + if op.Update? && RI.Starts(op.u.opCode) then [op.u] else []
  }

  function UpdateOfHeader(h: Arrival): Retransmitter.UpdateReq { Retransmitter.UpdateReq(h.qpn, h.psn, h.op) }

  function UpdatesOfHeaders(hs: seq<Arrival>): seq<Retransmitter.UpdateReq> {
    seq(|hs|, i requires 0 <= i < |hs| => UpdateOfHeader(hs[i]))
  }

  // Headers that take an address although they are NAKs.
  function RefusedTakers(headers: seq<Arrival>): nat
    decreases |headers|
  {
    if headers == [] then 0
    else
      var h := headers[|headers| - 1];
      RefusedTakers(headers[..|headers| - 1]) + if (h.op.ReadRespFirst? || h.op.ReadRespOnly?) && h.isNak then 1 else 0
  }

  lemma TakersSnoc(headers: seq<Arrival>, h: Arrival)
    ensures AddressTakers(headers + [h])
            == AddressTakers(headers) + if h.op.ReadRespFirst? || h.op.ReadRespOnly? then [h] else []
    ensures RefusedTakers(headers + [h])
            == RefusedTakers(headers) + if (h.op.ReadRespFirst? || h.op.ReadRespOnly?) && h.isNak then 1 else 0
  {
    assert (headers + [h])[..|headers|] == headers;
  }

  lemma StartOpsSnoc(ops: seq<Op>, op: Op)
    ensures StartOps(ops + [op]) == StartOps(ops) + if op.Update? && RI.Starts(op.u.opCode) then [op.u] else []
  {
    assert (ops + [op])[..|ops|] == ops;
  }

  // What the receive path has asked for.
  function Asked(judged: seq<Judged>): seq<Retransmitter.UpdateReq> {
    StartOps(UpdateOps(OutputsOf(judged).updates))
  }

  lemma AskedStep(judged: seq<Judged>)
    requires judged != []
    ensures
      var j := judged[|judged| - 1];
      Asked(judged) == Asked(judged[..|judged| - 1])
                       + if Releases(j, j.packet.qpn) && RI.Starts(j.packet.op) then [UpdateFrom(j)] else []
  {
    hide Emitted, Releases;
    var before, j := OutputsOf(judged[..|judged| - 1]).updates, judged[|judged| - 1];
    WritesUpdate(j);
    if Releases(j, j.packet.qpn) {
      UpdateOpsSnoc(before, UpdateFrom(j));
      StartOpsSnoc(UpdateOps(before), Update(UpdateFrom(j)));
    } else {
      assert before + [] == before;
    }
  }

  lemma TakersStep(judged: seq<Judged>)
    requires judged != []
    ensures
      var before, j := OutputsOf(judged[..|judged| - 1]).headers, judged[|judged| - 1];
      var takes := RI.Starts(j.packet.op) && Verdicts(j) == Forward;
      && AddressTakers(OutputsOf(judged).headers) == AddressTakers(before) + (if takes then [j.packet] else [])
      && RefusedTakers(OutputsOf(judged).headers) == RefusedTakers(before) + if takes && j.packet.isNak then 1 else 0
  {
    var before, j := OutputsOf(judged[..|judged| - 1]).headers, judged[|judged| - 1];
    var more := Emitted(j.packet, j.seen).headers;
    HeadersOf(j);
    hide Emitted, OutputsOf;
    if more == [] {
      assert before + more == before;
    } else {
      assert more == [j.packet];
      TakersSnoc(before, j.packet);
    }
  }

  // Read requests are passed on without being in sequence, responses never.
  lemma HeadersOf(j: Judged)
    ensures
      var headers := Emitted(j.packet, j.seen).headers;
      && (headers == [] || headers == [j.packet])
      && (RI.Starts(j.packet.op) ==> (headers != [] <==> Verdicts(j) == Forward))
  {
  }

  // Every header that takes an address has asked for one, unless it is a NAK: then it takes
  // the next read's.
  lemma {:induction false} TakersAsk(judged: seq<Judged>)
    ensures
      var headers := OutputsOf(judged).headers;
      && |AddressTakers(headers)| == |Asked(judged)| + RefusedTakers(headers)
      && (RefusedTakers(headers) == 0 ==> Asked(judged) == UpdatesOfHeaders(AddressTakers(headers)))
    decreases |judged|
  {
    if judged != [] {
      hide OutputsOf, AddressTakers, RefusedTakers, Asked, UpdatesOfHeaders;
      var j, before := judged[|judged| - 1], judged[..|judged| - 1];
      TakersAsk(before);
      AskedStep(judged);
      TakersStep(judged);
      WhoAsks(j);
      hide Releases, RI.Starts, Verdicts;
      var takers := AddressTakers(OutputsOf(before).headers);
      HeadersSnoc(takers, j);
      if Releases(j, j.packet.qpn) && RI.Starts(j.packet.op) {
        assert Asked(judged) == Asked(before) + [UpdateFrom(j)];
      } else {
        assert Asked(judged) == Asked(before);
        assert takers + [] == takers;
      }
    } else {
      NothingAsked();
    }
  }

  lemma WhoAsks(j: Judged)
    ensures Releases(j, j.packet.qpn) && RI.Starts(j.packet.op)
            <==> RI.Starts(j.packet.op) && Verdicts(j) == Forward && !j.packet.isNak
  {
  }

  lemma HeadersSnoc(takers: seq<Arrival>, j: Judged)
    ensures UpdatesOfHeaders(takers + [j.packet]) == UpdatesOfHeaders(takers) + [UpdateFrom(j)]
  {
  }

  lemma NothingAsked()
    ensures Asked([]) == [] && AddressTakers(OutputsOf([]).headers) == [] && RefusedTakers(OutputsOf([]).headers) == 0
    ensures UpdatesOfHeaders([]) == []
  {
  }

  // So headers and requests for addresses correspond iff no such header is a NAK.
  lemma TakersMatchIff(judged: seq<Judged>)
    ensures
      var headers := OutputsOf(judged).headers;
      Asked(judged) == UpdatesOfHeaders(AddressTakers(headers)) <==> RefusedTakers(headers) == 0
  {
    TakersAsk(judged);
  }

  // ---------------------------------------------------------------- from the log to the headers

  lemma {:induction false} SelectStarts(ops: seq<Op>)
    ensures StartOps(RT.Select(ops, ANY_UPDATE)) == StartOps(ops)
    decreases |ops|
  {
    if ops != [] {
      var before, op := ops[..|ops| - 1], ops[|ops| - 1];
      SelectStarts(before);
      if op.Update? {
        StartOpsSnoc(RT.Select(before, ANY_UPDATE), op);
      } else {
        assert RT.Select(before, ANY_UPDATE) + [] == RT.Select(before, ANY_UPDATE);
      }
    }
  }

  lemma {:induction false} StartsPrefix(ops: seq<Op>, all: seq<Op>)
    requires ops <= all
    ensures StartOps(ops) <= StartOps(all)
    decreases |all|
  {
    if ops != all { StartsPrefix(ops, all[..|all| - 1]); }
  }

  lemma {:induction false} MetAreStarts(log: seq<Op>)
    ensures |RI.MetIn(log)| == |StartOps(log)|
    ensures forall i :: 0 <= i < |StartOps(log)| ==> RI.MetIn(log)[i].u == StartOps(log)[i]
    decreases |log|
  {
    if log != [] {
      hide Origins;
      MetAreStarts(log[..|log| - 1]);
    }
  }

  lemma {:induction false} SelectedInRange(ops: seq<Op>, queues: nat)
    requires forall i :: 0 <= i < |RT.Select(ops, ANY_UPDATE)| ==>
               RT.Select(ops, ANY_UPDATE)[i].Update? && RT.Select(ops, ANY_UPDATE)[i].u.qpn < queues
    ensures forall i :: 0 <= i < |ops| && ops[i].Update? ==> ops[i].u.qpn < queues
    decreases |ops|
  {
    if ops != [] {
      var before, op := ops[..|ops| - 1], ops[|ops| - 1];
      var all := RT.Select(ops, ANY_UPDATE);
      assert forall i :: 0 <= i < |RT.Select(before, ANY_UPDATE)| ==> all[i] == RT.Select(before, ANY_UPDATE)[i];
      SelectedInRange(before, queues);
      if op.Update? { assert all[|all| - 1] == op; }
    }
  }

  lemma LogInRange(sys: System, acts: seq<Act>, qa: nat, qb: nat)
    requires PowerUp(sys, qa, qb) && ActsOk(sys, acts, qb) && Closed(acts)
    ensures forall i :: 0 <= i < |LogOf(sys, acts)| && LogOf(sys, acts)[i].Update? ==>
              LogOf(sys, acts)[i].u.qpn < |sys.rt.sv.ptrs|
  {
    RulesKept(sys, acts, qa, qb);
    TakesWhatIsReceived(sys, acts, qa, qb);
    OutputInRange(sys.net, Moves(sys, acts));
    Projects(sys.net, Moves(sys, acts));
    RunWrites(sys.net.a, SenderActs(Moves(sys, acts)));
    hide ActsOk, Closed, RunOk, OutputsOf, Moves, LogOf, RT.Select, NaksIn, Runs, Run;
    SelectedInRange(LogOf(sys, acts), |sys.rt.sv.ptrs|);
  }

  // ---------------------------------------------------------------- the request that was met

  lemma {:induction false} AllMetInTime(queues: nat, log: seq<Op>, q: nat)
    requires RI.AllMet(log) && q < queues
    ensures NoneEarly(queues, log, q)
    decreases |log|
  {
    if log != [] {
      AllMetInTime(queues, log[..|log| - 1], q);
      ListsAreStored(queues, log[..|log| - 1], q);
    }
  }

  ghost predicate MetOwn(base: seq<nat>, reqs: seq<LocalReq>, m: RI.Met) {
    m.os != [] && Covers(base, reqs, m.u.qpn, m.u.psn, m.os[0].k, m.os[0].j)
  }

  lemma NewMet(base: seq<nat>, reqs: seq<LocalReq>, before: seq<Op>, u: Retransmitter.UpdateReq)
    requires u.qpn < |base| && |Inserts(before)| <= |reqs| && Covered(base, reqs, before, u.qpn)
    requires Origins(before, u.qpn) != [] && FitsAt(base, reqs, u.qpn, |UpdatesOn(before, u.qpn)|, u)
    ensures MetOwn(base, reqs, RI.Met(u, Origins(before, u.qpn)))
  {
    hide Fits, Origins, UpdatesOn, Inserts;
  }

  // Every FIRST or ONLY update on q met the request whose PSN it carries, at that PSN.
  lemma {:induction false} MetAreOwn(base: seq<nat>, reqs: seq<LocalReq>, queues: nat, log: seq<Op>, q: nat)
    requires q < |base| && q < queues && OwnInserts(base, reqs, Inserts(log)) && Sized(reqs, q)
    requires RI.AllMet(log) && AllFit(base, reqs, q, UpdatesOn(log, q))
    ensures forall i :: 0 <= i < |RI.MetIn(log)| && RI.MetIn(log)[i].u.qpn == q ==> MetOwn(base, reqs, RI.MetIn(log)[i])
    decreases |log|
  {
    if log != [] {
      var before, op := log[..|log| - 1], log[|log| - 1];
      hide Inserts, UpdatesOn, Fits, Sized, OwnInserts, AllFit, Covered, MetOwn, Origins;
      assert before + [op] == log;
      InsertsAre(before, op);
      UpdatesSnoc(before, op, q);
      FirstInserts(base, reqs, Inserts(before), Inserts(log));
      FirstUpdates(base, reqs, q, UpdatesOn(before, q), UpdatesOn(log, q));
      MetAreOwn(base, reqs, queues, before, q);
      AllMetInTime(queues, before, q);
      FittingIsTimely(base, reqs, queues, before, q);
      InsertsFit(base, reqs, Inserts(before));
      if op.Update? && op.u.qpn == q && RI.Starts(op.u.opCode) { NewMet(base, reqs, before, op.u); }
    }
  }

  lemma InsertsFit(base: seq<nat>, reqs: seq<LocalReq>, ins: seq<InsertReq>)
    requires OwnInserts(base, reqs, ins)
    ensures |ins| <= |reqs|
  {
  }

  lemma {:induction false} LocalAfter(e: Entry, j: nat)
    requires e.localAddr < ADDR_MOD
    ensures ReadTransfer.AdvanceBy(e, j).localAddr == (e.localAddr + j * PMTU) % ADDR_MOD && ReadTransfer.AdvanceBy(e, j).lst == e.lst
    decreases j
  {
    if j > 0 {
      LocalAfter(e, j - 1);
      AddressMod(e.localAddr + (j - 1) * PMTU, PMTU);
    }
  }

  // The address of request k's data from its j-th PSN on.
  function AddressOf(r: LocalReq, j: nat): Retransmitter.ReadInit {
    Retransmitter.ReadInit((r.laddr + j * PMTU) % ADDR_MOD, r.lst)
  }

  predicate LocalRanges(reqs: seq<LocalReq>) { forall k :: 0 <= k < |reqs| ==> reqs[k].laddr < ADDR_MOD }

  ghost predicate GetsOwn(base: seq<nat>, reqs: seq<LocalReq>, q: nat, psn: nat, init: Retransmitter.ReadInit) {
    exists k: nat, j: nat :: Covers(base, reqs, q, psn, k, j) && init == AddressOf(reqs[k], j)
  }

  lemma InitIsOwn(base: seq<nat>, reqs: seq<LocalReq>, ins: seq<InsertReq>, m: RI.Met, init: Retransmitter.ReadInit)
    requires OwnInserts(base, reqs, ins) && LocalRanges(reqs) && RI.InitFor(ins, m, init) && MetOwn(base, reqs, m)
    ensures GetsOwn(base, reqs, m.u.qpn, m.u.psn, init)
  {
    var k, j := m.os[0].k, m.os[0].j;
    LocalAfter(ins[k].entry, j);
    assert Covers(base, reqs, m.u.qpn, m.u.psn, k, j) && init == AddressOf(reqs[k], j);
  }

  lemma LogInits(sys: System, acts: seq<Act>, qa: nat, qb: nat)
    requires PowerUp(sys, qa, qb) && ActsOk(sys, acts, qb) && Closed(acts) && Operate(sys, acts).rt.ctl.Main?
    requires RI.AllMet(LogOf(sys, acts))
    ensures RI.InitsFor(Inserts(LogOf(sys, acts)), RI.MetIn(LogOf(sys, acts)), Operate(sys, acts).rt.inits)
  {
    RulesKept(sys, acts, qa, qb);
    Parts(sys, acts);
    LogInRange(sys, acts, qa, qb);
    hide ActsOk, Closed, RunOk, Moves, Operate, Actions, RI.InitsFor, RI.MetIn, RI.AllMet, Inserts, RT.TrackOf,
      Retransmitter.Run, Retransmitter.Initial, RT.AllAllowed;
    RI.InitsInRun(sys.rt, Actions(sys, acts));
    RI.InitsMeet(|sys.rt.sv.ptrs|, LogOf(sys, acts));
  }

  // In every run of the closed system in which no update overtakes its request and no FIRST
  // or ONLY response is a NAK: the i-th address written is the one for the i-th such header
  // passed to rx_exh_fsm, that of the request whose PSN the header carries, at that PSN.
  lemma AddressesAreOwn(sys: System, acts: seq<Act>, qa: nat, qb: nat, i: nat)
    requires PowerUp(sys, qa, qb) && ActsOk(sys, acts, qb) && Closed(acts) && Operate(sys, acts).rt.ctl.Main?
    requires RI.AllMet(LogOf(sys, acts)) && Proper(sys.net, Moves(sys, acts), qa)
    requires AllSupported(Submitted(SenderActs(Moves(sys, acts)))) && Sized(Requests(Moves(sys, acts)), qa)
    requires LocalRanges(Requests(Moves(sys, acts)))
    requires RefusedTakers(OutputsOf(Runs(sys.net, Moves(sys, acts)).a.rx.judged).headers) == 0
    requires i < |Operate(sys, acts).rt.inits|
    ensures
      var takers := AddressTakers(OutputsOf(Runs(sys.net, Moves(sys, acts)).a.rx.judged).headers);
      && i < |takers|
      && (takers[i].qpn == qa ==>
            GetsOwn(BaseOf(sys.net.a.table), Requests(Moves(sys, acts)), qa, takers[i].psn, Operate(sys, acts).rt.inits[i]))
  {
    var log, base, reqs := LogOf(sys, acts), BaseOf(sys.net.a.table), Requests(Moves(sys, acts));
    var judged := Runs(sys.net, Moves(sys, acts)).a.rx.judged;
    LogFits(sys, acts, qa, qb);
    LogIsOwn(sys, acts, qa, qb);
    LogInits(sys, acts, qa, qb);
    TakesWhatIsReceived(sys, acts, qa, qb);
    hide ActsOk, Closed, Proper, Requests, LogOf, Moves, RI.AllMet, AllFit, OwnInserts, Sized, Operate, Runs, OutputsOf,
      RT.Select, UpdateOps, GetsOwn, RI.InitFor, MetOwn;
    SelectStarts(log);
    StartsPrefix(RT.Select(log, ANY_UPDATE), UpdateOps(OutputsOf(judged).updates));
    MetAreStarts(log);
    TakersAsk(judged);
    MetAreOwn(base, reqs, |sys.rt.sv.ptrs|, log, qa);
    hide AddressTakers, RefusedTakers, StartOps;
    var m := RI.MetIn(log)[i];
    assert m.u == UpdateOfHeader(AddressTakers(OutputsOf(judged).headers)[i]);
    if m.u.qpn == qa {
      InitIsOwn(base, reqs, Inserts(log), m, Operate(sys, acts).rt.inits[i]);
    }
  }
}
