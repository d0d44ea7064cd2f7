// When partial updates are timely: the sender's list head is always the oldest request not
// fully acknowledged, at the very PSN expected next, provided that responses fit the PSNs
// they carry, acknowledgements are in turn and no update overtakes its request.
module TimelyAnswers {
  import opened InfiniBand
  import Retransmitter
  import opened RetransmitterProof
  import RT = RetransmitterTheorems
  import opened RequestPath
  import opened RequestPathProof
  import opened RequestPathTheorems
  import opened ReceivePathProof
  import opened ReceivePathTheorems
  import opened AcceptedPrefix
  import opened Resumption
  import opened TwoNodes
  import opened ReliableSender
  import opened ClosedLoop

  // ---------------------------------------------------------------- responses in turn

  // The packet is a positive response on QP q that is passed on: an update is written.
  predicate Releases(j: Judged, q: nat) {
    j.packet.qpn == q && IsResponse(j.packet.op) && !j.packet.isNak && Verdicts(j) == Forward
  }

  // It is for the oldest PSN not acknowledged, and for no other. The code makes sure of
  // that for all responses but acknowledgements.
  predicate InTurn(j: Judged) { j.packet.psn == j.seen.epsn && j.packet.numPkg == 1 }

  ghost predicate AllInTurn(judged: seq<Judged>, q: nat) {
    forall i :: 0 <= i < |judged| && Releases(judged[i], q) ==> InTurn(judged[i])
  }

  function Released(judged: seq<Judged>, q: nat): nat
    decreases |judged|
  {
    if judged == [] then 0
    else Released(judged[..|judged| - 1], q) + if Releases(judged[|judged| - 1], q) then 1 else 0
  }

  lemma OneResponse(row: Row, j: Judged, q: nat)
    requires j.packet.qpn == q && IsResponse(j.packet.op) ==> SeesCurrent(ViewOf(row), true, j.seen)
    requires Releases(j, q) ==> InTurn(j)
    requires row.reqOldUnack < PSN_MOD
    ensures
      var row' := ApplyWrites(row, WriteBack(j.packet, j.seen), q);
      row'.reqOldUnack == if Releases(j, q) then (row.reqOldUnack + 1) % PSN_MOD else row.reqOldUnack
  {
    var ws := WriteBack(j.packet, j.seen);
    if ws != [] {
      assert ws[..0] == [];
      assert ApplyWrites(row, ws[..0], q) == row;
    }
  }

  // The oldest PSN not acknowledged is as many ahead of the first as updates were written.
  lemma {:induction false} UnackIs(start: seq<Row>, judged: seq<Judged>, q: nat)
    requires Sequential(start, judged) && q < |start| && AllInTurn(judged, q)
    ensures RowAfter(start[q], judged, q).reqOldUnack == (start[q].reqNext + Released(judged, q)) % PSN_MOD
    decreases |judged|
  {
    if judged == [] {
      assert IsSetup(start[q]);
    } else {
      var n := |judged| - 1;
      var before, j := judged[..n], judged[n];
      PrefixSequential(start, judged, n);
      UnackIs(start, before, q);
      assert CurrentAt(start, judged, n);
      OneResponse(RowAfter(start[q], before, q), j, q);
      AddMod(start[q].reqNext + Released(before, q), 1);
    }
  }

  // ---------------------------------------------------------------- responses that fit

  // The PSN is that of request k from its j-th PSN on.
  ghost predicate Covers(base: seq<nat>, reqs: seq<LocalReq>, q: nat, psn: nat, k: nat, j: nat) {
    && k < |reqs| && reqs[k].qpn == q < |base| && j < Pages(reqs[k])
    && psn == (NumberOf(base, reqs, k) + j) % PSN_MOD
  }

  // FIRST and MIDDLE responses carry the PSNs of reads, but for the last PSN of each.
  ghost predicate Fits(base: seq<nat>, reqs: seq<LocalReq>, q: nat, psn: nat, op: OpCode) {
    forall k: nat, j: nat {:trigger Covers(base, reqs, q, psn, k, j)} :: Covers(base, reqs, q, psn, k, j) ==>
      (op.ReadRespFirst? || op.ReadRespMiddle? <==> reqs[k].op.ReadRequest? && j + 1 < Pages(reqs[k]))
  }

  // The updates on QP q, in order.
  function UpdatesOn(ops: seq<Op>, q: nat): seq<Retransmitter.UpdateReq>
    decreases |ops|
  {
    if ops == [] then []
    else
      var op := ops[|ops| - 1];
      UpdatesOn(ops[..|ops| - 1], q) + if op.Update? && op.u.qpn == q then [op.u] else []
  }

  // The m-th update is for the m-th PSN and fits it.
  ghost predicate FitsAt(base: seq<nat>, reqs: seq<LocalReq>, q: nat, m: nat, u: Retransmitter.UpdateReq)
    requires q < |base|
  {
    u.psn == (base[q] + m) % PSN_MOD && Fits(base, reqs, q, u.psn, u.opCode)
  }

  ghost predicate AllFit(base: seq<nat>, reqs: seq<LocalReq>, q: nat, us: seq<Retransmitter.UpdateReq>)
    requires q < |base|
  {
    forall m :: 0 <= m < |us| ==> FitsAt(base, reqs, q, m, us[m])
  }

  // ---------------------------------------------------------------- the list covers what is outstanding

  // The listed requests follow each other without a gap, the first at number n, and the
  // last is followed by whatever is inserted next.
  ghost predicate Chain(base: seq<nat>, reqs: seq<LocalReq>, os: seq<Origin>, n: nat, q: nat, inserted: nat)
    requires q < |base| && inserted <= |reqs|
    decreases |os|
  {
    if os == [] then n == base[q] + PagesBefore(reqs, inserted, q)
    else
      && Listed(reqs, os[0], q, inserted) && NumberOf(base, reqs, os[0].k) + os[0].j == n
      && Chain(base, reqs, os[1..], NumberOf(base, reqs, os[0].k) + Pages(reqs[os[0].k]), q, inserted)
  }

  predicate Listed(reqs: seq<LocalReq>, o: Origin, q: nat, inserted: nat)
    requires inserted <= |reqs|
  {
    o.k < inserted && reqs[o.k].qpn == q && o.j < Pages(reqs[o.k])
  }

  lemma {:induction false} ChainInsert(base: seq<nat>, reqs: seq<LocalReq>, os: seq<Origin>, n: nat, q: nat, inserted: nat)
    requires q < |base| && inserted < |reqs| && Chain(base, reqs, os, n, q, inserted)
    requires reqs[inserted].qpn == q ==> Pages(reqs[inserted]) > 0
    ensures Chain(base, reqs, os + if reqs[inserted].qpn == q then [Origin(inserted, 0)] else [], n, q, inserted + 1)
    decreases |os|
  {
    var added := if reqs[inserted].qpn == q then [Origin(inserted, 0)] else [];
    if os == [] {
      assert [] + added == added;
      if added != [] { assert added[1..] == []; }
    } else {
      ChainInsert(base, reqs, os[1..], NumberOf(base, reqs, os[0].k) + Pages(reqs[os[0].k]), q, inserted);
      assert (os + added)[0] == os[0] && (os + added)[1..] == os[1..] + added;
    }
  }

  lemma ChainUpdate(base: seq<nat>, reqs: seq<LocalReq>, os: seq<Origin>, n: nat, q: nat, inserted: nat, code: OpCode)
    requires q < |base| && inserted <= |reqs| && Chain(base, reqs, os, n, q, inserted) && os != []
    requires Fits(base, reqs, q, n % PSN_MOD, code)
    ensures
      var os' := if Retransmitter.KeepsEntry(code) then os[0 := Origin(os[0].k, os[0].j + 1)] else os[1..];
      Chain(base, reqs, os', n + 1, q, inserted)
    ensures Listed(reqs, os[0], q, inserted)
    ensures Retransmitter.KeepsEntry(code) <==> reqs[os[0].k].op.ReadRequest? && os[0].j + 1 < Pages(reqs[os[0].k])
  {
    var k, j := os[0].k, os[0].j;
    assert Covers(base, reqs, q, n % PSN_MOD, k, j);
    if Retransmitter.KeepsEntry(code) {
      assert os[0 := Origin(k, j + 1)][1..] == os[1..];
    } else {
      assert j + 1 == Pages(reqs[k]);
    }
  }

  // The requests inserted are the first of these, each with its own entry.
  ghost predicate OwnInserts(base: seq<nat>, reqs: seq<LocalReq>, ins: seq<InsertReq>) {
    && |ins| <= |reqs|
    && forall k :: 0 <= k < |ins| ==> reqs[k].qpn < |base| && ins[k] == OwnEntry(base, reqs, k)
  }

  // Everything known at one point of the log.
  ghost predicate Covered(base: seq<nat>, reqs: seq<LocalReq>, log: seq<Op>, q: nat)
    requires q < |base| && |Inserts(log)| <= |reqs|
  {
    Chain(base, reqs, Origins(log, q), base[q] + |UpdatesOn(log, q)|, q, |Inserts(log)|)
  }

  lemma TakesInsert(base: seq<nat>, reqs: seq<LocalReq>, queues: nat, before: seq<Op>, i: InsertReq, q: nat)
    requires q < |base| && OwnInserts(base, reqs, Inserts(before) + [i]) && Sized(reqs, q)
    requires Covered(base, reqs, before, q)
    ensures
      var log := before + [Op.Insert(i)];
      && Inserts(log) == Inserts(before) + [i] && Covered(base, reqs, log, q)
      && Timely(Replay(EmptyModel(queues), before), Op.Insert(i), q)
  {
    hide Chain, PagesBefore;
    var log := before + [Op.Insert(i)];
    assert log[..|before|] == before;
    assert (Inserts(before) + [i])[|Inserts(before)|] == i;
    assert UpdatesOn(before, q) + [] == UpdatesOn(before, q) && Origins(before, q) + [] == Origins(before, q);
    ChainInsert(base, reqs, Origins(before, q), base[q] + |UpdatesOn(before, q)|, q, |Inserts(before)|);
  }

  lemma TakesUpdate(base: seq<nat>, reqs: seq<LocalReq>, before: seq<Op>, u: Retransmitter.UpdateReq, q: nat)
    requires u.qpn == q < |base| && |Inserts(before)| <= |reqs| && Origins(before, q) != []
    requires Covered(base, reqs, before, q)
    requires FitsAt(base, reqs, q, |UpdatesOn(before, q)|, u)
    ensures
      var log := before + [Update(u)];
      Inserts(log) == Inserts(before) && Covered(base, reqs, log, q)
  {
    hide Origins, UpdatesOn, Inserts, Fits, Chain, Listed, Pages, NumberOf;
    AfterUpdate(before, u, q);
    ChainUpdate(base, reqs, Origins(before, q), base[q] + |UpdatesOn(before, q)|, q, |Inserts(before)|, u.opCode);
  }

  lemma UpdateIsTimely(base: seq<nat>, reqs: seq<LocalReq>, queues: nat, before: seq<Op>, u: Retransmitter.UpdateReq, q: nat)
    requires u.qpn == q < |base| && q < queues && OwnInserts(base, reqs, Inserts(before)) && Sized(reqs, q)
    requires Covered(base, reqs, before, q)
    requires |Replay(EmptyModel(queues), before).lists| == queues && Replay(EmptyModel(queues), before).lists[q] != []
    requires FitsAt(base, reqs, q, |UpdatesOn(before, q)|, u)
    ensures Timely(Replay(EmptyModel(queues), before), Update(u), q)
  {
    hide Origins, UpdatesOn, Inserts, Replay, Fits, Sized, Chain, Listed, StoredAs, Pages, NumberOf, OwnEntry;
    HeadStored(queues, before, q);
    var os := Origins(before, q);
    ChainUpdate(base, reqs, os, base[q] + |UpdatesOn(before, q)|, q, |Inserts(before)|, u.opCode);
    HeadIs(base, reqs, Inserts(before), os[0], q, Replay(EmptyModel(queues), before).lists[q][0]);
  }

  lemma HeadStored(queues: nat, log: seq<Op>, q: nat)
    requires q < queues && |Replay(EmptyModel(queues), log).lists| == queues
    requires Replay(EmptyModel(queues), log).lists[q] != []
    ensures Origins(log, q) != []
    ensures StoredAs(Inserts(log), Origins(log, q)[0], q, Replay(EmptyModel(queues), log).lists[q][0])
  {
    ListsAreStored(queues, log, q);
  }

  lemma AfterUpdate(before: seq<Op>, u: Retransmitter.UpdateReq, q: nat)
    requires u.qpn == q
    ensures
      var log, os := before + [Update(u)], Origins(before, q);
      && Inserts(log) == Inserts(before) && |UpdatesOn(log, q)| == |UpdatesOn(before, q)| + 1
      && (os != [] ==>
            Origins(log, q) == if Retransmitter.KeepsEntry(u.opCode) then os[0 := Origin(os[0].k, os[0].j + 1)] else os[1..])
  {
    assert (before + [Update(u)])[..|before|] == before;
    assert Inserts(before) + [] == Inserts(before);
  }

  // A listed entry of a read with more than one PSN left expects more than one page.
  lemma HeadIs(base: seq<nat>, reqs: seq<LocalReq>, ins: seq<InsertReq>, o: Origin, q: nat, e: Entry)
    requires OwnInserts(base, reqs, ins) && Sized(reqs, q) && Listed(reqs, o, q, |ins|) && StoredAs(ins, o, q, e)
    ensures reqs[o.k].op.ReadRequest? && o.j + 1 < Pages(reqs[o.k]) ==> e.opCode.ReadRequest? && e.length > PMTU
  {
    OneMoreIff(ins[o.k].entry, o.j);
  }

  lemma TakesOther(base: seq<nat>, reqs: seq<LocalReq>, queues: nat, before: seq<Op>, op: Op, q: nat)
    requires q < |base| && |Inserts(before)| <= |reqs| && Covered(base, reqs, before, q)
    requires !op.Insert? && (op.Update? ==> op.u.qpn != q)
    ensures
      var log := before + [op];
      && Inserts(log) == Inserts(before) && UpdatesOn(log, q) == UpdatesOn(before, q)
      && Covered(base, reqs, log, q) && Timely(Replay(EmptyModel(queues), before), op, q)
  {
    assert (before + [op])[..|before|] == before;
    assert Inserts(before) + [] == Inserts(before) && UpdatesOn(before, q) + [] == UpdatesOn(before, q);
  }

  lemma TakesOne(base: seq<nat>, reqs: seq<LocalReq>, queues: nat, before: seq<Op>, op: Op, q: nat)
    requires q < |base| && q < queues && Sized(reqs, q)
    requires OwnInserts(base, reqs, Inserts(before)) && OwnInserts(base, reqs, Inserts(before + [op]))
    requires Covered(base, reqs, before, q)
    requires op.Update? && op.u.qpn == q ==>
               && FitsAt(base, reqs, q, |UpdatesOn(before, q)|, op.u)
               && |Replay(EmptyModel(queues), before).lists| == queues && Replay(EmptyModel(queues), before).lists[q] != []
    ensures Covered(base, reqs, before + [op], q) && Timely(Replay(EmptyModel(queues), before), op, q)
  {
    hide Covered, Timely, Fits, Sized, Origins, OwnEntry, Replay, UpdatesOn, Inserts;
    if op.Insert? {
      InsertsAre(before, op);
      TakesInsert(base, reqs, queues, before, op.i, q);
    } else if op.Update? && op.u.qpn == q {
      HeadStored(queues, before, q);
      TakesUpdate(base, reqs, before, op.u, q);
      UpdateIsTimely(base, reqs, queues, before, op.u, q);
    } else {
      TakesOther(base, reqs, queues, before, op, q);
    }
  }

  lemma InsertsAre(before: seq<Op>, op: Op)
    ensures Inserts(before + [op]) == Inserts(before) + if op.Insert? then [op.i] else []
  {
    assert (before + [op])[..|before|] == before;
  }

  // If the updates in the log fit and none is early, the list covers the PSNs from the one
  // expected to the one sent last, and every partial update is timely.
  lemma {:induction false} FittingIsTimely(base: seq<nat>, reqs: seq<LocalReq>, queues: nat, log: seq<Op>, q: nat)
    requires q < |base| && q < queues && OwnInserts(base, reqs, Inserts(log)) && Sized(reqs, q)
    requires NoneEarly(queues, log, q) && AllFit(base, reqs, q, UpdatesOn(log, q))
    ensures Covered(base, reqs, log, q) && TimelyOn(queues, log, q)
    decreases |log|
  {
    if log != [] {
      hide Inserts, UpdatesOn, Replay, Covered, Timely, Fits, Sized, OwnInserts, AllFit, NoneEarly, TimelyOn;
      var before, op := log[..|log| - 1], log[|log| - 1];
      assert before + [op] == log;
      LastOf(queues, log, q);
      InsertsAre(before, op);
      UpdatesSnoc(before, op, q);
      FirstInserts(base, reqs, Inserts(before), Inserts(log));
      FirstUpdates(base, reqs, q, UpdatesOn(before, q), UpdatesOn(log, q));
      FittingIsTimely(base, reqs, queues, before, q);
      SameQueues(EmptyModel(queues), before);
      TakesOne(base, reqs, queues, before, op, q);
    } else {
      NothingCovered(base, reqs, q);
    }
  }

  lemma FirstInserts(base: seq<nat>, reqs: seq<LocalReq>, ins: seq<InsertReq>, all: seq<InsertReq>)
    requires ins <= all && OwnInserts(base, reqs, all)
    ensures OwnInserts(base, reqs, ins)
  {
    hide OwnEntry;
  }

  lemma FirstUpdates(base: seq<nat>, reqs: seq<LocalReq>, q: nat, us: seq<Retransmitter.UpdateReq>,
                   all: seq<Retransmitter.UpdateReq>)
    requires q < |base| && us <= all && AllFit(base, reqs, q, all)
    ensures AllFit(base, reqs, q, us) && (|us| < |all| ==> FitsAt(base, reqs, q, |us|, all[|us|]))
  {
    hide Fits;
  }

  lemma LastOf(queues: nat, log: seq<Op>, q: nat)
    requires log != []
    ensures
      var before, op := log[..|log| - 1], log[|log| - 1];
      && (NoneEarly(queues, log, q) ==>
            NoneEarly(queues, before, q) && InTime(Replay(EmptyModel(queues), before), op, q))
      && (TimelyOn(queues, log, q)
          <==> TimelyOn(queues, before, q) && Timely(Replay(EmptyModel(queues), before), op, q))
  {
  }

  lemma NothingCovered(base: seq<nat>, reqs: seq<LocalReq>, q: nat)
    requires q < |base|
    ensures Covered(base, reqs, [], q)
  {
  }

  lemma UpdatesSnoc(ops: seq<Op>, op: Op, q: nat)
    ensures UpdatesOn(ops + [op], q) == UpdatesOn(ops, q) + if op.Update? && op.u.qpn == q then [op.u] else []
    ensures UpdatesOn(ops, q) <= UpdatesOn(ops + [op], q)
  {
    assert (ops + [op])[..|ops|] == ops;
  }

  // ---------------------------------------------------------------- from packets to updates

  lemma {:induction false} SelectUpdates(ops: seq<Op>, q: nat)
    ensures UpdatesOn(RT.Select(ops, ANY_UPDATE), q) == UpdatesOn(ops, q)
    decreases |ops|
  {
    if ops != [] {
      var before, op := ops[..|ops| - 1], ops[|ops| - 1];
      SelectUpdates(before, q);
      if op.Update? {
        UpdatesSnoc(RT.Select(before, ANY_UPDATE), op, q);
      } else {
        assert RT.Select(before, ANY_UPDATE) + [] == RT.Select(before, ANY_UPDATE);
      }
    }
  }

  lemma {:induction false} UpdatesPrefix(ops: seq<Op>, all: seq<Op>, q: nat)
    requires ops <= all
    ensures UpdatesOn(ops, q) <= UpdatesOn(all, q)
    decreases |all|
  {
    if ops == all {
    } else {
      UpdatesPrefix(ops, all[..|all| - 1], q);
    }
  }

  lemma UpdateOpsSnoc(us: seq<Retransmitter.UpdateReq>, u: Retransmitter.UpdateReq)
    ensures UpdateOps(us + [u]) == UpdateOps(us) + [Update(u)]
  {
  }

  function UpdateFrom(j: Judged): Retransmitter.UpdateReq {
    Retransmitter.UpdateReq(j.packet.qpn, j.packet.psn, j.packet.op)
  }

  lemma WritesUpdate(j: Judged)
    ensures Emitted(j.packet, j.seen).updates == if Releases(j, j.packet.qpn) then [UpdateFrom(j)] else []
  {
  }

  ghost predicate AllProper(base: seq<nat>, reqs: seq<LocalReq>, q: nat, judged: seq<Judged>) {
    forall i :: 0 <= i < |judged| && Releases(judged[i], q) ==>
      InTurn(judged[i]) && Fits(base, reqs, q, judged[i].packet.psn, judged[i].packet.op)
  }

  function UpdatesOut(judged: seq<Judged>, q: nat): seq<Retransmitter.UpdateReq> { UpdatesOn(UpdateOps(OutputsOf(judged).updates), q) }

  lemma UpdatesOutStep(judged: seq<Judged>, q: nat)
    requires judged != []
    ensures
      var j := judged[|judged| - 1];
      UpdatesOut(judged, q) == UpdatesOut(judged[..|judged| - 1], q) + if Releases(j, q) then [UpdateFrom(j)] else []
  {
    hide Emitted, Releases;
    var before, j := OutputsOf(judged[..|judged| - 1]).updates, judged[|judged| - 1];
    WritesUpdate(j);
    if Releases(j, j.packet.qpn) {
      var u := Retransmitter.UpdateReq(j.packet.qpn, j.packet.psn, j.packet.op);
      UpdateOpsSnoc(before, u);
      UpdatesSnoc(UpdateOps(before), Update(u), q);
      OnlyItsOwn(j, q);
    } else {
      assert before + [] == before;
      OnlyItsOwn(j, q);
    }
  }

  lemma OnlyItsOwn(j: Judged, q: nat)
    ensures Releases(j, q) <==> Releases(j, j.packet.qpn) && j.packet.qpn == q
  {
  }

  // The m-th update on QP q is for the m-th PSN, and fits it.
  lemma {:induction false} UpdatesOutFit(start: seq<Row>, base: seq<nat>, reqs: seq<LocalReq>, judged: seq<Judged>, q: nat)
    requires Sequential(start, judged) && q < |start| && q < |base| && base[q] == start[q].reqNext
    requires AllProper(base, reqs, q, judged)
    ensures |UpdatesOut(judged, q)| == Released(judged, q) && AllFit(base, reqs, q, UpdatesOut(judged, q))
    decreases |judged|
  {
    if judged != [] {
      hide UpdatesOut, AllProper, AllFit, AllInTurn, Fits, Sequential, RowAfter, OutputsOf, UpdatesOn;
      var n := |judged| - 1;
      var before, j := judged[..n], judged[n];
      PrefixSequential(start, judged, n);
      ProperPrefix(base, reqs, judged, q);
      UpdatesOutFit(start, base, reqs, before, q);
      UpdatesOutStep(judged, q);
      UnackIs(start, before, q);
      hide Releases;
      if Releases(j, q) {
        SeenIsUnack(start, judged, n, q);
        OneMoreFits(base, reqs, q, UpdatesOut(before, q), UpdateFrom(j));
      } else {
        assert UpdatesOut(before, q) + [] == UpdatesOut(before, q);
      }
    } else {
      NothingOut(q);
    }
  }

  lemma NothingOut(q: nat)
    ensures UpdatesOut([], q) == []
  {
  }

  lemma ProperPrefix(base: seq<nat>, reqs: seq<LocalReq>, judged: seq<Judged>, q: nat)
    requires AllProper(base, reqs, q, judged) && judged != []
    ensures
      var n := |judged| - 1;
      && AllProper(base, reqs, q, judged[..n]) && AllInTurn(judged[..n], q)
      && (Releases(judged[n], q) ==>
            InTurn(judged[n]) && Fits(base, reqs, q, judged[n].packet.psn, judged[n].packet.op))
  {
    hide Fits, Releases, InTurn;
  }

  lemma OneMoreFits(base: seq<nat>, reqs: seq<LocalReq>, q: nat, us: seq<Retransmitter.UpdateReq>,
                    u: Retransmitter.UpdateReq)
    requires q < |base| && AllFit(base, reqs, q, us) && FitsAt(base, reqs, q, |us|, u)
    ensures AllFit(base, reqs, q, us + [u])
  {
    hide Fits;
  }

  lemma SeenIsUnack(start: seq<Row>, judged: seq<Judged>, i: nat, q: nat)
    requires Sequential(start, judged) && i < |judged| && q < |start| && Releases(judged[i], q)
    ensures judged[i].seen.epsn == RowAfter(start[q], judged[..i], q).reqOldUnack
  {
    assert CurrentAt(start, judged, i);
  }

  // ---------------------------------------------------------------- delivery

  // What must hold of the packets that reach the sender on QP qa.
  ghost predicate Proper(net: Net, moves: seq<Move>, qa: nat) {
    AllProper(BaseOf(net.a.table), Requests(moves), qa, Runs(net, moves).a.rx.judged)
  }

  lemma LogFits(sys: System, acts: seq<Act>, qa: nat, qb: nat)
    requires PowerUp(sys, qa, qb) && ActsOk(sys, acts, qb) && Closed(acts) && Proper(sys.net, Moves(sys, acts), qa)
    ensures AllFit(BaseOf(sys.net.a.table), Requests(Moves(sys, acts)), qa, UpdatesOn(LogOf(sys, acts), qa))
  {
    var moves, log := Moves(sys, acts), LogOf(sys, acts);
    var judged, base := Runs(sys.net, moves).a.rx.judged, BaseOf(sys.net.a.table);
    RulesKept(sys, acts, qa, qb);
    Projects(sys.net, moves);
    JudgedSequentially(sys.net.a, SenderActs(moves));
    TakesWhatIsReceived(sys, acts, qa, qb);
    hide ActsOk, RunOk, Closed, Requests, Fits, Sequential, AllProper, LogOf, Runs, OutputsOf, Moves, UpdatesOn, RT.Select;
    UpdatesOutFit(sys.net.a.table, base, Requests(moves), judged, qa);
    SelectUpdates(log, qa);
    UpdatesPrefix(RT.Select(log, ANY_UPDATE), UpdateOps(OutputsOf(judged).updates), qa);
  }

  lemma LogIsOwn(sys: System, acts: seq<Act>, qa: nat, qb: nat)
    requires PowerUp(sys, qa, qb) && ActsOk(sys, acts, qb)
    requires AllSupported(Submitted(SenderActs(Moves(sys, acts))))
    ensures OwnInserts(BaseOf(sys.net.a.table), Requests(Moves(sys, acts)), Inserts(LogOf(sys, acts)))
  {
    RulesKept(sys, acts, qa, qb);
    GivenAreOwn(sys, acts, qa, qb);
    InsertsInOrder(sys.rt, Actions(sys, acts));
    hide Requests, Moves, Actions, OwnEntry, RT.Offered, Inserts, RT.TrackOf;
  }

  // With the loop closed, partial updates are timely if responses fit the PSNs they carry,
  // each acknowledgement is for the oldest PSN not acknowledged, and no update is taken
  // before its request is listed.
  lemma AnswersAreTimely(sys: System, acts: seq<Act>, qa: nat, qb: nat)
    requires PowerUp(sys, qa, qb) && ActsOk(sys, acts, qb) && Closed(acts) && Proper(sys.net, Moves(sys, acts), qa)
    requires AllSupported(Submitted(SenderActs(Moves(sys, acts)))) && Sized(Requests(Moves(sys, acts)), qa)
    requires NoneEarly(|sys.rt.sv.ptrs|, LogOf(sys, acts), qa)
    ensures TimelyOn(|sys.rt.sv.ptrs|, LogOf(sys, acts), qa)
  {
    LogFits(sys, acts, qa, qb);
    LogIsOwn(sys, acts, qa, qb);
    hide ActsOk, Closed, Proper, Requests, LogOf, Moves, NoneEarly, AllFit, OwnInserts, Sized, TimelyOn;
    FittingIsTimely(BaseOf(sys.net.a.table), Requests(Moves(sys, acts)), |sys.rt.sv.ptrs|, LogOf(sys, acts), qa);
  }

  // Two-node safety from conditions on the packets alone: nothing is assumed about what the
  // retransmitter is told or what it sends again.
  lemma ClosedLoopDelivers(sys: System, acts: seq<Act>, qa: nat, qb: nat)
    requires PowerUp(sys, qa, qb) && ActsOk(sys, acts, qb) && Closed(acts) && Proper(sys.net, Moves(sys, acts), qa)
    requires AllSupported(Submitted(SenderActs(Moves(sys, acts)))) && Ranges(Requests(Moves(sys, acts)), qa)
    requires Sized(Requests(Moves(sys, acts)), qa)
    requires PagesBefore(Requests(Moves(sys, acts)), |Requests(Moves(sys, acts))|, qa) < PSN_MOD
    requires NoneEarly(|sys.rt.sv.ptrs|, LogOf(sys, acts), qa)
    ensures Operate(sys, acts).net == Runs(sys.net, Moves(sys, acts))
    ensures Accepted(Runs(sys.net, Moves(sys, acts)).b.rx.judged, PartsOf(sys.net, Moves(sys, acts)), qb)
            <= IndexesOn(Requests(Moves(sys, acts)), |Requests(Moves(sys, acts))|, qa)
  {
    AnswersAreTimely(sys, acts, qa, qb);
    DeliversInOrder(sys, acts, qa, qb);
  }
}
