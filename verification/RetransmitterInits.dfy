// The plain map of the retransmitter spelled out opcode by opcode, and the local addresses
// it hands to the receive path: one for each FIRST or ONLY response that met a request.
module RetransmitterInits {
  import opened InfiniBand
  import opened Retransmitter
  import opened RetransmitterProof
  import opened RetransmitterTheorems
  import opened Resumption

  // The next page of the request.
  function NextPage(e: Entry): Entry {
    Retransmitter.Entry((e.psn + 1) % 0x100_0000, e.opCode, (e.localAddr + 4096) % 0x1_0000_0000_0000_0000,
                        (e.remoteAddr + 4096) % 0x1_0000_0000_0000_0000, (e.length - 4096) % 0x1_0000_0000, e.lst, e.offs)
  }

  // A FIRST or MIDDLE read response moves the oldest request by a page, any other update
  // ends it.
  function Answered(list: seq<Entry>, op: OpCode): seq<Entry> {
    if list == [] then []
    else
      match op
      case ReadRespFirst => [NextPage(list[0])] + list[1..]
      case ReadRespMiddle => [NextPage(list[0])] + list[1..]
      case _ => list[1..]
  }

  // QP q's list after these requests.
  function ListAfter(log: seq<Op>, q: nat): seq<Entry>
    decreases |log|
  {
    if log == [] then []
    else
      var before := ListAfter(log[..|log| - 1], q);
      match log[|log| - 1]
      case Insert(i) => if i.qpn == q then before + [i.entry] else before
      case Update(u) => if u.qpn == q then Answered(before, u.opCode) else before
      case _ => before
  }

  predicate Starts(op: OpCode) { op == ReadRespFirst || op == ReadRespOnly }

  // The address of each request met by a FIRST or ONLY response.
  function InitsAfter(queues: nat, log: seq<Op>): seq<ReadInit>
    decreases |log|
  {
    if log == [] then []
    else
      var before, op := log[..|log| - 1], log[|log| - 1];
      InitsAfter(queues, before) +
      if op.Update? && op.u.qpn < queues && Starts(op.u.opCode) && ListAfter(before, op.u.qpn) != [] then
        [ReadInit(ListAfter(before, op.u.qpn)[0].localAddr, ListAfter(before, op.u.qpn)[0].lst)]
      else []
  }

  lemma StepLists(m: Model, before: seq<Op>, op: Op, q: nat)
    requires q < |m.lists| && m.lists[q] == ListAfter(before, q)
    ensures q < |ApplyOp(m, op).lists| && ApplyOp(m, op).lists[q] == ListAfter(before + [op], q)
  {
    assert (before + [op])[..|before|] == before;
    if op.Update? && op.u.qpn == q && m.lists[q] != [] {
      assert m.lists[q][0 := Advance(m.lists[q][0])] == [NextPage(m.lists[q][0])] + m.lists[q][1..];
    }
  }

  lemma {:induction false} ListsAre(queues: nat, log: seq<Op>, q: nat)
    requires q < queues
    ensures |Replay(EmptyModel(queues), log).lists| == queues
    ensures Replay(EmptyModel(queues), log).lists[q] == ListAfter(log, q)
    decreases |log|
  {
    SameQueues(EmptyModel(queues), log);
    if log != [] {
      var before, op := log[..|log| - 1], log[|log| - 1];
      ListsAre(queues, before, q);
      StepLists(Replay(EmptyModel(queues), before), before, op, q);
      assert before + [op] == log;
    }
  }

  lemma {:induction false} InitsAre(queues: nat, log: seq<Op>)
    ensures Replay(EmptyModel(queues), log).inits == InitsAfter(queues, log)
    decreases |log|
  {
    if log != [] {
      var before, op := log[..|log| - 1], log[|log| - 1];
      InitsAre(queues, before);
      SameQueues(EmptyModel(queues), before);
      if op.Update? && op.u.qpn < queues { ListsAre(queues, before, op.u.qpn); }
    }
  }

  // In every run, whenever the client is idle: the lists are these, and the addresses
  // written are those of the requests met by a FIRST or ONLY response, in order, and no
  // others.
  lemma InitsInRun(s: State, actions: seq<Action>)
    requires Initial(s) && AllAllowed(actions, |s.sv.ptrs|) && Run(s, actions).ctl == Main
    ensures
      var e, t := Run(s, actions), TrackOf(s, actions);
      && PoolInv(e, t) && |Current(e, t).lists| == |s.sv.ptrs|
      && (forall q :: 0 <= q < |s.sv.ptrs| ==> Current(e, t).lists[q] == ListAfter(t.log, q))
      && e.inits == InitsAfter(|s.sv.ptrs|, t.log)
  {
    RefinesMap(s, actions);
    var log := TrackOf(s, actions).log;
    InitsAre(|s.sv.ptrs|, log);
    SameQueues(EmptyModel(|s.sv.ptrs|), log);
    forall q | 0 <= q < |s.sv.ptrs| ensures Replay(EmptyModel(|s.sv.ptrs|), log).lists[q] == ListAfter(log, q) {
      ListsAre(|s.sv.ptrs|, log, q);
    }
  }

  // ---------------------------------------------------------------- where the addresses come from

  // The FIRST and ONLY updates in the log, each with the request it met, if any.
  datatype Met = Met(u: UpdateReq, os: seq<Origin>)

  function MetIn(log: seq<Op>): seq<Met>
    decreases |log|
  {
    if log == [] then []
    else
      var before, op := log[..|log| - 1], log[|log| - 1];
      MetIn(before) + if op.Update? && Starts(op.u.opCode) then [Met(op.u, Origins(before, op.u.qpn))] else []
  }

  // Every update met a request.
  predicate AllMet(log: seq<Op>)
    decreases |log|
  {
    if log == [] then true
    else
      var before, op := log[..|log| - 1], log[|log| - 1];
      AllMet(before) && (op.Update? ==> Origins(before, op.u.qpn) != [])
  }

  ghost predicate InitFor(ins: seq<InsertReq>, m: Met, init: ReadInit) {
    && m.os != [] && m.os[0].k < |ins| && ins[m.os[0].k].qpn == m.u.qpn
    && init == ReadInit(Stored(ins, m.os[0]).localAddr, Stored(ins, m.os[0]).lst)
  }

  ghost predicate InitsFor(ins: seq<InsertReq>, ms: seq<Met>, inits: seq<ReadInit>) {
    |inits| == |ms| && forall i :: 0 <= i < |ms| ==> InitFor(ins, ms[i], inits[i])
  }

  lemma InitForMore(ins: seq<InsertReq>, more: seq<InsertReq>, m: Met, init: ReadInit)
    requires InitFor(ins, m, init) && ins <= more
    ensures InitFor(more, m, init)
  {
  }

  lemma NewInit(queues: nat, before: seq<Op>, u: UpdateReq)
    requires u.qpn < queues && Origins(before, u.qpn) != []
    ensures ListAfter(before, u.qpn) != []
    ensures
      var e := ListAfter(before, u.qpn)[0];
      InitFor(Inserts(before), Met(u, Origins(before, u.qpn)), ReadInit(e.localAddr, e.lst))
  {
    ListsAreStored(queues, before, u.qpn);
    ListsAre(queues, before, u.qpn);
    assert StoredAs(Inserts(before), Origins(before, u.qpn)[0], u.qpn, ListAfter(before, u.qpn)[0]);
  }

  // If every update met a request, the i-th address is that of the request met by the i-th
  // FIRST or ONLY response.
  lemma {:induction false} InitsMeet(queues: nat, log: seq<Op>)
    requires AllMet(log) && forall i :: 0 <= i < |log| && log[i].Update? ==> log[i].u.qpn < queues
    ensures InitsFor(Inserts(log), MetIn(log), InitsAfter(queues, log))
    decreases |log|
  {
    if log != [] {
      var before, op := log[..|log| - 1], log[|log| - 1];
      InitsMeet(queues, before);
      InsertsGrow(log, |before|);
      assert op == log[|log| - 1];
      if op.Update? { NewInit(queues, before, op.u); }
      hide InitFor, Origins, ListAfter, Inserts;
      forall i | 0 <= i < |MetIn(before)| ensures InitFor(Inserts(log), MetIn(before)[i], InitsAfter(queues, before)[i]) {
        InitForMore(Inserts(before), Inserts(log), MetIn(before)[i], InitsAfter(queues, before)[i]);
      }
      if op.Update? && Starts(op.u.opCode) {
        var e := ListAfter(before, op.u.qpn)[0];
        InitForMore(Inserts(before), Inserts(log), Met(op.u, Origins(before, op.u.qpn)), ReadInit(e.localAddr, e.lst));
      }
    }
  }

  // In general as many addresses are written as FIRST and ONLY responses met a request.
  function MetCount(ms: seq<Met>): nat
    decreases |ms|
  {
    if ms == [] then 0 else MetCount(ms[..|ms| - 1]) + if ms[|ms| - 1].os != [] then 1 else 0
  }

  lemma EmptyTogether(queues: nat, log: seq<Op>, q: nat)
    requires q < queues
    ensures ListAfter(log, q) == [] <==> Origins(log, q) == []
  {
    ListsAreStored(queues, log, q);
    ListsAre(queues, log, q);
  }

  lemma {:induction false} InitsCount(queues: nat, log: seq<Op>)
    requires forall i :: 0 <= i < |log| && log[i].Update? ==> log[i].u.qpn < queues
    ensures |InitsAfter(queues, log)| == MetCount(MetIn(log)) <= |MetIn(log)|
    decreases |log|
  {
    if log != [] {
      hide Origins, ListAfter;
      var before, op := log[..|log| - 1], log[|log| - 1];
      InitsCount(queues, before);
      assert op == log[|log| - 1];
      if op.Update? && Starts(op.u.opCode) {
        EmptyTogether(queues, before, op.u.qpn);
        assert (MetIn(before) + [Met(op.u, Origins(before, op.u.qpn))])[..|MetIn(before)|] == MetIn(before);
      } else {
        assert MetIn(before) + [] == MetIn(before);
      }
    }
  }
}
