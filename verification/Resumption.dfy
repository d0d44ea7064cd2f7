// Where the entries on a retransmission list come from: each is an inserted request,
// advanced by the partial updates that met it. When these kept to the request's own PSNs,
// what the retransmitter emits resumes a request; otherwise it may not.
module Resumption {
  import opened InfiniBand
  import Retransmitter
  import opened RetransmitterProof
  import RetransmitterTheorems
  import RequestPath
  import opened ReadTransfer

  type InsertReq = Retransmitter.InsertReq
  type Entry = Retransmitter.Entry

  predicate Ranged(e: Entry) {
    e.psn < PSN_MOD && e.remoteAddr < ADDR_MOD && e.length < LEN_MOD
  }

  lemma AddressMod(a: nat, b: nat)
    ensures (a % ADDR_MOD + b) % ADDR_MOD == (a + b) % ADDR_MOD
  {
  }

  lemma LengthMod(a: int, b: nat)
    ensures (a % LEN_MOD - b) % LEN_MOD == (a - b) % LEN_MOD
  {
  }

  lemma {:induction false} LengthAfter(e: Entry, k: nat)
    requires e.length < LEN_MOD
    ensures AdvanceBy(e, k).length == (e.length - k * PMTU) % LEN_MOD && AdvanceBy(e, k).opCode == e.opCode
    decreases k
  {
    if k > 0 {
      LengthAfter(e, k - 1);
      LengthMod(e.length - (k - 1) * PMTU, PMTU);
    }
  }

  // Advanced k times, whatever wraps on the way.
  lemma {:induction false} AdvancedModulo(e: Entry, k: nat)
    requires Ranged(e)
    ensures
      var x := AdvanceBy(e, k);
      && x.psn == (e.psn + k) % PSN_MOD && x.remoteAddr == (e.remoteAddr + k * PMTU) % ADDR_MOD
      && x.length == (e.length - k * PMTU) % LEN_MOD && x.opCode == e.opCode
    decreases k
  {
    LengthAfter(e, k);
    if k > 0 {
      AdvancedModulo(e, k - 1);
      AddMod(e.psn + (k - 1), 1);
      AddressMod(e.remoteAddr + (k - 1) * PMTU, PMTU);
    }
  }

  // ---------------------------------------------------------------- where entries come from

  // The k-th request inserted, advanced j times.
  datatype Origin = Origin(k: nat, j: nat)

  function Inserts(log: seq<Op>): seq<InsertReq>
    decreases |log|
  {
    if log == [] then []
    else
      var op := log[|log| - 1];
      Inserts(log[..|log| - 1]) + if op.Insert? then [op.i] else []
  }

  function StepOrigins(os: seq<Origin>, inserted: nat, op: Op, q: nat): seq<Origin> {
    match op
    case Insert(i) => if i.qpn == q then os + [Origin(inserted, 0)] else os
    case Update(u) =>
      if u.qpn != q || os == [] then os
      else if Retransmitter.KeepsEntry(u.opCode) then os[0 := Origin(os[0].k, os[0].j + 1)]
      else os[1..]
    case _ => os
  }

  // The origins of the entries on QP q's list.
  function Origins(log: seq<Op>, q: nat): seq<Origin>
    decreases |log|
  {
    if log == [] then []
    else
      var before := log[..|log| - 1];
      StepOrigins(Origins(before, q), |Inserts(before)|, log[|log| - 1], q)
  }

  function Stored(ins: seq<InsertReq>, o: Origin): Entry
    requires o.k < |ins|
  {
    AdvanceBy(ins[o.k].entry, o.j)
  }

  ghost predicate StoredAs(ins: seq<InsertReq>, o: Origin, q: nat, e: Entry) {
    o.k < |ins| && ins[o.k].qpn == q && e == Stored(ins, o)
  }

  ghost predicate Holds(ins: seq<InsertReq>, os: seq<Origin>, q: nat, list: seq<Entry>) {
    |list| == |os| && forall m :: 0 <= m < |os| ==> StoredAs(ins, os[m], q, list[m])
  }

  lemma StepHolds(m: Model, ins: seq<InsertReq>, os: seq<Origin>, op: Op, q: nat)
    requires q < |m.lists| && Holds(ins, os, q, m.lists[q])
    ensures |ApplyOp(m, op).lists| == |m.lists|
    ensures Holds(ins + if op.Insert? then [op.i] else [], StepOrigins(os, |ins|, op, q), q, ApplyOp(m, op).lists[q])
  {
    if os != [] {
      assert StoredAs(ins, os[0], q, m.lists[q][0]);
    }
  }

  lemma {:induction false} SameQueues(m: Model, log: seq<Op>)
    ensures |Replay(m, log).lists| == |m.lists|
    decreases |log|
  {
    if log != [] {
      SameQueues(m, log[..|log| - 1]);
    }
  }

  // Whatever the log, each entry on a list is an inserted request, advanced as often as
  // partial updates met it at the head.
  lemma {:induction false} ListsAreStored(queues: nat, log: seq<Op>, q: nat)
    requires q < queues
    ensures |Replay(EmptyModel(queues), log).lists| == queues
    ensures Holds(Inserts(log), Origins(log, q), q, Replay(EmptyModel(queues), log).lists[q])
    decreases |log|
  {
    if log != [] {
      var before := log[..|log| - 1];
      ListsAreStored(queues, before, q);
      StepHolds(Replay(EmptyModel(queues), before), Inserts(before), Origins(before, q), log[|log| - 1], q);
    }
  }

  lemma {:induction false} InsertsGrow(log: seq<Op>, n: nat)
    requires n <= |log|
    ensures Inserts(log[..n]) <= Inserts(log)
    decreases |log|
  {
    if n == |log| {
      assert log[..n] == log;
    } else {
      InsertsGrow(log[..|log| - 1], n);
      assert log[..|log| - 1][..n] == log[..n];
    }
  }

  // The event was on its queue's list at some point of the log.
  ghost predicate WasListed(log: seq<Op>, ev: Retransmitter.Event) {
    exists n: nat, m: nat :: ListedAt(log, ev, n, m)
  }

  ghost predicate ListedAt(log: seq<Op>, ev: Retransmitter.Event, n: nat, m: nat) {
    && n <= |log| && m < |Origins(log[..n], ev.qpn)|
    && StoredAs(Inserts(log), Origins(log[..n], ev.qpn)[m], ev.qpn, ev.entry)
  }

  lemma StaysListed(log: seq<Op>, op: Op, ev: Retransmitter.Event)
    requires WasListed(log, ev)
    ensures WasListed(log + [op], ev)
  {
    var n: nat, m: nat :| ListedAt(log, ev, n, m);
    InsertsGrow(log + [op], |log|);
    assert (log + [op])[..|log|] == log && (log + [op])[..n] == log[..n];
    assert ListedAt(log + [op], ev, n, m);
  }

  lemma {:induction false} SuffixIsSlice(es: seq<Entry>, psn: nat) returns (i: nat)
    ensures i <= |es| && SuffixFrom(es, psn) == es[i..]
    decreases |es|
  {
    if es == [] || es[0].psn == psn {
      i := 0;
    } else {
      var k := SuffixIsSlice(es[1..], psn);
      i := k + 1;
    }
  }

  lemma ListedNow(queues: nat, log: seq<Op>, op: Op, q: nat, m: nat)
    requires q < queues && |Replay(EmptyModel(queues), log).lists| == queues
    requires m < |Replay(EmptyModel(queues), log).lists[q]|
    ensures WasListed(log + [op], Retransmitter.Event(q, Replay(EmptyModel(queues), log).lists[q][m]))
  {
    ListsAreStored(queues, log, q);
    var ev := Retransmitter.Event(q, Replay(EmptyModel(queues), log).lists[q][m]);
    assert log[..|log|] == log;
    assert ListedAt(log, ev, |log|, m);
    StaysListed(log, op, ev);
  }

  // What one request emits was on a list.
  lemma NewEventsListed(queues: nat, log: seq<Op>, op: Op, i: nat)
    requires
      var m := Replay(EmptyModel(queues), log);
      |m.events| <= i < |ApplyOp(m, op).events|
    ensures WasListed(log + [op], ApplyOp(Replay(EmptyModel(queues), log), op).events[i])
  {
    var m := Replay(EmptyModel(queues), log);
    SameQueues(EmptyModel(queues), log);
    if op.Nak? {
      var k := SuffixIsSlice(m.lists[op.r.qpn], op.r.psn);
      ListedNow(queues, log, op, op.r.qpn, k + (i - |m.events|));
    } else if op.Timeout? {
      ListedNow(queues, log, op, op.t.qpn, i - |m.events|);
    }
  }

  lemma {:induction false} EventsWereListed(queues: nat, log: seq<Op>)
    ensures forall i :: 0 <= i < |Replay(EmptyModel(queues), log).events| ==>
              WasListed(log, Replay(EmptyModel(queues), log).events[i])
    decreases |log|
  {
    if log != [] {
      var before, op := log[..|log| - 1], log[|log| - 1];
      var m, m' := Replay(EmptyModel(queues), before), Replay(EmptyModel(queues), log);
      EventsWereListed(queues, before);
      assert before + [op] == log;
      forall i | 0 <= i < |m'.events| ensures WasListed(log, m'.events[i]) {
        if i < |m.events| {
          EventsGrow(m, op);
          StaysListed(before, op, m.events[i]);
        } else {
          NewEventsListed(queues, before, op, i);
        }
      }
    }
  }

  lemma EventsGrow(m: Model, op: Op)
    ensures m.events <= ApplyOp(m, op).events
  {
  }

  // ---------------------------------------------------------------- within the request

  // PSNs the entry takes up.
  function PagesOf(e: Entry): nat { RequestPath.NumPkg(e.opCode, e.length) }

  ghost predicate Whole(ins: seq<InsertReq>, os: seq<Origin>) {
    forall m :: 0 <= m < |os| ==> os[m].k < |ins| && os[m].j < PagesOf(ins[os[m].k].entry)
  }

  // No entry that was ever on q's list had been advanced past its own PSNs.
  ghost predicate WholeOn(log: seq<Op>, q: nat)
    decreases |log|
  {
    Whole(Inserts(log), Origins(log, q)) && (log == [] || WholeOn(log[..|log| - 1], q))
  }

  // What the caller must look at: an inserted request takes up a PSN, and a FIRST or
  // MIDDLE response meets a read that expects more than one more page.
  predicate Timely(m: Model, op: Op, q: nat) {
    match op
    case Insert(i) => i.qpn == q ==> PagesOf(i.entry) > 0
    case Update(u) =>
      u.qpn == q < |m.lists| && Retransmitter.KeepsEntry(u.opCode) && m.lists[q] != [] ==>
        m.lists[q][0].opCode.ReadRequest? && m.lists[q][0].length > PMTU
    case _ => true
  }

  predicate TimelyOn(queues: nat, log: seq<Op>, q: nat)
    decreases |log|
  {
    if log == [] then true
    else
      var before := log[..|log| - 1];
      TimelyOn(queues, before, q) && Timely(Replay(EmptyModel(queues), before), log[|log| - 1], q)
  }

  // The update comes after its request: it finds the list non-empty.
  predicate InTime(m: Model, op: Op, q: nat) {
    op.Update? && op.u.qpn == q < |m.lists| ==> m.lists[q] != []
  }

  predicate NoneEarly(queues: nat, log: seq<Op>, q: nat)
    decreases |log|
  {
    if log == [] then true
    else
      var before := log[..|log| - 1];
      NoneEarly(queues, before, q) && InTime(Replay(EmptyModel(queues), before), log[|log| - 1], q)
  }

  predicate LengthsFit(ins: seq<InsertReq>, q: nat) {
    forall k :: 0 <= k < |ins| && ins[k].qpn == q ==> ins[k].entry.length < LEN_MOD
  }

  // One more advance stays within the request iff a page beyond the next one is left.
  lemma OneMoreIff(e: Entry, j: nat)
    requires e.length < LEN_MOD && j < PagesOf(e)
    ensures j + 1 < PagesOf(e) <==> AdvanceBy(e, j).opCode.ReadRequest? && AdvanceBy(e, j).length > PMTU
  {
    LengthAfter(e, j);
    PageReached(e.length, j);
    PageReached(e.length, j + 1);
    hide RequestPath.NumPkg, AdvanceBy;
    NotReadOnePage(e);
    if e.opCode.ReadRequest? {
      assert (e.length - j * PMTU) % LEN_MOD == e.length - j * PMTU;
    }
  }

  lemma PageReached(length: nat, j: nat)
    requires length < LEN_MOD
    ensures j < RequestPath.NumPkg(ReadRequest, length) <==> j * PMTU < length
  {
    var pages := (length + (PMTU - 1)) / PMTU;
    assert pages < RequestPath.NUM_PKG_MOD && RequestPath.NumPkg(ReadRequest, length) == pages;
  }

  lemma NotReadOnePage(e: Entry)
    ensures !e.opCode.ReadRequest? ==> PagesOf(e) == 1
    ensures e.opCode.ReadRequest? ==> PagesOf(e) == RequestPath.NumPkg(ReadRequest, e.length)
  {
  }

  lemma StepWholeIff(m: Model, ins: seq<InsertReq>, os: seq<Origin>, op: Op, q: nat)
    requires q < |m.lists| && Holds(ins, os, q, m.lists[q]) && Whole(ins, os) && LengthsFit(ins, q)
    ensures Whole(ins + if op.Insert? then [op.i] else [], StepOrigins(os, |ins|, op, q)) <==> Timely(m, op, q)
  {
    var ins', os' := ins + if op.Insert? then [op.i] else [], StepOrigins(os, |ins|, op, q);
    if op.Insert? && op.i.qpn == q {
      assert os'[|os|] == Origin(|ins|, 0);
    } else if op.Update? && op.u.qpn == q && os != [] && Retransmitter.KeepsEntry(op.u.opCode) {
      assert StoredAs(ins, os[0], q, m.lists[q][0]);
      OneMoreIff(ins[os[0].k].entry, os[0].j);
      assert os'[0] == Origin(os[0].k, os[0].j + 1);
    }
  }

  // Exactly when every entry on q's list, at every point of the log, is a request from
  // one of its own PSNs on.
  lemma {:induction false} WholeIff(queues: nat, log: seq<Op>, q: nat)
    requires q < queues && LengthsFit(Inserts(log), q)
    ensures WholeOn(log, q) <==> TimelyOn(queues, log, q)
    decreases |log|
  {
    if log != [] {
      var before, op := log[..|log| - 1], log[|log| - 1];
      var ins := Inserts(before);
      assert Inserts(log) == ins + if op.Insert? then [op.i] else [];
      assert forall k :: 0 <= k < |ins| ==> Inserts(log)[k] == ins[k];
      WholeIff(queues, before, q);
      ListsAreStored(queues, before, q);
      if WholeOn(before, q) {
        StepWholeIff(Replay(EmptyModel(queues), before), ins, Origins(before, q), op, q);
      }
    }
  }

  lemma {:induction false} WholeAt(log: seq<Op>, q: nat, n: nat)
    requires WholeOn(log, q) && n <= |log|
    ensures Whole(Inserts(log[..n]), Origins(log[..n], q))
    decreases |log|
  {
    if n == |log| {
      assert log[..n] == log;
    } else {
      WholeAt(log[..|log| - 1], q, n);
      assert log[..|log| - 1][..n] == log[..n];
    }
  }

  // The event is request k of those inserted, from its j-th PSN on.
  ghost predicate Continues(ins: seq<InsertReq>, ev: Retransmitter.Event, k: nat, j: nat) {
    && k < |ins| && ins[k].qpn == ev.qpn && j < PagesOf(ins[k].entry)
    && ev.entry == AdvanceBy(ins[k].entry, j)
  }

  lemma ListedContinues(queues: nat, log: seq<Op>, ev: Retransmitter.Event) returns (k: nat, j: nat)
    requires ev.qpn < queues && LengthsFit(Inserts(log), ev.qpn) && TimelyOn(queues, log, ev.qpn) && WasListed(log, ev)
    ensures Continues(Inserts(log), ev, k, j)
  {
    WholeIff(queues, log, ev.qpn);
    var n: nat, m: nat :| ListedAt(log, ev, n, m);
    WholeAt(log, ev.qpn, n);
    InsertsGrow(log, n);
    var o := Origins(log[..n], ev.qpn)[m];
    k, j := o.k, o.j;
  }

  // ---------------------------------------------------------------- runs of the retransmitter

  lemma TargetExtends(s: Retransmitter.State, pos: nat, m: Model)
    ensures m.events <= TargetOf(s, pos, m).events
  {
  }

  lemma EventsExtend(queues: nat, log: seq<Op>, ev: seq<Retransmitter.Event>)
    requires ev <= Replay(EmptyModel(queues), log).events
    ensures forall i :: 0 <= i < |ev| ==> WasListed(log, ev[i])
  {
    EventsWereListed(queues, log);
  }

  // In every run, under any schedule: every event emitted was on its queue's list.
  lemma EmittedWereListed(s: Retransmitter.State, actions: seq<Retransmitter.Action>)
    requires Retransmitter.Initial(s) && RetransmitterTheorems.AllAllowed(actions, |s.sv.ptrs|)
    ensures
      var e, log := Retransmitter.Run(s, actions), RetransmitterTheorems.TrackOf(s, actions).log;
      forall i :: 0 <= i < |e.events| ==> WasListed(log, e.events[i])
  {
    RetransmitterTheorems.RunRefines(s, actions);
    var e, t := Retransmitter.Run(s, actions), RetransmitterTheorems.TrackOf(s, actions);
    TargetExtends(e, t.pos, Current(e, t));
    EventsExtend(|s.sv.ptrs|, t.log, e.events);
  }

  lemma {:induction false} SelectedAre(ops: seq<Op>, like: InsertReq)
    ensures |RetransmitterTheorems.Select(ops, Insert(like))| == |Inserts(ops)|
    ensures forall k :: 0 <= k < |Inserts(ops)| ==>
              RetransmitterTheorems.Select(ops, Insert(like))[k] == Insert(Inserts(ops)[k])
    decreases |ops|
  {
    if ops != [] {
      SelectedAre(ops[..|ops| - 1], like);
    }
  }

  // The requests inserted are a prefix of those offered.
  lemma InsertsInOrder(s: Retransmitter.State, actions: seq<Retransmitter.Action>)
    requires Retransmitter.Initial(s) && RetransmitterTheorems.AllAllowed(actions, |s.sv.ptrs|)
    ensures Inserts(RetransmitterTheorems.TrackOf(s, actions).log) <= Inserts(RetransmitterTheorems.Offered(actions))
  {
    var log, offered := RetransmitterTheorems.TrackOf(s, actions).log, RetransmitterTheorems.Offered(actions);
    if Inserts(log) != [] {
      var like := Inserts(log)[0];
      RetransmitterTheorems.AcceptsInOrder(s, actions, Insert(like));
      SelectedAre(log, like);
      SelectedAre(offered, like);
      forall k | 0 <= k < |Inserts(log)|
        ensures k < |Inserts(offered)| && Inserts(log)[k] == Inserts(offered)[k]
      {
        assert RetransmitterTheorems.Select(offered, Insert(like))[k] == RetransmitterTheorems.Select(log, Insert(like))[k];
      }
    }
  }

  // In every run, if the partial updates on the event's queue were timely, each event is
  // a request offered, from one of its own PSNs on.
  lemma EmittedContinue(s: Retransmitter.State, actions: seq<Retransmitter.Action>, i: nat) returns (k: nat, j: nat)
    requires Retransmitter.Initial(s) && RetransmitterTheorems.AllAllowed(actions, |s.sv.ptrs|)
    requires i < |Retransmitter.Run(s, actions).events| && Retransmitter.Run(s, actions).events[i].qpn < |s.sv.ptrs|
    requires
      var log, q := RetransmitterTheorems.TrackOf(s, actions).log, Retransmitter.Run(s, actions).events[i].qpn;
      LengthsFit(Inserts(log), q) && TimelyOn(|s.sv.ptrs|, log, q)
    ensures Continues(Inserts(RetransmitterTheorems.Offered(actions)), Retransmitter.Run(s, actions).events[i], k, j)
  {
    EmittedWereListed(s, actions);
    InsertsInOrder(s, actions);
    k, j := ListedContinues(|s.sv.ptrs|, RetransmitterTheorems.TrackOf(s, actions).log,
                            Retransmitter.Run(s, actions).events[i]);
  }
}
