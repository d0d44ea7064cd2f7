// Runs of the retransmitter that show what the conditions of the theorems shut out. Any
// log of requests can happen, as long as there is room for the inserts and no NAK blocks;
// so a log on the plain map is enough to exhibit a run of the four processes.
module RetransmitterRuns {
  import opened InfiniBand
  import opened LinkedPool
  import opened Retransmitter
  import opened RetransmitterProof
  import opened RetransmitterTheorems
  import opened RetransmitterProgress
  import opened ReadTransfer
  import Resumption

  // ---------------------------------------------------------------- room for inserts

  // Every index handed out is free again, on its way back, or was used for an insert.
  ghost predicate Covered(s: State, inserted: nat) {
    s.sv.issued <= |s.sv.freeList| + |s.sv.release| + inserted
  }

  lemma InsertsSnoc(log: seq<Op>, op: Op)
    ensures Resumption.Inserts(log + [op]) == Resumption.Inserts(log) + if op.Insert? then [op.i] else []
  {
    assert (log + [op])[..|log|] == log;
  }

  lemma MainCovers(s: State, t: Track)
    requires s.ctl == Main && (s.sv.freeList != [] ==> s.sv.freeList[0] < |t.pool.place|)
    requires Covered(s, |Resumption.Inserts(t.log)|)
    ensures Covered(MainStep(s), |Resumption.Inserts(MainTrack(s, t).log)|)
  {
    hide Resumption.Inserts;
    if s.updates != [] {
      InsertsSnoc(t.log, Update(s.updates[0]));
    } else if s.naks != [] {
      InsertsSnoc(t.log, Nak(s.naks[0]));
    } else if s.timeouts != [] {
      InsertsSnoc(t.log, Timeout(s.timeouts[0]));
    } else if s.inserts != [] && s.sv.freeList != [] {
      InsertsSnoc(t.log, Insert(s.inserts[0]));
    }
  }

  lemma FreeListCovers(s: State, inserted: nat)
    requires Covered(s, inserted)
    ensures Covered(s.(sv := FreeListStep(s.sv)), inserted)
  {
  }

  // Nobody else takes an index or hands one out.
  lemma OthersCover(s: State, a: Action, inserted: nat)
    requires Covered(s, inserted) && !a.FreeListHandler? && !(a.ProcessRetransmissions? && s.ctl == Main)
    ensures Covered(Next(s, a), inserted)
  {
  }

  lemma StepCovers(s: State, t: Track, a: Action)
    requires s.sv.freeList != [] ==> s.sv.freeList[0] < |t.pool.place|
    requires Covered(s, |Resumption.Inserts(t.log)|)
    ensures Covered(Next(s, a), |Resumption.Inserts(NextTrack(s, t, a).log)|)
  {
    if a.ProcessRetransmissions? && s.ctl == Main {
      MainCovers(s, t);
    } else {
      SameLog(s, t, a);
      hide Covered, Resumption.Inserts;
      if a.FreeListHandler? {
        FreeListCovers(s, |Resumption.Inserts(t.log)|);
      } else {
        OthersCover(s, a, |Resumption.Inserts(t.log)|);
      }
    }
  }

  lemma SameLog(s: State, t: Track, a: Action)
    requires !(a.ProcessRetransmissions? && s.ctl == Main)
    ensures NextTrack(s, t, a).log == t.log
  {
  }

  lemma {:induction false} RunCovers(s: State, actions: seq<Action>)
    requires Initial(s) && AllAllowed(actions, |s.sv.ptrs|)
    ensures Covered(Run(s, actions), |Resumption.Inserts(TrackOf(s, actions).log)|)
    decreases |actions|
  {
    hide Next, NextTrack;
    if actions != [] {
      var before := actions[..|actions| - 1];
      RunCovers(s, before);
      FreeListInRange(s, before);
      StepCovers(Run(s, before), TrackOf(s, before), actions[|actions| - 1]);
    }
  }

  // With an insert to spare, the free list handler has an index to offer.
  lemma IndexOffered(s: State, inserted: nat)
    requires Covered(s, inserted) && inserted < |s.sv.nodes|
    ensures FreeListStep(s.sv).freeList != []
  {
  }

  // ---------------------------------------------------------------- one request at a time

  predicate NoInputs(s: State) { s.updates == [] && s.naks == [] && s.timeouts == [] && s.inserts == [] }

  predicate AtRest(s: State) { s.ctl == Main && NoInputs(s) }

  lemma ClientInputs(s: State, a: Action)
    requires NoInputs(s) && s.ctl != Main
    requires a.PointerTable? || a.MetaTable? || a.ProcessRetransmissions?
    ensures NoInputs(Next(s, a))
  {
  }

  lemma NeedAdvances(s: State, t: Track)
    requires PoolInv(s, t) && s.ctl != Main && !Stuck(s, t) && NoInputs(s)
    ensures
      var s', t' := Next(s, Need(s)), NextTrack(s, t, Need(s));
      && PoolInv(s', t') && !Stuck(s', t') && NoInputs(s') && t'.log == t.log
      && (s'.ctl == Main || Weight(s', t') < Weight(s, t))
    ensures Allowed(Need(s), |s.sv.ptrs|)
  {
    StepAdvances(s, t, Need(s));
    ClientInputs(s, Need(s));
    SameMainLog(s, t);
    hide PoolInv, Stuck, Weight, NoInputs, Next, NextTrack;
  }

  lemma SameMainLog(s: State, t: Track)
    requires s.ctl != Main
    ensures NextTrack(s, t, Need(s)).log == t.log
  {
    SameLog(s, t, Need(s));
  }

  // No new request is offered.
  predicate Internal(actions: seq<Action>) {
    forall k :: 0 <= k < |actions| ==> OfferedBy(actions[k]) == []
  }

  lemma NeedIsInternal(s: State, rest: seq<Action>)
    requires Internal(rest)
    ensures Internal([Need(s)] + rest)
  {
  }

  // The request in progress, finished with nothing else offered.
  lemma {:induction false} Complete(s: State, t: Track) returns (actions: seq<Action>)
    requires PoolInv(s, t) && !Stuck(s, t) && NoInputs(s)
    ensures Internal(actions)
    ensures AllAllowed(actions, |s.sv.ptrs|) && AtRest(Run(s, actions)) && TrackFrom(s, t, actions).log == t.log
    decreases if s.ctl == Main then 0 else 1 + Weight(s, t)
  {
    if s.ctl == Main {
      actions := [];
    } else {
      NeedAdvances(s, t);
      hide PoolInv, Stuck, Weight, Need, NoInputs, Next, NextTrack, Run, Allowed, AllAllowed, TrackFrom, Internal;
      var a := Need(s);
      var rest := Complete(Next(s, a), NextTrack(s, t, a));
      actions := [a] + rest;
      NeedIsInternal(s, rest);
      FirstAndRest(s, t, a, rest);
    }
  }

  lemma FirstAndRest(s: State, t: Track, a: Action, rest: seq<Action>)
    requires Allowed(a, |s.sv.ptrs|) && AllAllowed(rest, |s.sv.ptrs|)
    ensures AllAllowed([a] + rest, |s.sv.ptrs|) && Run(s, [a] + rest) == Run(Next(s, a), rest)
    ensures TrackFrom(s, t, [a] + rest) == TrackFrom(Next(s, a), NextTrack(s, t, a), rest)
  {
    hide Next, NextTrack, Run;
    RunFirst(s, [a] + rest);
    assert ([a] + rest)[1..] == rest;
  }

  lemma {:induction false} TrackConcat(s: State, a: seq<Action>, b: seq<Action>)
    ensures TrackOf(s, a + b) == TrackFrom(Run(s, a), TrackOf(s, a), b)
    decreases |b|
  {
    hide Next, NextTrack;
    if b == [] {
      assert a + b == a;
    } else {
      assert a + b == (a + [b[0]]) + b[1..];
      assert (a + [b[0]])[..|a|] == a;
      TrackConcat(s, a + [b[0]], b[1..]);
    }
  }

  function OfferOf(op: Op): Action {
    match op
    case Insert(i) => OfferInsert(i)
    case Update(u) => OfferUpdate(u)
    case Nak(r) => OfferNak(r)
    case Timeout(t) => OfferTimeout(t)
  }

  predicate OpAllowed(op: Op, queues: nat) { Allowed(OfferOf(op), queues) }

  // A NAK of this kind does not block.
  ghost predicate Harmless(m: Model, op: Op) {
    op.Nak? && op.r.qpn < |m.lists| && m.lists[op.r.qpn] != [] ==> !Absent(m.lists[op.r.qpn], op.r.psn)
  }

  // Offered at rest, the request is the next to be taken.
  lemma TakenUp(s: State, op: Op)
    requires AtRest(s) && (op.Insert? ==> s.sv.freeList != [])
    ensures
      var s1 := Next(s, OfferOf(op));
      var s' := MainStep(s1);
      && s1.ctl == Main && s' != s1 && NoInputs(s') && InProgress(s') == op && s'.ctl != Main && s'.ctl != Retrans1
      && (s'.ctl == Retrans0 ==> op.Nak? && s'.retrans == op.r)
  {
  }

  lemma HarmlessGoesOn(s: State, pos: nat, m: Model, op: Op)
    requires Harmless(m, op) && s.ctl != Retrans1 && (s.ctl == Retrans0 ==> op.Nak? && s.retrans == op.r)
    ensures !Doomed(s, pos, m)
  {
  }

  lemma Takes(s: State, t: Track, op: Op)
    requires PoolInv(s, t) && AtRest(s) && OpAllowed(op, |s.sv.ptrs|) && Harmless(Current(s, t), op)
    requires op.Insert? ==> s.sv.freeList != []
    ensures
      var s1 := Next(s, OfferOf(op));
      var s', t' := MainStep(s1), MainTrack(s1, t);
      s1.ctl == Main && NoInputs(s') && t'.log == t.log + [op] && PoolInv(s', t') && !Stuck(s', t')
  {
    var s1 := Next(s, OfferOf(op));
    TakenUp(s, op);
    NewInputs(s, t, OfferOf(op));
    assert NextTrack(s, t, OfferOf(op)) == t;
    hide PoolInv, Current, Next, NoInputs, InProgress, Doomed;
    MainMoves(s1, t);
    FreeKnown(s1, t);
    MainAccepts(s1, t, Current(s, t));
    hide MainStep, MainTrack;
    HarmlessGoesOn(MainStep(s1), MainTrack(s1, t).pos, Current(s, t), op);
  }

  lemma FreeKnown(s: State, t: Track)
    requires PoolInv(s, t)
    ensures s.sv.freeList != [] ==> s.sv.freeList[0] < |t.pool.place|
  {
  }

  ghost predicate Playable(queues: nat, log: seq<Op>)
    decreases |log|
  {
    if log == [] then true
    else
      var before, op := log[..|log| - 1], log[|log| - 1];
      Playable(queues, before) && OpAllowed(op, queues) && Harmless(Replay(EmptyModel(queues), before), op)
  }

  // Taking up one more request at rest.
  lemma Begins(s: State, t: Track, inserted: nat, op: Op)
    requires PoolInv(s, t) && AtRest(s) && Covered(s, inserted) && OpAllowed(op, |s.sv.ptrs|)
    requires Harmless(Current(s, t), op) && (op.Insert? ==> inserted < |s.sv.nodes|)
    ensures
      var s1, t1 := Next(s, FreeListHandler), NextTrack(s, t, FreeListHandler);
      var s2, t2 := Next(s1, OfferOf(op)), NextTrack(s1, t1, OfferOf(op));
      var s3, t3 := Next(s2, ProcessRetransmissions), NextTrack(s2, t2, ProcessRetransmissions);
      NoInputs(s3) && t3.log == t.log + [op] && PoolInv(s3, t3) && !Stuck(s3, t3)
  {
    AfterFreeList(s, t, inserted, op);
    hide PoolInv, Current, Stuck, Harmless, Covered, Next, NextTrack, OfferOf, NoInputs;
    var s1, t1 := Next(s, FreeListHandler), NextTrack(s, t, FreeListHandler);
    Takes(s1, t1, op);
    OfferTrack(s1, t1, op);
    ClientIsMain(Next(s1, OfferOf(op)), t1);
  }

  lemma AfterFreeList(s: State, t: Track, inserted: nat, op: Op)
    requires PoolInv(s, t) && AtRest(s) && Covered(s, inserted) && (op.Insert? ==> inserted < |s.sv.nodes|)
    ensures
      var s1, t1 := Next(s, FreeListHandler), NextTrack(s, t, FreeListHandler);
      && PoolInv(s1, t1) && Current(s1, t1) == Current(s, t) && AtRest(s1) && t1.log == t.log
      && |s1.sv.ptrs| == |s.sv.ptrs| && (op.Insert? ==> s1.sv.freeList != [])
  {
    if op.Insert? { IndexOffered(s, inserted); }
    ServerStep(s, t, FreeListHandler);
    hide PoolInv, Current, FreeListStep, FreeListGhost;
  }

  lemma OfferTrack(s: State, t: Track, op: Op)
    ensures NextTrack(s, t, OfferOf(op)) == t
  {
  }

  lemma ClientIsMain(s: State, t: Track)
    requires s.ctl == Main
    ensures Next(s, ProcessRetransmissions) == MainStep(s)
    ensures NextTrack(s, t, ProcessRetransmissions) == MainTrack(s, t)
  {
  }

  function Taking(op: Op, rest: seq<Action>): seq<Action> {
    [FreeListHandler, OfferOf(op), ProcessRetransmissions] + rest
  }

  // One more request, from rest to rest.
  lemma PlayOne(s: State, a: seq<Action>, op: Op) returns (rest: seq<Action>)
    requires Initial(s) && AllAllowed(a, |s.sv.ptrs|) && AtRest(Run(s, a)) && OpAllowed(op, |s.sv.ptrs|)
    requires Harmless(Replay(EmptyModel(|s.sv.ptrs|), TrackOf(s, a).log), op)
    requires op.Insert? ==> |Resumption.Inserts(TrackOf(s, a).log)| < |s.sv.nodes|
    ensures Internal(rest)
    ensures
      var b := a + Taking(op, rest);
      AllAllowed(b, |s.sv.ptrs|) && AtRest(Run(s, b)) && TrackOf(s, b).log == TrackOf(s, a).log + [op]
  {
    var e, t := Run(s, a), TrackOf(s, a);
    RefinesMap(s, a);
    RunCovers(s, a);
    hide Initial, Run, TrackOf, PoolInv, Current, Stuck, Covered, Harmless, Replay, Resumption.Inserts, Next, NextTrack, NoInputs;
    Begins(e, t, |Resumption.Inserts(t.log)|, op);
    var e1, t1 := Next(e, FreeListHandler), NextTrack(e, t, FreeListHandler);
    var e2, t2 := Next(e1, OfferOf(op)), NextTrack(e1, t1, OfferOf(op));
    rest := Complete(Next(e2, ProcessRetransmissions), NextTrack(e2, t2, ProcessRetransmissions));
    Chained(s, a, op, rest);
    AllowedJoins(a, op, rest, |s.sv.ptrs|);
  }

  lemma AllowedJoins(a: seq<Action>, op: Op, rest: seq<Action>, queues: nat)
    requires AllAllowed(a, queues) && OpAllowed(op, queues) && AllAllowed(rest, queues)
    ensures AllAllowed(a + Taking(op, rest), queues)
  {
  }

  lemma Chained(s: State, a: seq<Action>, op: Op, rest: seq<Action>)
    ensures
      var e, t, o := Run(s, a), TrackOf(s, a), OfferOf(op);
      var e1, t1 := Next(e, FreeListHandler), NextTrack(e, t, FreeListHandler);
      var e2, t2 := Next(e1, o), NextTrack(e1, t1, o);
      var e3, t3 := Next(e2, ProcessRetransmissions), NextTrack(e2, t2, ProcessRetransmissions);
      var b := a + Taking(op, rest);
      && Run(s, b) == Run(e3, rest) && TrackOf(s, b) == TrackFrom(e3, t3, rest)
  {
    hide Next, NextTrack, Run, TrackOf;
    var e, t, o := Run(s, a), TrackOf(s, a), OfferOf(op);
    var e1, t1 := Next(e, FreeListHandler), NextTrack(e, t, FreeListHandler);
    var tail := Taking(op, rest);
    RunConcat(s, a, tail);
    TrackConcat(s, a, tail);
    RunFirst(e, tail);
    assert tail[1..] == [o, ProcessRetransmissions] + rest;
    RunFirst(e1, tail[1..]);
    assert tail[1..][1..] == [ProcessRetransmissions] + rest;
    RunFirst(Next(e1, o), tail[1..][1..]);
    assert tail[1..][1..][1..] == rest;
    assert TrackFrom(e, t, tail) == TrackFrom(e1, t1, tail[1..]);
    assert TrackFrom(e1, t1, tail[1..]) == TrackFrom(Next(e1, o), NextTrack(e1, t1, o), tail[1..][1..]);
  }

  // Any playable log with room for its inserts is the log of a run from power-up.
  lemma {:induction false} Play(s: State, log: seq<Op>) returns (actions: seq<Action>)
    requires Initial(s) && Playable(|s.sv.ptrs|, log) && |Resumption.Inserts(log)| <= |s.sv.nodes|
    ensures AllAllowed(actions, |s.sv.ptrs|) && AtRest(Run(s, actions)) && TrackOf(s, actions).log == log
    decreases |log|
  {
    if log == [] {
      actions := [];
    } else {
      var before, op := log[..|log| - 1], log[|log| - 1];
      assert before + [op] == log;
      InsertsSnoc(before, op);
      var a := Play(s, before);
      var rest := PlayOne(s, a, op);
      actions := a + Taking(op, rest);
    }
  }

  // ---------------------------------------------------------------- a NAK that blocks

  // One request, then a NAK for another PSN: from power-up into a state from which no
  // schedule and no further input leads back.
  lemma NakBlocks(s: State, qpn: nat, entry: Entry, psn: nat) returns (actions: seq<Action>)
    requires Initial(s) && qpn < |s.sv.ptrs| && |s.sv.nodes| > 0 && psn != entry.psn
    ensures AllAllowed(actions, |s.sv.ptrs|) && Blocked(Run(s, actions))
  {
    ReplayOne(|s.sv.ptrs|, qpn, entry);
    hide Initial, Playable, Replay, Resumption.Inserts;
    var a := Play(s, [Insert(InsertReq(qpn, entry))]);
    RefinesMap(s, a);
    actions := NakBlocksFrom(s, a, RetransReq(qpn, psn));
  }

  lemma ReplayOne(queues: nat, qpn: nat, entry: Entry)
    requires qpn < queues
    ensures
      var log := [Insert(InsertReq(qpn, entry))];
      && Replay(EmptyModel(queues), log).lists == EmptyModel(queues).lists[qpn := [entry]]
      && Playable(queues, log) && |Resumption.Inserts(log)| == 1
  {
    var log := [Insert(InsertReq(qpn, entry))];
    Plays(queues, [], log[0]);
    assert [] + log == log && [] + [entry] == [entry];
  }

  // From any run at rest: a NAK for a PSN that is not on the list blocks.
  lemma NakBlocksFrom(s: State, a: seq<Action>, r: RetransReq) returns (actions: seq<Action>)
    requires Initial(s) && AllAllowed(a, |s.sv.ptrs|) && AtRest(Run(s, a)) && r.qpn < |s.sv.ptrs|
    requires PoolInv(Run(s, a), TrackOf(s, a))
    requires
      var lists := Current(Run(s, a), TrackOf(s, a)).lists;
      r.qpn < |lists| && lists[r.qpn] != [] && Absent(lists[r.qpn], r.psn)
    ensures AllAllowed(actions, |s.sv.ptrs|) && Blocked(Run(s, actions))
  {
    var e, t, b := Run(s, a), TrackOf(s, a), a + [OfferNak(r)];
    OneMore(s, a, OfferNak(r));
    NewInputs(e, t, OfferNak(r));
    NakIsNext(e, t, r);
    actions := b + [ProcessRetransmissions];
    OneMore(s, b, ProcessRetransmissions);
    hide Initial, Run, TrackOf, PoolInv, Current, Blocked, Ends, Absent, Next, NextTrack, NoInputs;
    NakBlocksIff(s, b);
  }

  lemma OneMore(s: State, actions: seq<Action>, a: Action)
    requires AllAllowed(actions, |s.sv.ptrs|) && Allowed(a, |s.sv.ptrs|)
    ensures Run(s, actions + [a]) == Next(Run(s, actions), a) && AllAllowed(actions + [a], |s.sv.ptrs|)
    ensures TrackOf(s, actions + [a]) == NextTrack(Run(s, actions), TrackOf(s, actions), a)
  {
    assert (actions + [a])[..|actions|] == actions;
  }

  lemma NakIsNext(e: State, t: Track, r: RetransReq)
    requires AtRest(e)
    ensures NextTrack(e, t, OfferNak(r)) == t
    ensures
      var e' := Next(e, OfferNak(r));
      e'.ctl == Main && e'.updates == [] && e'.naks == [r] && Next(e', ProcessRetransmissions) == ProcessStep(e')
  {
  }

  // ---------------------------------------------------------------- a duplicate acknowledgement

  // A write, a read of three pages and another write, numbered from base on.
  function FirstEntry(base: nat): Entry { Entry(base % PSN_MOD, WriteOnly, 0, 0, 64, false, 0) }

  function ReadEntry(base: nat): Entry { Entry((base + 1) % PSN_MOD, ReadRequest, 0, 0, 3 * PMTU, false, 0) }

  function LastEntry(base: nat): Entry { Entry((base + 4) % PSN_MOD, WriteOnly, 0, 0, 64, false, 0) }

  function Given(q: nat, base: nat): seq<InsertReq> {
    [InsertReq(q, FirstEntry(base)), InsertReq(q, ReadEntry(base)), InsertReq(q, LastEntry(base))]
  }

  function AckFor(q: nat, base: nat): UpdateReq { UpdateReq(q, base % PSN_MOD, Ack) }

  function PageFor(q: nat, base: nat, page: nat): UpdateReq {
    UpdateReq(q, (base + 1 + page) % PSN_MOD, if page == 0 then ReadRespFirst else ReadRespMiddle)
  }

  function Inserting(q: nat, base: nat): seq<Op> {
    [] + [Insert(Given(q, base)[0])] + [Insert(Given(q, base)[1])] + [Insert(Given(q, base)[2])]
  }

  // The first write is acknowledged and the first page answered. Then the acknowledgement
  // comes again, and removes the read.
  function HeadLost(q: nat, base: nat): seq<Op> {
    Inserting(q, base) + [Update(AckFor(q, base))] + [Update(PageFor(q, base, 0))] + [Update(AckFor(q, base))]
  }

  // The second page then advances the last write, and a timeout sends that again.
  function DuplicateAck(q: nat, base: nat): seq<Op> {
    HeadLost(q, base) + [Update(PageFor(q, base, 1))] + [Timeout(RetransReq(q, 0))]
  }

  // After the log, q's list is this and nothing has been emitted.
  ghost predicate Reached(queues: nat, log: seq<Op>, q: nat, list: seq<Entry>, ins: seq<InsertReq>) {
    var m := Replay(EmptyModel(queues), log);
    && q < |m.lists| == queues && m.lists[q] == list && m.events == []
    && Resumption.Inserts(log) == ins && Playable(queues, log) && Resumption.NoneEarly(queues, log, q)
  }

  lemma InsertReaches(queues: nat, log: seq<Op>, q: nat, list: seq<Entry>, ins: seq<InsertReq>, e: Entry)
    requires Reached(queues, log, q, list, ins)
    ensures Reached(queues, log + [Insert(InsertReq(q, e))], q, list + [e], ins + [InsertReq(q, e)])
  {
    Plays(queues, log, Insert(InsertReq(q, e)));
  }

  lemma UpdateReaches(queues: nat, log: seq<Op>, q: nat, list: seq<Entry>, ins: seq<InsertReq>, u: UpdateReq)
    requires Reached(queues, log, q, list, ins) && u.qpn == q && list != []
    ensures Reached(queues, log + [Update(u)], q,
                    if KeepsEntry(u.opCode) then list[0 := Advance(list[0])] else list[1..], ins)
    ensures KeepsEntry(u.opCode) && !list[0].opCode.ReadRequest? ==> !Resumption.TimelyOn(queues, log + [Update(u)], q)
  {
    Plays(queues, log, Update(u));
  }

  lemma TimeoutReaches(queues: nat, log: seq<Op>, q: nat, e: Entry, ins: seq<InsertReq>)
    requires Reached(queues, log, q, [e], ins) && !Resumption.TimelyOn(queues, log, q)
    ensures
      var log' := log + [Timeout(RetransReq(q, 0))];
      && Replay(EmptyModel(queues), log').events == [Event(q, e)]
      && Resumption.Inserts(log') == ins && Playable(queues, log') && Resumption.NoneEarly(queues, log', q)
      && !Resumption.TimelyOn(queues, log', q)
  {
    Plays(queues, log, Timeout(RetransReq(q, 0)));
    assert EventsOf(q, [e]) == [Event(q, e)] && [] + [Event(q, e)] == [Event(q, e)];
  }

  lemma InsertsReached(queues: nat, q: nat, base: nat)
    requires q < queues
    ensures Reached(queues, Inserting(q, base), q, [FirstEntry(base), ReadEntry(base), LastEntry(base)], Given(q, base))
  {
    PlaysNone(queues, q);
    hide Reached;
    var w, rd, wr := FirstEntry(base), ReadEntry(base), LastEntry(base);
    var l1 := [] + [Insert(InsertReq(q, w))];
    InsertReaches(queues, [], q, [], [], w);
    InsertReaches(queues, l1, q, [] + [w], [] + [InsertReq(q, w)], rd);
    InsertReaches(queues, l1 + [Insert(InsertReq(q, rd))], q, [] + [w] + [rd],
                  [] + [InsertReq(q, w)] + [InsertReq(q, rd)], wr);
    assert [] + [w] + [rd] + [wr] == [w, rd, wr];
    assert [] + [InsertReq(q, w)] + [InsertReq(q, rd)] + [InsertReq(q, wr)] == Given(q, base);
  }

  lemma LossReached(queues: nat, q: nat, base: nat)
    requires q < queues
    ensures Reached(queues, HeadLost(q, base), q, [LastEntry(base)], Given(q, base))
  {
    InsertsReached(queues, q, base);
    hide Reached, Inserting, Given, Advance, FirstEntry, ReadEntry, LastEntry;
    var w, rd, wr, ins := FirstEntry(base), ReadEntry(base), LastEntry(base), Given(q, base);
    var l1 := Inserting(q, base) + [Update(AckFor(q, base))];
    UpdateReaches(queues, Inserting(q, base), q, [w, rd, wr], ins, AckFor(q, base));
    assert [w, rd, wr][1..] == [rd, wr];
    UpdateReaches(queues, l1, q, [rd, wr], ins, PageFor(q, base, 0));
    assert [rd, wr][0 := Advance(rd)] == [Advance(rd), wr];
    UpdateReaches(queues, l1 + [Update(PageFor(q, base, 0))], q, [Advance(rd), wr], ins, AckFor(q, base));
    assert [Advance(rd), wr][1..] == [wr];
  }

  lemma ReplayDuplicate(queues: nat, q: nat, base: nat)
    requires q < queues
    ensures Replay(EmptyModel(queues), DuplicateAck(q, base)).events == [Event(q, Advance(LastEntry(base)))]
    ensures Resumption.Inserts(DuplicateAck(q, base)) == Given(q, base)
    ensures Playable(queues, DuplicateAck(q, base)) && Resumption.NoneEarly(queues, DuplicateAck(q, base), q)
    ensures !Resumption.TimelyOn(queues, DuplicateAck(q, base), q)
  {
    LossReached(queues, q, base);
    hide Reached, HeadLost, Given, Advance, Replay, Resumption.Inserts, Playable, Resumption.TimelyOn,
      Resumption.NoneEarly;
    var wr := LastEntry(base);
    UpdateReaches(queues, HeadLost(q, base), q, [wr], Given(q, base), PageFor(q, base, 1));
    assert [wr][0 := Advance(wr)] == [Advance(wr)];
    TimeoutReaches(queues, HeadLost(q, base) + [Update(PageFor(q, base, 1))], q, Advance(wr), Given(q, base));
  }

  lemma PlaysNone(queues: nat, q: nat)
    requires q < queues
    ensures Reached(queues, [], q, [], [])
  {
  }

  lemma Plays(queues: nat, log: seq<Op>, op: Op)
    ensures Replay(EmptyModel(queues), log + [op]) == ApplyOp(Replay(EmptyModel(queues), log), op)
    ensures Resumption.Inserts(log + [op]) == Resumption.Inserts(log) + if op.Insert? then [op.i] else []
    ensures Playable(queues, log + [op])
            <==> Playable(queues, log) && OpAllowed(op, queues) && Harmless(Replay(EmptyModel(queues), log), op)
    ensures forall q :: Resumption.TimelyOn(queues, log + [op], q)
                        <==> Resumption.TimelyOn(queues, log, q)
                             && Resumption.Timely(Replay(EmptyModel(queues), log), op, q)
    ensures forall q :: Resumption.NoneEarly(queues, log + [op], q)
                        <==> Resumption.NoneEarly(queues, log, q)
                             && Resumption.InTime(Replay(EmptyModel(queues), log), op, q)
  {
    assert (log + [op])[..|log|] == log;
  }

  // A run from power-up in which the retransmitter emits an event that is no request it
  // was given, from whatever PSN on: a write of almost 2^32 bytes, for the PSN behind the
  // last write's.
  lemma EmitsForeign(s: State, q: nat, base: nat) returns (actions: seq<Action>)
    requires Initial(s) && q < |s.sv.ptrs| && |s.sv.nodes| >= 3
    ensures AllAllowed(actions, |s.sv.ptrs|) && TrackOf(s, actions).log == DuplicateAck(q, base)
    ensures
      var e, ins := Run(s, actions), Resumption.Inserts(TrackOf(s, actions).log);
      && |e.events| == 1 && e.events[0].entry.opCode == WriteOnly && e.events[0].entry.psn == (base + 5) % PSN_MOD
      && e.events[0].entry.length == LEN_MOD - (PMTU - 64)
      && (forall k: nat, j: nat :: !Resumption.Continues(ins, e.events[0], k, j))
      && !Resumption.TimelyOn(|s.sv.ptrs|, TrackOf(s, actions).log, q)
  {
    ReplayDuplicate(|s.sv.ptrs|, q, base);
    ForeignFields(base);
    var ev := Event(q, Advance(LastEntry(base)));
    hide Initial, Playable, Replay, Resumption.Inserts, Resumption.TimelyOn, Resumption.Continues, DuplicateAck, Run,
      TrackOf, Advance, NoInputs;
    actions := Play(s, DuplicateAck(q, base));
    EventsAtRest(s, actions);
    forall k: nat, j: nat ensures !Resumption.Continues(Resumption.Inserts(DuplicateAck(q, base)), ev, k, j) {
      NotContinued(q, base, k, j);
    }
  }

  lemma EventsAtRest(s: State, actions: seq<Action>)
    requires Initial(s) && AllAllowed(actions, |s.sv.ptrs|) && Run(s, actions).ctl == Main
    ensures Run(s, actions).events == Replay(EmptyModel(|s.sv.ptrs|), TrackOf(s, actions).log).events
  {
    RefinesMap(s, actions);
  }

  lemma ForeignFields(base: nat)
    ensures
      var e := Advance(LastEntry(base));
      e.opCode == WriteOnly && e.psn == (base + 5) % PSN_MOD && e.length == LEN_MOD - (PMTU - 64)
  {
    AddMod(base + 4, 1);
  }

  lemma NotContinued(q: nat, base: nat, k: nat, j: nat)
    ensures !Resumption.Continues(Given(q, base), Event(q, Advance(LastEntry(base))), k, j)
  {
    if k < 3 {
      var e := Given(q, base)[k].entry;
      ForeignFields(base);
      Resumption.LengthAfter(e, j);
      Resumption.NotReadOnePage(e);
    }
  }
}
