// What holds of the retransmitter in every run from power-up.
module RetransmitterTheorems {
  import opened Wrappers
  import opened InfiniBand
  import opened LinkedPool
  import opened Retransmitter
  import opened RetransmitterProof

  // ---------------------------------------------------------------- runs refine the map

  ghost predicate AllAllowed(actions: seq<Action>, queues: nat) {
    forall k :: 0 <= k < |actions| ==> Allowed(actions[k], queues)
  }

  ghost function StartTrack(s: State): Track {
    Track(Ghost(seq(|s.sv.ptrs|, _ => []), seq(|s.sv.nodes|, _ => Unissued)), 0, [])
  }

  ghost function TrackOf(s: State, actions: seq<Action>): Track
    decreases |actions|
  {
    if actions == [] then StartTrack(s)
    else
      var before := actions[..|actions| - 1];
      NextTrack(Run(s, before), TrackOf(s, before), actions[|actions| - 1])
  }

  lemma StartOwned(s: State)
    requires Initial(s)
    ensures Owned(s.sv, StartTrack(s).pool, [])
  {
    var g := StartTrack(s).pool;
    forall q | 0 <= q < |g.chains| ensures Ledger(g.chains[q], g.place, Chained(q)) {
    }
  }

  lemma StartPool(s: State)
    requires Initial(s)
    ensures PoolInv(s, StartTrack(s))
  {
    var t := StartTrack(s);
    assert s.sv.ptrUpd + Hand(s).upds == [] && s.sv.nodeReq + Hand(s).nodes == [];
    assert PointerView(s.sv, Hand(s)) == s.sv.ptrs && NodeView(s.sv, Hand(s)) == s.sv.nodes;
    StartOwned(s);
    hide PointerView, NodeView, Owned;
    assert Linked(s.sv.ptrs, s.sv.nodes, t.pool.chains);
  }

  lemma StartRefines(s: State)
    requires Initial(s)
    ensures Refines(s, StartTrack(s))
  {
    var t := StartTrack(s);
    StartPool(s);
    assert Current(s, t).lists == EmptyModel(|s.sv.ptrs|).lists;
  }

  lemma {:induction false} RunRefines(s: State, actions: seq<Action>)
    requires Initial(s) && AllAllowed(actions, |s.sv.ptrs|)
    ensures Refines(Run(s, actions), TrackOf(s, actions))
    decreases |actions|
  {
    if actions == [] {
      StartRefines(s);
    } else {
      var before := actions[..|actions| - 1];
      RunRefines(s, before);
      StepKeeps(Run(s, before), TrackOf(s, before), actions[|actions| - 1]);
    }
  }

  // Whenever the client is idle, the lists and everything written to the output FIFOs
  // are what replaying the accepted requests one by one on a plain map gives: inserts
  // append, completing acknowledgements remove the head, partial ones advance it, a NAK
  // emits the suffix from the first entry with its PSN, a timeout the whole list.
  lemma RefinesMap(s: State, actions: seq<Action>)
    requires Initial(s) && AllAllowed(actions, |s.sv.ptrs|)
    ensures
      var e, t := Run(s, actions), TrackOf(s, actions);
      PoolInv(e, t) && (e.ctl == Main ==> Current(e, t) == Replay(EmptyModel(|s.sv.ptrs|), t.log))
  {
    RunRefines(s, actions);
  }

  // ---------------------------------------------------------------- nothing is lost or reordered

  // The requests of one kind, in order.
  function Select(ops: seq<Op>, like: Op): seq<Op>
    decreases |ops|
  {
    if ops == [] then []
    else
      var last := ops[|ops| - 1];
      Select(ops[..|ops| - 1], like) + if SameKind(last, like) then [last] else []
  }

  predicate SameKind(a: Op, b: Op) {
    (a.Insert? <==> b.Insert?) && (a.Update? <==> b.Update?) && (a.Nak? <==> b.Nak?)
  }

  function Offered(actions: seq<Action>): seq<Op>
    decreases |actions|
  {
    if actions == [] then []
    else
      Offered(actions[..|actions| - 1]) + OfferedBy(actions[|actions| - 1])
  }

  function Pending(s: State, like: Op): (ops: seq<Op>) {
    match like
    case Insert(_) => seq(|s.inserts|, k requires 0 <= k < |s.inserts| => Insert(s.inserts[k]))
    case Update(_) => seq(|s.updates|, k requires 0 <= k < |s.updates| => Update(s.updates[k]))
    case Nak(_) => seq(|s.naks|, k requires 0 <= k < |s.naks| => Nak(s.naks[k]))
    case Timeout(_) => seq(|s.timeouts|, k requires 0 <= k < |s.timeouts| => Timeout(s.timeouts[k]))
  }

  lemma SelectSnoc(ops: seq<Op>, op: Op, like: Op)
    ensures Select(ops + [op], like) == Select(ops, like) + if SameKind(op, like) then [op] else []
  {
    assert (ops + [op])[..|ops|] == ops;
  }

  ghost predicate HeadTaken(s: State, s': State, op: Op) {
    match op
    case Insert(i) => s.inserts != [] && s.inserts[0] == i && s'.inserts == s.inserts[1..]
                      && s'.updates == s.updates && s'.naks == s.naks && s'.timeouts == s.timeouts
    case Update(u) => s.updates != [] && s.updates[0] == u && s'.updates == s.updates[1..]
                      && s'.inserts == s.inserts && s'.naks == s.naks && s'.timeouts == s.timeouts
    case Nak(r) => s.naks != [] && s.naks[0] == r && s'.naks == s.naks[1..]
                   && s'.inserts == s.inserts && s'.updates == s.updates && s'.timeouts == s.timeouts
    case Timeout(t) => s.timeouts != [] && s.timeouts[0] == t && s'.timeouts == s.timeouts[1..]
                       && s'.inserts == s.inserts && s'.updates == s.updates && s'.naks == s.naks
  }

  lemma Takes(s: State, s': State, log: seq<Op>, op: Op, like: Op)
    requires HeadTaken(s, s', op)
    ensures Select(log + [op], like) + Pending(s', like) == Select(log, like) + Pending(s, like)
  {
    SelectSnoc(log, op, like);
    if SameKind(op, like) {
      assert Pending(s, like) == [op] + Pending(s', like);
    } else {
      assert Pending(s, like) == Pending(s', like);
    }
  }

  // The client takes requests from the head of a FIFO and notes each in the log.
  lemma MainTakes(s: State, t: Track, like: Op)
    requires s.ctl == Main && (s.sv.freeList != [] ==> s.sv.freeList[0] < |t.pool.place|)
    ensures
      var s', t' := MainStep(s), MainTrack(s, t);
      Select(t'.log, like) + Pending(s', like) == Select(t.log, like) + Pending(s, like)
  {
    var s', t' := MainStep(s), MainTrack(s, t);
    if s.updates != [] {
      Takes(s, s', t.log, Update(s.updates[0]), like);
    } else if s.naks != [] {
      Takes(s, s', t.log, Nak(s.naks[0]), like);
    } else if s.timeouts != [] {
      Takes(s, s', t.log, Timeout(s.timeouts[0]), like);
    } else if s.inserts != [] && s.sv.freeList != [] {
      Takes(s, s', t.log, Insert(s.inserts[0]), like);
    }
  }

  lemma ProcessTakes(s: State, t: Track, like: Op)
    requires s.sv.freeList != [] ==> s.sv.freeList[0] < |t.pool.place|
    ensures
      var s', t' := ProcessStep(s), ProcessTrack(s, t);
      Select(t'.log, like) + Pending(s', like) == Select(t.log, like) + Pending(s, like)
  {
    if s.ctl == Main {
      MainTakes(s, t, like);
    } else {
      assert ProcessTrack(s, t).log == t.log;
    }
  }

  // Each input is a FIFO: what has been accepted, followed by what still waits, is
  // what was offered.
  lemma {:induction false} AcceptsInOrder(s: State, actions: seq<Action>, like: Op)
    requires Initial(s) && AllAllowed(actions, |s.sv.ptrs|)
    ensures Select(TrackOf(s, actions).log, like) + Pending(Run(s, actions), like) == Select(Offered(actions), like)
    decreases |actions|
  {
    if actions == [] {
      assert Pending(s, like) == [];
    } else {
      var before, a := actions[..|actions| - 1], actions[|actions| - 1];
      AcceptsInOrder(s, before, like);
      FreeListInRange(s, before);
      StepAccepts(Run(s, before), TrackOf(s, before), a, Offered(before), like);
    }
  }

  lemma FreeListInRange(s: State, actions: seq<Action>)
    requires Initial(s) && AllAllowed(actions, |s.sv.ptrs|)
    ensures
      var e, t := Run(s, actions), TrackOf(s, actions);
      e.sv.freeList != [] ==> e.sv.freeList[0] < |t.pool.place|
  {
    RunRefines(s, actions);
  }

  function OfferedBy(a: Action): seq<Op> {
    match a
    case OfferUpdate(u) => [Update(u)]
    case OfferNak(r) => [Nak(r)]
    case OfferTimeout(t) => [Timeout(t)]
    case OfferInsert(i) => [Insert(i)]
    case _ => []
  }

  lemma StepAccepts(p: State, t: Track, a: Action, offered: seq<Op>, like: Op)
    requires p.sv.freeList != [] ==> p.sv.freeList[0] < |t.pool.place|
    requires Select(t.log, like) + Pending(p, like) == Select(offered, like)
    ensures Select(NextTrack(p, t, a).log, like) + Pending(Next(p, a), like) == Select(offered + OfferedBy(a), like)
  {
    if a.ProcessRetransmissions? {
      ProcessTakes(p, t, like);
      assert offered + [] == offered;
    } else if OfferedBy(a) == [] {
      assert offered + [] == offered;
      assert Pending(Next(p, a), like) == Pending(p, like);
    } else {
      OfferAppends(p, Next(p, a), offered, Select(t.log, like), OfferedBy(a)[0], like);
      assert OfferedBy(a) == [OfferedBy(a)[0]];
    }
  }

  lemma OfferAppends(p: State, e: State, offered: seq<Op>, taken: seq<Op>, op: Op, like: Op)
    requires taken + Pending(p, like) == Select(offered, like)
    requires match op
             case Insert(i) => e == p.(inserts := p.inserts + [i])
             case Update(u) => e == p.(updates := p.updates + [u])
             case Nak(r) => e == p.(naks := p.naks + [r])
             case Timeout(t) => e == p.(timeouts := p.timeouts + [t])
    ensures taken + Pending(e, like) == Select(offered + [op], like)
  {
    SelectSnoc(offered, op, like);
    hide Select;
    if SameKind(op, like) {
      assert Pending(e, like) == Pending(p, like) + [op];
      assert taken + (Pending(p, like) + [op]) == (taken + Pending(p, like)) + [op];
    } else {
      assert Pending(e, like) == Pending(p, like);
      assert Select(offered, like) + [] == Select(offered, like);
    }
  }

  // ---------------------------------------------------------------- the servers answer faithfully

  // The pointer table never parks a second lock request, an answer from either table
  // already reflects every update queued before it, and no node on a list is ever
  // answered as invalid.
  lemma AnswersAreCurrent(s: State, actions: seq<Action>)
    requires Initial(s) && AllAllowed(actions, |s.sv.ptrs|)
    ensures
      var e, ph := Run(s, actions), PhaseOf(Run(s, actions), TrackOf(s, actions));
      && !e.sv.waiting
      && (e.sv.ptrRsp != [] ==>
            && ph.AwaitPointer? && ph.queue < |e.sv.ptrs|
            && e.sv.ptrRsp == [PointerView(e.sv, Hand(e))[ph.queue]])
      && (e.sv.nodeRsp != [] ==>
            && ph.AwaitNode? && ph.idx < |e.sv.nodes|
            && e.sv.nodeRsp == [NodeView(e.sv, Hand(e))[ph.idx]] && e.sv.nodeRsp[0].valid)
  {
    RunRefines(s, actions);
    AnswersHold(Run(s, actions), TrackOf(s, actions));
  }

  // ---------------------------------------------------------------- conservation

  ghost predicate NoRepeats(xs: seq<nat>) {
    forall i, j :: 0 <= i < j < |xs| ==> xs[i] != xs[j]
  }

  // Pool conservation: in every reachable state every index is in exactly one place,
  // the lists and FIFOs repeat nothing, and the free FIFO always has room for a release.
  lemma PoolConserved(s: State, actions: seq<Action>)
    requires Initial(s) && AllAllowed(actions, |s.sv.ptrs|)
    ensures
      var e, chains := Run(s, actions), TrackOf(s, actions).pool.chains;
      && (forall n :: 0 <= n < |e.sv.nodes| ==> PlacesOf(e.sv, chains, Hand(e).held, n) == 1)
      && NoRepeats(e.sv.freeList) && NoRepeats(e.sv.release)
      && (forall q :: 0 <= q < |chains| ==> NoRepeats(chains[q]))
      && Linked(PointerView(e.sv, Hand(e)), NodeView(e.sv, Hand(e)), chains)
      && |e.sv.freeList| <= |e.sv.nodes|
      && (e.sv.release != [] ==> |e.sv.freeList| < |e.sv.nodes|)
  {
    var e, t := Run(s, actions), TrackOf(s, actions);
    RunRefines(s, actions);
    FreeListHasRoom(e.sv, t.pool, PhaseOf(e, t), Hand(e));
    forall n | 0 <= n < |e.sv.nodes| ensures PlacesOf(e.sv, t.pool.chains, Hand(e).held, n) == 1 {
      OnePlace(e.sv, t.pool, Hand(e).held, n);
    }
    forall q | 0 <= q < |t.pool.chains| ensures NoRepeats(t.pool.chains[q]) {
      assert Ledger(t.pool.chains[q], t.pool.place, Chained(q));
    }
  }
}
