// Many FIFO queues kept as linked lists inside one array of nodes.
//
// The retransmitter and the multi queue share this shape: a table of head and
// tail pointers, an array of nodes, and a free list, each behind its own server
// process, and one client process that reaches all three through FIFOs. The
// servers are the same code in both; only the clients differ.
//
// The client's view of the memory is what the tables will hold once every queued
// write has been served (PointerView, NodeView). Linked and Owned speak about that
// view, Protocol about what is still travelling through the FIFOs.
module LinkedPool {
  import opened Wrappers

  datatype Pointer = Pointer(head: nat, tail: nat, valid: bool)
  datatype Node<V> = Node(value: V, next: nat, valid: bool, isTail: bool)

  datatype PointerReq = PointerReq(queue: nat, lock: bool)
  datatype PointerUpd = PointerUpd(queue: nat, entry: Pointer)
  datatype NodeReq<V> = Read(idx: nat) | Write(idx: nat, node: Node<V>) | Append(idx: nat, next: nat)

  datatype Servers<V> = Servers(
    // pointer table
    ptrs: seq<Pointer>, locked: nat, isLocked: bool, waiting: bool, waitReq: PointerReq,
    // node table
    nodes: seq<Node<V>>,
    // free list handler: indices below issued have been handed out once
    issued: nat,
    // FIFOs
    ptrReq: seq<PointerReq>, ptrUpd: seq<PointerUpd>, ptrRsp: seq<Pointer>,
    nodeReq: seq<NodeReq<V>>, nodeRsp: seq<Node<V>>,
    freeList: seq<nat>, release: seq<nat>)

  // ---------------------------------------------------------------- memory operations

  function Apply<V>(nodes: seq<Node<V>>, r: NodeReq<V>): (nodes': seq<Node<V>>)
    ensures |nodes'| == |nodes|
  {
    if r.idx >= |nodes| then nodes
    else
      match r
      case Read(_) => nodes
      case Write(i, n) => nodes[i := n]
      case Append(i, next) => nodes[i := nodes[i].(next := next, isTail := false)]
  }

  function ApplyAll<V>(nodes: seq<Node<V>>, rs: seq<NodeReq<V>>): (nodes': seq<Node<V>>)
    ensures |nodes'| == |nodes|
    decreases |rs|
  {
    if rs == [] then nodes else ApplyAll(Apply(nodes, rs[0]), rs[1..])
  }

  function Assign(ptrs: seq<Pointer>, u: PointerUpd): (ptrs': seq<Pointer>)
    ensures |ptrs'| == |ptrs|
  {
    if u.queue < |ptrs| then ptrs[u.queue := u.entry] else ptrs
  }

  function AssignAll(ptrs: seq<Pointer>, us: seq<PointerUpd>): (ptrs': seq<Pointer>)
    ensures |ptrs'| == |ptrs|
    decreases |us|
  {
    if us == [] then ptrs else AssignAll(Assign(ptrs, us[0]), us[1..])
  }

  function PointerAt(ptrs: seq<Pointer>, q: nat): Pointer {
    if q < |ptrs| then ptrs[q] else Pointer(0, 0, false)
  }

  // ---------------------------------------------------------------- server processes

  function PointerTableStep<V>(sv: Servers<V>): Servers<V> {
    if sv.ptrUpd != [] then
      var u := sv.ptrUpd[0];
      sv.(ptrUpd := sv.ptrUpd[1..], ptrs := Assign(sv.ptrs, u),
          isLocked := sv.isLocked && sv.locked != u.queue)
    else if sv.ptrReq != [] && !sv.waiting then
      var r := sv.ptrReq[0];
      if r.lock && sv.isLocked then
        sv.(ptrReq := sv.ptrReq[1..], waitReq := r, waiting := true)
      else
        sv.(ptrReq := sv.ptrReq[1..], waitReq := r,
            ptrRsp := sv.ptrRsp + [PointerAt(sv.ptrs, r.queue)],
            isLocked := sv.isLocked || r.lock,
            locked := if r.lock then r.queue else sv.locked)
    else if sv.waiting && !sv.isLocked then
      sv.(ptrRsp := sv.ptrRsp + [PointerAt(sv.ptrs, sv.waitReq.queue)],
          isLocked := true, locked := sv.waitReq.queue, waiting := false)
    else sv
  }

  function NodeTableStep<V>(sv: Servers<V>): Servers<V> {
    if sv.nodeReq == [] then sv
    else
      var r := sv.nodeReq[0];
      if r.Read? && r.idx < |sv.nodes| then
        sv.(nodeReq := sv.nodeReq[1..], nodeRsp := sv.nodeRsp + [sv.nodes[r.idx]])
      else
        sv.(nodeReq := sv.nodeReq[1..], nodes := Apply(sv.nodes, r))
  }

  function FreeListStep<V>(sv: Servers<V>): Servers<V> {
    if sv.release != [] then
      sv.(release := sv.release[1..], freeList := sv.freeList + [sv.release[0]])
    else if sv.issued < |sv.nodes| && |sv.freeList| < |sv.nodes| then
      sv.(freeList := sv.freeList + [sv.issued], issued := sv.issued + 1)
    else sv
  }

  // ---------------------------------------------------------------- ghost view

  // Where an index of the node array currently is. A function of the index, so
  // every index is in exactly one place.
  datatype Place = Unissued | Free | Released | Held | Chained(queue: nat)

  datatype Ghost = Ghost(chains: seq<seq<nat>>, place: seq<Place>)

  // What the client has taken out of the FIFOs or decided on but not yet queued.
  datatype InHand<V> = InHand(held: seq<nat>, nodes: seq<NodeReq<V>>, upds: seq<PointerUpd>)

  // How far the client's current operation has come.
  datatype Phase =
    | Idle
    | AwaitPointer(queue: nat, locking: bool)
    | Working(lock: Option<nat>)
    | AwaitNode(idx: nat, lock: Option<nat>)

  ghost function PointerView<V>(sv: Servers<V>, h: InHand<V>): (ptrs: seq<Pointer>)
    ensures |ptrs| == |sv.ptrs|
  {
    AssignAll(sv.ptrs, sv.ptrUpd + h.upds)
  }

  ghost function NodeView<V>(sv: Servers<V>, h: InHand<V>): (nodes: seq<Node<V>>)
    ensures |nodes| == |sv.nodes|
  {
    ApplyAll(sv.nodes, sv.nodeReq + h.nodes)
  }

  ghost predicate Within(chain: seq<nat>, n: nat) {
    forall k :: 0 <= k < |chain| ==> chain[k] < n
  }

  ghost function Values<V>(nodes: seq<Node<V>>, chain: seq<nat>): (vs: seq<V>)
    requires Within(chain, |nodes|)
    ensures |vs| == |chain|
  {
    seq(|chain|, k requires 0 <= k < |chain| => nodes[chain[k]].value)
  }

  // The abstract contents: one sequence of values for each queue.
  ghost function Queues<V>(nodes: seq<Node<V>>, chains: seq<seq<nat>>): (qs: seq<seq<V>>)
    requires forall q {:trigger Within(chains[q], |nodes|)} :: 0 <= q < |chains| ==> Within(chains[q], |nodes|)
    ensures |qs| == |chains|
  {
    seq(|chains|, q requires 0 <= q < |chains| => Values(nodes, chains[q]))
  }

  // ---------------------------------------------------------------- invariants

  ghost predicate ChainOk<V>(p: Pointer, nodes: seq<Node<V>>, c: seq<nat>) {
    && Within(c, |nodes|)
    && (p.valid <==> c != [])
    && (c != [] ==> p.head == c[0] && p.tail == c[|c| - 1])
    && (forall k :: 0 <= k < |c| ==> nodes[c[k]].valid)
    && (forall k :: 0 <= k < |c| ==> (nodes[c[k]].isTail <==> k == |c| - 1))
    && (forall k, m :: 0 <= k < |c| && k + 1 == m < |c| ==> nodes[c[k]].next == c[m])
  }

  ghost predicate Linked<V>(ptrs: seq<Pointer>, nodes: seq<Node<V>>, chains: seq<seq<nat>>) {
    && |chains| == |ptrs|
    && forall q {:trigger ChainOk(ptrs[q], nodes, chains[q])} {:trigger Within(chains[q], |nodes|)} ::
         0 <= q < |chains| ==> ChainOk(ptrs[q], nodes, chains[q])
  }

  // xs lists, without repetition, exactly the indices that are at place p.
  ghost predicate Ledger(xs: seq<nat>, place: seq<Place>, p: Place) {
    && (forall i :: 0 <= i < |xs| ==> xs[i] < |place| && place[xs[i]] == p)
    && (forall i, j :: 0 <= i < j < |xs| ==> xs[i] != xs[j])
    && (forall n :: 0 <= n < |place| && place[n] == p ==> n in xs)
  }

  ghost predicate ChainsOwned(chains: seq<seq<nat>>, place: seq<Place>) {
    forall q {:trigger Ledger(chains[q], place, Chained(q))} ::
      0 <= q < |chains| ==> Ledger(chains[q], place, Chained(q))
  }

  ghost predicate Owned<V>(sv: Servers<V>, g: Ghost, held: seq<nat>) {
    && |g.place| == |sv.nodes|
    && |g.chains| == |sv.ptrs|
    && sv.issued <= |sv.nodes|
    && (forall n :: 0 <= n < |g.place| ==> (g.place[n].Unissued? <==> n >= sv.issued))
    && (forall n :: 0 <= n < |g.place| && g.place[n].Chained? ==> g.place[n].queue < |g.chains|)
    && Ledger(sv.freeList, g.place, Free)
    && Ledger(sv.release, g.place, Released)
    && Ledger(held, g.place, Held)
    && ChainsOwned(g.chains, g.place)
  }

  ghost predicate NoReads<V>(rs: seq<NodeReq<V>>) {
    forall i :: 0 <= i < |rs| ==> !rs[i].Read?
  }

  ghost predicate InBounds<V>(sv: Servers<V>) {
    && (forall i :: 0 <= i < |sv.nodeReq| ==> sv.nodeReq[i].idx < |sv.nodes|)
    && (forall i :: 0 <= i < |sv.ptrUpd| ==> sv.ptrUpd[i].queue < |sv.ptrs|)
    && (forall i :: 0 <= i < |sv.ptrReq| ==> sv.ptrReq[i].queue < |sv.ptrs|)
  }

  ghost predicate Holds<V>(sv: Servers<V>, lock: Option<nat>) {
    && (sv.isLocked <==> lock.Some?)
    && (lock.Some? ==> sv.locked == lock.value)
  }

  ghost predicate Quiet<V>(sv: Servers<V>) {
    sv.nodeRsp == [] && NoReads(sv.nodeReq)
  }

  // What may be in the FIFOs, phase by phase. A lock is held only while the client
  // works under it or its releasing update is still queued, so the pointer table
  // never starts waiting for one.
  ghost predicate Protocol<V>(sv: Servers<V>, ph: Phase, ptrs: seq<Pointer>, nodes: seq<Node<V>>) {
    && |ptrs| == |sv.ptrs| && |nodes| == |sv.nodes|
    && !sv.waiting
    && |sv.ptrUpd| <= 1
    && (sv.ptrUpd != [] && sv.isLocked ==> sv.locked == sv.ptrUpd[0].queue)
    && match ph
       case Idle =>
         && sv.ptrReq == [] && sv.ptrRsp == [] && Quiet(sv)
         && (sv.ptrUpd == [] ==> !sv.isLocked)
       case AwaitPointer(q, lock) =>
         && q < |ptrs| && Quiet(sv)
         && ((sv.ptrReq == [PointerReq(q, lock)] && sv.ptrRsp == [] && (sv.ptrUpd == [] ==> !sv.isLocked))
             || (sv.ptrReq == [] && sv.ptrUpd == [] && sv.ptrRsp == [ptrs[q]]
                 && Holds(sv, if lock then Some(q) else None)))
       case Working(lock) =>
         sv.ptrReq == [] && sv.ptrRsp == [] && sv.ptrUpd == [] && Quiet(sv) && Holds(sv, lock)
       case AwaitNode(i, lock) =>
         && sv.ptrReq == [] && sv.ptrRsp == [] && sv.ptrUpd == [] && Holds(sv, lock)
         && i < |nodes|
         && ((sv.nodeRsp == [] && |sv.nodeReq| > 0 && sv.nodeReq[|sv.nodeReq| - 1] == Read(i)
              && NoReads(sv.nodeReq[..|sv.nodeReq| - 1]))
             || (sv.nodeReq == [] && sv.nodeRsp == [nodes[i]]))
  }

  ghost predicate Inv<V>(sv: Servers<V>, g: Ghost, ph: Phase, h: InHand<V>) {
    && InBounds(sv)
    && (h.nodes != [] || h.upds != [] ==> ph.Working?)
    && Protocol(sv, ph, PointerView(sv, h), NodeView(sv, h))
    && Linked(PointerView(sv, h), NodeView(sv, h), g.chains)
    && Owned(sv, g, h.held)
  }

  // ---------------------------------------------------------------- memory lemmas

  lemma {:induction false} ApplyAllConcat<V>(nodes: seq<Node<V>>, rs: seq<NodeReq<V>>, ts: seq<NodeReq<V>>)
    ensures ApplyAll(nodes, rs + ts) == ApplyAll(ApplyAll(nodes, rs), ts)
    decreases |rs|
  {
    if rs == [] {
      assert rs + ts == ts;
    } else {
      assert (rs + ts)[0] == rs[0] && (rs + ts)[1..] == rs[1..] + ts;
      ApplyAllConcat(Apply(nodes, rs[0]), rs[1..], ts);
    }
  }

  lemma ApplyOne<V>(nodes: seq<Node<V>>, r: NodeReq<V>)
    ensures ApplyAll(nodes, [r]) == Apply(nodes, r)
  {
    assert [r][1..] == [];
  }

  lemma ApplyAllSnoc<V>(nodes: seq<Node<V>>, rs: seq<NodeReq<V>>, r: NodeReq<V>)
    ensures ApplyAll(nodes, rs + [r]) == Apply(ApplyAll(nodes, rs), r)
  {
    ApplyAllConcat(nodes, rs, [r]);
    ApplyOne(ApplyAll(nodes, rs), r);
  }

  lemma AssignOne(ptrs: seq<Pointer>, u: PointerUpd)
    ensures AssignAll(ptrs, [u]) == Assign(ptrs, u)
  {
    assert [u][1..] == [];
  }

  // ---------------------------------------------------------------- ledger lemmas

  lemma LedgerOther(xs: seq<nat>, place: seq<Place>, p: Place, n: nat, p': Place)
    requires Ledger(xs, place, p) && n < |place| && place[n] != p && p' != p
    ensures Ledger(xs, place[n := p'], p)
  {
  }

  lemma LedgerAppend(xs: seq<nat>, place: seq<Place>, p: Place, n: nat)
    requires Ledger(xs, place, p) && n < |place| && place[n] != p
    ensures Ledger(xs + [n], place[n := p], p)
  {
    var place' := place[n := p];
    forall m | 0 <= m < |place'| && place'[m] == p
      ensures m in xs + [n]
    {
      if m != n { assert place[m] == p; }
    }
  }

  lemma LedgerPop(xs: seq<nat>, place: seq<Place>, p: Place, p': Place)
    requires Ledger(xs, place, p) && xs != [] && p' != p
    ensures Ledger(xs[1..], place[xs[0] := p'], p)
  {
    var place' := place[xs[0] := p'];
    forall m | 0 <= m < |place'| && place'[m] == p
      ensures m in xs[1..]
    {
      assert m in xs;
    }
  }

  lemma ChainsOther(chains: seq<seq<nat>>, place: seq<Place>, n: nat, p': Place)
    requires ChainsOwned(chains, place) && n < |place| && !place[n].Chained? && !p'.Chained?
    ensures ChainsOwned(chains, place[n := p'])
  {
    forall q | 0 <= q < |chains| ensures Ledger(chains[q], place[n := p'], Chained(q)) {
      assert Ledger(chains[q], place, Chained(q));
      LedgerOther(chains[q], place, Chained(q), n, p');
    }
  }

  lemma ChainsPush(chains: seq<seq<nat>>, place: seq<Place>, q: nat, n: nat)
    requires ChainsOwned(chains, place) && q < |chains| && n < |place| && !place[n].Chained?
    ensures ChainsOwned(chains[q := chains[q] + [n]], place[n := Chained(q)])
  {
    var chains', place' := chains[q := chains[q] + [n]], place[n := Chained(q)];
    forall r | 0 <= r < |chains'| ensures Ledger(chains'[r], place', Chained(r)) {
      assert Ledger(chains[r], place, Chained(r));
      if r == q {
        LedgerAppend(chains[q], place, Chained(q), n);
      } else {
        LedgerOther(chains[r], place, Chained(r), n, Chained(q));
      }
    }
  }

  lemma ChainsPop(chains: seq<seq<nat>>, place: seq<Place>, q: nat, p': Place)
    requires ChainsOwned(chains, place) && q < |chains| && chains[q] != [] && !p'.Chained?
    ensures chains[q][0] < |place| && place[chains[q][0]] == Chained(q)
    ensures ChainsOwned(chains[q := chains[q][1..]], place[chains[q][0] := p'])
  {
    assert Ledger(chains[q], place, Chained(q));
    var n := chains[q][0];
    var chains', place' := chains[q := chains[q][1..]], place[n := p'];
    forall r | 0 <= r < |chains'| ensures Ledger(chains'[r], place', Chained(r)) {
      assert Ledger(chains[r], place, Chained(r));
      if r == q {
        LedgerPop(chains[q], place, Chained(q), p');
      } else {
        LedgerOther(chains[r], place, Chained(r), n, p');
      }
    }
  }

  // A repetition-free list of numbers below n has at most n entries.
  lemma {:induction false} DistinctBelow(xs: seq<nat>, n: nat)
    requires forall i :: 0 <= i < |xs| ==> xs[i] < n
    requires forall i, j :: 0 <= i < j < |xs| ==> xs[i] != xs[j]
    ensures |xs| <= n
    decreases n
  {
    if xs == [] {
    } else if n - 1 in xs {
      var k :| 0 <= k < |xs| && xs[k] == n - 1;
      var rest := xs[..k] + xs[k + 1..];
      forall i | 0 <= i < |rest| ensures rest[i] < n - 1 {
        assert rest[i] == xs[if i < k then i else i + 1];
      }
      DistinctBelow(rest, n - 1);
    } else {
      DistinctBelow(xs, n - 1);
    }
  }

  // ---------------------------------------------------------------- protocol lemmas

  // Only the FIFOs of the pointer and node tables matter to the protocol.
  lemma ProtocolFrame<V>(sv: Servers<V>, sv': Servers<V>, ph: Phase, ptrs: seq<Pointer>, nodes: seq<Node<V>>)
    requires InBounds(sv) && Protocol(sv, ph, ptrs, nodes)
    requires sv' == sv.(release := sv'.release, freeList := sv'.freeList, issued := sv'.issued)
    ensures InBounds(sv') && Protocol(sv', ph, ptrs, nodes)
  {
  }

  lemma ViewFrame<V>(sv: Servers<V>, sv': Servers<V>, h: InHand<V>)
    requires sv' == sv.(release := sv'.release, freeList := sv'.freeList, issued := sv'.issued)
    ensures PointerView(sv', h) == PointerView(sv, h) && NodeView(sv', h) == NodeView(sv, h)
  {
  }

  lemma OwnedFrame<V>(sv: Servers<V>, sv': Servers<V>, g: Ghost, held: seq<nat>)
    requires Owned(sv, g, held)
    requires |sv'.nodes| == |sv.nodes| && |sv'.ptrs| == |sv.ptrs|
    requires sv'.issued == sv.issued && sv'.freeList == sv.freeList && sv'.release == sv.release
    ensures Owned(sv', g, held)
  {
  }

  // The last step of an operation queues at most some node writes and exactly one
  // pointer update, for the locked queue if there is a lock.
  lemma ProtocolFinish<V>(sv: Servers<V>, sv': Servers<V>, lock: Option<nat>, ptrs: seq<Pointer>, nodes: seq<Node<V>>,
                          ws: seq<NodeReq<V>>, u: PointerUpd, ptrs': seq<Pointer>, nodes': seq<Node<V>>)
    requires InBounds(sv) && Protocol(sv, Working(lock), ptrs, nodes)
    requires sv' == sv.(nodeReq := sv.nodeReq + ws, ptrUpd := sv.ptrUpd + [u], release := sv'.release)
    requires forall i :: 0 <= i < |ws| ==> !ws[i].Read? && ws[i].idx < |sv.nodes|
    requires u.queue < |sv.ptrs| && (lock.Some? ==> lock.value == u.queue)
    requires |ptrs'| == |sv.ptrs| && |nodes'| == |sv.nodes|
    ensures InBounds(sv') && Protocol(sv', Idle, ptrs', nodes')
  {
  }

  lemma ProtocolLink<V>(sv: Servers<V>, sv': Servers<V>, lock: Option<nat>, ptrs: seq<Pointer>, nodes: seq<Node<V>>,
                        w: NodeReq<V>, ptrs': seq<Pointer>, nodes': seq<Node<V>>)
    requires InBounds(sv) && Protocol(sv, Working(lock), ptrs, nodes)
    requires sv' == sv.(nodeReq := sv.nodeReq + [w]) && !w.Read? && w.idx < |sv.nodes|
    requires |ptrs'| == |sv.ptrs| && |nodes'| == |sv.nodes|
    ensures InBounds(sv') && Protocol(sv', Working(lock), ptrs', nodes')
  {
  }

  // One node write and one pointer update, with nothing else in hand.
  lemma WriteView<V>(sv: Servers<V>, sv': Servers<V>, h: InHand<V>, h': InHand<V>, w: NodeReq<V>, u: PointerUpd)
    requires h.nodes == [] && h.upds == [] && h'.nodes == [] && h'.upds == [] && sv.ptrUpd == []
    requires sv' == sv.(nodeReq := sv.nodeReq + [w], ptrUpd := sv.ptrUpd + [u])
    ensures NodeView(sv', h') == Apply(NodeView(sv, h), w)
    ensures PointerView(sv', h') == Assign(PointerView(sv, h), u)
  {
    assert sv.nodeReq + h.nodes == sv.nodeReq && sv'.nodeReq + h'.nodes == sv.nodeReq + [w];
    ApplyAllSnoc(sv.nodes, sv.nodeReq, w);
    assert sv.ptrUpd + h.upds == [] && sv'.ptrUpd + h'.upds == [u];
    AssignOne(sv.ptrs, u);
  }

  // A node write queued, another one and a pointer update taken in hand.
  lemma LinkView<V>(sv: Servers<V>, sv': Servers<V>, h: InHand<V>, h': InHand<V>,
                    a: NodeReq<V>, w: NodeReq<V>, u: PointerUpd)
    requires h.nodes == [] && h.upds == [] && h'.nodes == [w] && h'.upds == [u] && sv.ptrUpd == []
    requires sv' == sv.(nodeReq := sv.nodeReq + [a])
    ensures NodeView(sv', h') == Apply(Apply(NodeView(sv, h), a), w)
    ensures PointerView(sv', h') == Assign(PointerView(sv, h), u)
  {
    assert sv.nodeReq + h.nodes == sv.nodeReq && sv'.nodeReq + h'.nodes == (sv.nodeReq + [a]) + [w];
    ApplyAllSnoc(sv.nodes, sv.nodeReq + [a], w);
    ApplyAllSnoc(sv.nodes, sv.nodeReq, a);
    assert sv.ptrUpd + h.upds == [] && sv'.ptrUpd + h'.upds == [u];
    AssignOne(sv.ptrs, u);
  }

  lemma UpdateView<V>(sv: Servers<V>, sv': Servers<V>, h: InHand<V>, u: PointerUpd)
    requires h.nodes == [] && h.upds == [] && sv.ptrUpd == []
    requires sv' == sv.(ptrUpd := sv.ptrUpd + [u], release := sv'.release)
    ensures NodeView(sv', h) == NodeView(sv, h)
    ensures PointerView(sv', h) == Assign(PointerView(sv, h), u)
  {
    assert sv.ptrUpd + h.upds == [] && sv'.ptrUpd + h.upds == [u];
    AssignOne(sv.ptrs, u);
  }

  // ---------------------------------------------------------------- server lemmas

  // Serving a request never changes the client's view, and moves the protocol along.
  lemma PointerTableView<V>(sv: Servers<V>, h: InHand<V>)
    ensures PointerView(PointerTableStep(sv), h) == PointerView(sv, h)
    ensures NodeView(PointerTableStep(sv), h) == NodeView(sv, h)
  {
    if sv.ptrUpd != [] {
      assert (sv.ptrUpd + h.upds)[0] == sv.ptrUpd[0];
      assert (sv.ptrUpd + h.upds)[1..] == sv.ptrUpd[1..] + h.upds;
    }
  }

  lemma PointerTableProtocol<V>(sv: Servers<V>, ph: Phase, h: InHand<V>)
    requires InBounds(sv) && Protocol(sv, ph, PointerView(sv, h), NodeView(sv, h))
    requires h.upds != [] ==> ph.Working?
    ensures InBounds(PointerTableStep(sv))
    ensures Protocol(PointerTableStep(sv), ph, PointerView(sv, h), NodeView(sv, h))
  {
    if sv.ptrUpd == [] && sv.ptrReq != [] {
      assert sv.ptrUpd + h.upds == [];
    }
  }

  lemma PointerTableKeeps<V>(sv: Servers<V>, g: Ghost, ph: Phase, h: InHand<V>)
    requires Inv(sv, g, ph, h)
    ensures Inv(PointerTableStep(sv), g, ph, h)
    ensures PointerView(PointerTableStep(sv), h) == PointerView(sv, h)
    ensures NodeView(PointerTableStep(sv), h) == NodeView(sv, h)
  {
    PointerTableView(sv, h);
    PointerTableProtocol(sv, ph, h);
    OwnedFrame(sv, PointerTableStep(sv), g, h.held);
  }

  lemma NodeTableView<V>(sv: Servers<V>, h: InHand<V>)
    requires InBounds(sv)
    ensures PointerView(NodeTableStep(sv), h) == PointerView(sv, h)
    ensures NodeView(NodeTableStep(sv), h) == NodeView(sv, h)
  {
    if sv.nodeReq != [] {
      assert (sv.nodeReq + h.nodes)[0] == sv.nodeReq[0];
      assert (sv.nodeReq + h.nodes)[1..] == NodeTableStep(sv).nodeReq + h.nodes;
    }
  }

  // The request that is awaited comes out last, so its answer shows the whole view.
  lemma NodeTableAnswers<V>(sv: Servers<V>, i: nat, lock: Option<nat>, ptrs: seq<Pointer>, nodes: seq<Node<V>>)
    requires InBounds(sv) && Protocol(sv, AwaitNode(i, lock), ptrs, nodes)
    requires nodes == ApplyAll(sv.nodes, sv.nodeReq)
    ensures Protocol(NodeTableStep(sv), AwaitNode(i, lock), ptrs, nodes)
  {
    var sv', n := NodeTableStep(sv), |sv.nodeReq|;
    if n == 1 {
      assert sv.nodeReq == [Read(i)];
      ApplyOne(sv.nodes, Read(i));
    } else if n > 1 {
      assert sv'.nodeReq[..n - 2] == sv.nodeReq[..n - 1][1..];
      assert !sv.nodeReq[..n - 1][0].Read?;
    }
  }

  lemma NodeTableProtocol<V>(sv: Servers<V>, ph: Phase, h: InHand<V>)
    requires InBounds(sv) && Protocol(sv, ph, PointerView(sv, h), NodeView(sv, h))
    requires h.nodes != [] ==> ph.Working?
    ensures InBounds(NodeTableStep(sv))
    ensures Protocol(NodeTableStep(sv), ph, PointerView(sv, h), NodeView(sv, h))
  {
    if ph.AwaitNode? {
      assert sv.nodeReq + h.nodes == sv.nodeReq;
      NodeTableAnswers(sv, ph.idx, ph.lock, PointerView(sv, h), NodeView(sv, h));
    } else if sv.nodeReq != [] {
      assert !sv.nodeReq[0].Read?;
    }
  }

  lemma NodeTableKeeps<V>(sv: Servers<V>, g: Ghost, ph: Phase, h: InHand<V>)
    requires Inv(sv, g, ph, h)
    ensures Inv(NodeTableStep(sv), g, ph, h)
    ensures PointerView(NodeTableStep(sv), h) == PointerView(sv, h)
    ensures NodeView(NodeTableStep(sv), h) == NodeView(sv, h)
  {
    NodeTableView(sv, h);
    NodeTableProtocol(sv, ph, h);
    OwnedFrame(sv, NodeTableStep(sv), g, h.held);
  }

  ghost function FreeListGhost<V>(sv: Servers<V>, g: Ghost): Ghost {
    if sv.release != [] then
      if sv.release[0] < |g.place| then g.(place := g.place[sv.release[0] := Free]) else g
    else if sv.issued < |sv.nodes| && |sv.freeList| < |sv.nodes| && sv.issued < |g.place| then
      g.(place := g.place[sv.issued := Free])
    else g
  }

  lemma FreeListOwned<V>(sv: Servers<V>, g: Ghost, held: seq<nat>)
    requires Owned(sv, g, held)
    ensures Owned(FreeListStep(sv), FreeListGhost(sv, g), held)
  {
    if sv.release != [] {
      var n := sv.release[0];
      LedgerPop(sv.release, g.place, Released, Free);
      LedgerAppend(sv.freeList, g.place, Free, n);
      LedgerOther(held, g.place, Held, n, Free);
      ChainsOther(g.chains, g.place, n, Free);
    } else if sv.issued < |sv.nodes| && |sv.freeList| < |sv.nodes| {
      var n := sv.issued;
      LedgerAppend(sv.freeList, g.place, Free, n);
      LedgerOther(sv.release, g.place, Released, n, Free);
      LedgerOther(held, g.place, Held, n, Free);
      ChainsOther(g.chains, g.place, n, Free);
    }
  }

  lemma InvFrame<V>(sv: Servers<V>, sv': Servers<V>, g: Ghost, g': Ghost, ph: Phase, h: InHand<V>)
    requires Inv(sv, g, ph, h)
    requires sv' == sv.(release := sv'.release, freeList := sv'.freeList, issued := sv'.issued)
    requires Owned(sv', g', h.held) && g'.chains == g.chains
    ensures Inv(sv', g', ph, h)
    ensures PointerView(sv', h) == PointerView(sv, h) && NodeView(sv', h) == NodeView(sv, h)
  {
    ViewFrame(sv, sv', h);
    ProtocolFrame(sv, sv', ph, PointerView(sv, h), NodeView(sv, h));
  }

  lemma FreeListKeeps<V>(sv: Servers<V>, g: Ghost, ph: Phase, h: InHand<V>)
    requires Inv(sv, g, ph, h)
    ensures FreeListGhost(sv, g).chains == g.chains
    ensures Inv(FreeListStep(sv), FreeListGhost(sv, g), ph, h)
    ensures PointerView(FreeListStep(sv), h) == PointerView(sv, h)
    ensures NodeView(FreeListStep(sv), h) == NodeView(sv, h)
  {
    FreeListOwned(sv, g, h.held);
    InvFrame(sv, FreeListStep(sv), g, FreeListGhost(sv, g), ph, h);
  }

  // The free list fits its FIFO: a released index always finds room, so the
  // unconditional write in the free list handler never blocks.
  lemma FreeListHasRoom<V>(sv: Servers<V>, g: Ghost, ph: Phase, h: InHand<V>)
    requires Inv(sv, g, ph, h)
    ensures |sv.freeList| <= |sv.nodes|
    ensures sv.release != [] ==> |sv.freeList| < |sv.nodes|
  {
    DistinctBelow(sv.freeList, |sv.nodes|);
    if sv.release != [] {
      var both := sv.freeList + [sv.release[0]];
      assert forall i :: 0 <= i < |sv.freeList| ==> g.place[sv.freeList[i]] == Free;
      DistinctBelow(both, |sv.nodes|);
    }
  }

  // ---------------------------------------------------------------- one place for each index

  ghost function QueuesWith(chains: seq<seq<nat>>, n: nat): set<nat> {
    set q | 0 <= q < |chains| && n in chains[q]
  }

  ghost function Count(b: bool): nat { if b then 1 else 0 }

  // In how many places an index is: not yet issued, free, released, held by the client,
  // or in a queue.
  ghost function PlacesOf<V>(sv: Servers<V>, chains: seq<seq<nat>>, held: seq<nat>, n: nat): nat {
    Count(n >= sv.issued) + Count(n in sv.freeList) + Count(n in sv.release) + Count(n in held)
    + |QueuesWith(chains, n)|
  }

  lemma OnePlace<V>(sv: Servers<V>, g: Ghost, held: seq<nat>, n: nat)
    requires Owned(sv, g, held) && n < |sv.nodes|
    ensures PlacesOf(sv, g.chains, held, n) == 1
  {
    forall q | 0 <= q < |g.chains| ensures n in g.chains[q] <==> g.place[n] == Chained(q) {
      assert Ledger(g.chains[q], g.place, Chained(q));
    }
    if g.place[n].Chained? {
      assert QueuesWith(g.chains, n) == {g.place[n].queue};
    } else {
      assert QueuesWith(g.chains, n) == {};
    }
  }

  // ---------------------------------------------------------------- client moves

  lemma RequestPointer<V>(sv: Servers<V>, g: Ghost, h: InHand<V>, q: nat, lock: bool)
    requires Inv(sv, g, Idle, h) && q < |sv.ptrs|
    ensures Inv(sv.(ptrReq := sv.ptrReq + [PointerReq(q, lock)]), g, AwaitPointer(q, lock), h)
  {
  }

  lemma TakePointer<V>(sv: Servers<V>, g: Ghost, h: InHand<V>, q: nat, lock: bool)
    requires Inv(sv, g, AwaitPointer(q, lock), h) && sv.ptrRsp != []
    ensures q < |sv.ptrs| && sv.ptrRsp[0] == PointerView(sv, h)[q]
    ensures Inv(sv.(ptrRsp := sv.ptrRsp[1..]), g, Working(if lock then Some(q) else None), h)
  {
  }

  lemma RequestNode<V>(sv: Servers<V>, g: Ghost, h: InHand<V>, i: nat, lock: Option<nat>)
    requires Inv(sv, g, Working(lock), h) && h.nodes == [] && h.upds == [] && i < |sv.nodes|
    ensures Inv(sv.(nodeReq := sv.nodeReq + [Read(i)]), g, AwaitNode(i, lock), h)
    ensures NodeView(sv.(nodeReq := sv.nodeReq + [Read(i)]), h) == NodeView(sv, h)
  {
    var sv' := sv.(nodeReq := sv.nodeReq + [Read(i)]);
    assert sv.nodeReq + h.nodes == sv.nodeReq && sv'.nodeReq + h.nodes == sv'.nodeReq;
    ApplyAllSnoc(sv.nodes, sv.nodeReq, Read(i));
    assert sv'.nodeReq[..|sv'.nodeReq| - 1] == sv.nodeReq;
  }

  lemma TakeNode<V>(sv: Servers<V>, g: Ghost, h: InHand<V>, i: nat, lock: Option<nat>)
    requires Inv(sv, g, AwaitNode(i, lock), h) && sv.nodeRsp != []
    ensures i < |sv.nodes| && sv.nodeRsp[0] == NodeView(sv, h)[i]
    ensures Inv(sv.(nodeRsp := sv.nodeRsp[1..]), g, Working(lock), h)
  {
  }

  lemma GiveUp<V>(sv: Servers<V>, g: Ghost, h: InHand<V>)
    requires Inv(sv, g, Working(None), h) && h.nodes == [] && h.upds == []
    ensures Inv(sv, g, Idle, h)
  {
  }

  // Writing the pointer back unchanged only releases the lock.
  lemma WriteBack<V>(sv: Servers<V>, g: Ghost, h: InHand<V>, q: nat, lock: Option<nat>)
    requires Inv(sv, g, Working(lock), h) && h.nodes == [] && h.upds == []
    requires q < |sv.ptrs| && (lock.Some? ==> lock.value == q)
    ensures Inv(sv.(ptrUpd := sv.ptrUpd + [PointerUpd(q, PointerView(sv, h)[q])]), g, Idle, h)
    ensures PointerView(sv.(ptrUpd := sv.ptrUpd + [PointerUpd(q, PointerView(sv, h)[q])]), h) == PointerView(sv, h)
  {
    var u := PointerUpd(q, PointerView(sv, h)[q]);
    assert sv.ptrUpd + h.upds == [];
    assert (sv.ptrUpd + [u]) + h.upds == [u];
    AssignOne(sv.ptrs, u);
  }

  ghost function HoldGhost<V>(sv: Servers<V>, g: Ghost): Ghost
    requires sv.freeList != [] && sv.freeList[0] < |g.place|
  {
    g.(place := g.place[sv.freeList[0] := Held])
  }

  lemma HoldOwned<V>(sv: Servers<V>, g: Ghost)
    requires Owned(sv, g, []) && sv.freeList != []
    ensures sv.freeList[0] < |g.place|
    ensures Owned(sv.(freeList := sv.freeList[1..]), HoldGhost(sv, g), [sv.freeList[0]])
  {
    var n := sv.freeList[0];
    LedgerPop(sv.freeList, g.place, Free, Held);
    LedgerOther(sv.release, g.place, Released, n, Held);
    LedgerAppend([], g.place, Held, n);
    assert [] + [n] == [n];
    ChainsOther(g.chains, g.place, n, Held);
  }

  lemma HoldFree<V>(sv: Servers<V>, g: Ghost, h: InHand<V>)
    requires Inv(sv, g, Idle, h) && h.held == [] && sv.freeList != []
    ensures sv.freeList[0] < |g.place|
    ensures
      var sv', h' := sv.(freeList := sv.freeList[1..]), h.(held := [sv.freeList[0]]);
      Inv(sv', HoldGhost(sv, g), Idle, h') && NodeView(sv', h') == NodeView(sv, h)
  {
    HoldOwned(sv, g);
    var sv', h' := sv.(freeList := sv.freeList[1..]), h.(held := [sv.freeList[0]]);
    ViewFrame(sv, sv', h);
    ProtocolFrame(sv, sv', Idle, PointerView(sv, h), NodeView(sv, h));
    assert PointerView(sv', h') == PointerView(sv', h) && NodeView(sv', h') == NodeView(sv', h);
  }

  // ---------------------------------------------------------------- pushing

  ghost function PushGhost(g: Ghost, q: nat, n: nat): Ghost
    requires q < |g.chains| && n < |g.place|
  {
    Ghost(g.chains[q := g.chains[q] + [n]], g.place[n := Chained(q)])
  }

  lemma PushOwned<V>(sv: Servers<V>, g: Ghost, q: nat, n: nat)
    requires Owned(sv, g, [n]) && q < |g.chains|
    ensures n < |g.place| && Owned(sv, PushGhost(g, q, n), [])
  {
    assert [n][0] == n;
    var g' := PushGhost(g, q, n);
    LedgerPop([n], g.place, Held, Chained(q));
    assert [n][1..] == [];
    LedgerOther(sv.freeList, g.place, Free, n, Chained(q));
    LedgerOther(sv.release, g.place, Released, n, Chained(q));
    ChainsPush(g.chains, g.place, q, n);
  }

  // The memory after appending node n to chain c at queue q. link is the tail's
  // new forward pointer when there is a tail.
  ghost predicate Pushed<V>(ptrs: seq<Pointer>, nodes: seq<Node<V>>, ptrs': seq<Pointer>, nodes': seq<Node<V>>,
                            c: seq<nat>, q: nat, n: nat, v: V)
  {
    && q < |ptrs| && n < |nodes|
    && |nodes'| == |nodes|
    && Within(c, |nodes|)
    && ptrs' == ptrs[q := Pointer(if c == [] then n else c[0], n, true)]
    && nodes' == (if c == [] then nodes
                  else nodes[c[|c| - 1] := nodes[c[|c| - 1]].(next := n, isTail := false)])[n := Node(v, 0, true, true)]
  }

  lemma PushChain<V>(p: Pointer, nodes: seq<Node<V>>, nodes': seq<Node<V>>, c: seq<nat>, n: nat, v: V)
    requires ChainOk(p, nodes, c) && n < |nodes| && n !in c
    requires forall i, j :: 0 <= i < j < |c| ==> c[i] != c[j]
    requires nodes' == (if c == [] then nodes
                        else nodes[c[|c| - 1] := nodes[c[|c| - 1]].(next := n, isTail := false)])[n := Node(v, 0, true, true)]
    ensures ChainOk(Pointer(if c == [] then n else c[0], n, true), nodes', c + [n])
    ensures Values(nodes', c + [n]) == Values(nodes, c) + [v]
  {
  }

  // A chain none of whose nodes changed keeps its links and its values.
  lemma ChainFrame<V>(p: Pointer, nodes: seq<Node<V>>, nodes': seq<Node<V>>, c: seq<nat>)
    requires ChainOk(p, nodes, c) && |nodes'| == |nodes|
    requires forall k :: 0 <= k < |c| ==> nodes'[c[k]] == nodes[c[k]]
    ensures ChainOk(p, nodes', c)
    ensures Values(nodes', c) == Values(nodes, c)
  {
  }

  lemma ChainsApart(g: Ghost, p: nat, q: nat, k: nat)
    requires ChainsOwned(g.chains, g.place) && p < |g.chains| && q < |g.chains| && p != q && k < |g.chains[q]|
    ensures g.chains[q][k] !in g.chains[p]
  {
    assert Ledger(g.chains[p], g.place, Chained(p)) && Ledger(g.chains[q], g.place, Chained(q));
  }

  lemma PushLinked<V>(ptrs: seq<Pointer>, nodes: seq<Node<V>>, ptrs': seq<Pointer>, nodes': seq<Node<V>>,
                      g: Ghost, q: nat, n: nat, v: V)
    requires Linked(ptrs, nodes, g.chains) && q < |g.chains| && |g.place| == |nodes|
    requires Pushed(ptrs, nodes, ptrs', nodes', g.chains[q], q, n, v)
    requires ChainsOwned(g.chains, g.place) && g.place[n] == Held
    ensures Linked(ptrs', nodes', PushGhost(g, q, n).chains)
    ensures Queues(nodes', PushGhost(g, q, n).chains)
         == Queues(nodes, g.chains)[q := Queues(nodes, g.chains)[q] + [v]]
  {
    var chains' := PushGhost(g, q, n).chains;
    forall p | 0 <= p < |chains'|
      ensures ChainOk(ptrs'[p], nodes', chains'[p])
      ensures Values(nodes', chains'[p])
           == (if p == q then Values(nodes, g.chains[q]) + [v] else Values(nodes, g.chains[p]))
    {
      var c := g.chains[p];
      assert ChainOk(ptrs[p], nodes, c) && Ledger(c, g.place, Chained(p));
      if p == q {
        PushChain(ptrs[p], nodes, nodes', c, n, v);
      } else {
        if g.chains[q] != [] { ChainsApart(g, p, q, |g.chains[q]| - 1); }
        ChainFrame(ptrs[p], nodes, nodes', c);
      }
    }
  }

  // First push on an empty queue: one node write, one pointer update.
  lemma PushFirst<V>(sv: Servers<V>, g: Ghost, q: nat, n: nat, v: V)
    requires Inv(sv, g, Working(Some(q)), InHand([n], [], [])) && q < |g.chains| && g.chains[q] == []
    ensures n < |g.place|
    ensures
      var sv' := sv.(nodeReq := sv.nodeReq + [Write(n, Node(v, 0, true, true))],
                     ptrUpd := sv.ptrUpd + [PointerUpd(q, Pointer(n, n, true))]);
      && Inv(sv', PushGhost(g, q, n), Idle, InHand([], [], []))
      && Queues(NodeView(sv', InHand([], [], [])), PushGhost(g, q, n).chains)
      == Queues(NodeView(sv, InHand([n], [], [])), g.chains)[q :=
           Queues(NodeView(sv, InHand([n], [], [])), g.chains)[q] + [v]]
  {
    var h, h' := InHand([n], [], []), InHand([], [], []);
    var w, u := Write(n, Node(v, 0, true, true)), PointerUpd(q, Pointer(n, n, true));
    var sv' := sv.(nodeReq := sv.nodeReq + [w], ptrUpd := sv.ptrUpd + [u]);
    PushOwned(sv, g, q, n);
    OwnedFrame(sv, sv', PushGhost(g, q, n), []);
    assert g.place[[n][0]] == Held;
    WriteView(sv, sv', h, h', w, u);
    PushLinked(PointerView(sv, h), NodeView(sv, h), PointerView(sv', h'), NodeView(sv', h'), g, q, n, v);
    ProtocolFinish(sv, sv', Some(q), PointerView(sv, h), NodeView(sv, h), [w], u, PointerView(sv', h'), NodeView(sv', h'));
  }

  // Push behind an existing tail: the forward pointer goes out first, the new node
  // and the pointer update stay in hand for one more step.
  lemma PushLink<V>(sv: Servers<V>, g: Ghost, q: nat, n: nat, v: V, p: Pointer)
    requires Inv(sv, g, Working(Some(q)), InHand([n], [], [])) && q < |g.chains| && g.chains[q] != []
    requires p == PointerView(sv, InHand([n], [], []))[q]
    ensures n < |g.place|
    ensures
      var h' := InHand([], [Write(n, Node(v, 0, true, true))], [PointerUpd(q, p.(tail := n))]);
      var sv' := sv.(nodeReq := sv.nodeReq + [Append(p.tail, n)]);
      && Inv(sv', PushGhost(g, q, n), Working(Some(q)), h')
      && Queues(NodeView(sv', h'), PushGhost(g, q, n).chains)
      == Queues(NodeView(sv, InHand([n], [], [])), g.chains)[q :=
           Queues(NodeView(sv, InHand([n], [], [])), g.chains)[q] + [v]]
  {
    var h := InHand([n], [], []);
    var w, u := Write(n, Node(v, 0, true, true)), PointerUpd(q, p.(tail := n));
    var h' := InHand([], [w], [u]);
    var a := Append(p.tail, n);
    var sv' := sv.(nodeReq := sv.nodeReq + [a]);
    PushOwned(sv, g, q, n);
    assert g.place[[n][0]] == Held;
    OwnedFrame(sv, sv', PushGhost(g, q, n), []);
    assert ChainOk(p, NodeView(sv, h), g.chains[q]);
    LinkView(sv, sv', h, h', a, w, u);
    ProtocolLink(sv, sv', Some(q), PointerView(sv, h), NodeView(sv, h), a, PointerView(sv', h'), NodeView(sv', h'));
    PushLinked(PointerView(sv, h), NodeView(sv, h), PointerView(sv', h'), NodeView(sv', h'), g, q, n, v);
  }

  // Queueing what was in hand leaves the view as it was.
  lemma PushFlush<V>(sv: Servers<V>, g: Ghost, q: nat, w: NodeReq<V>, u: PointerUpd)
    requires Inv(sv, g, Working(Some(q)), InHand([], [w], [u])) && u.queue == q && q < |sv.ptrs|
    requires !w.Read? && w.idx < |sv.nodes|
    ensures
      var sv' := sv.(nodeReq := sv.nodeReq + [w], ptrUpd := sv.ptrUpd + [u]);
      && Inv(sv', g, Idle, InHand([], [], []))
      && NodeView(sv', InHand([], [], [])) == NodeView(sv, InHand([], [w], [u]))
  {
    var h, h' := InHand([], [w], [u]), InHand([], [], []);
    var sv' := sv.(nodeReq := sv.nodeReq + [w], ptrUpd := sv.ptrUpd + [u]);
    assert sv'.nodeReq + h'.nodes == sv.nodeReq + h.nodes;
    assert sv'.ptrUpd + h'.upds == sv.ptrUpd + h.upds;
    ProtocolFinish(sv, sv', Some(q), PointerView(sv, h), NodeView(sv, h), [w], u, PointerView(sv', h'), NodeView(sv', h'));
    OwnedFrame(sv, sv', g, []);
  }

  // ---------------------------------------------------------------- removing and rewriting the head

  ghost function PopGhost(g: Ghost, q: nat): Ghost
    requires q < |g.chains| && g.chains[q] != [] && g.chains[q][0] < |g.place|
  {
    Ghost(g.chains[q := g.chains[q][1..]], g.place[g.chains[q][0] := Released])
  }

  lemma PopOwned<V>(sv: Servers<V>, g: Ghost, q: nat)
    requires Owned(sv, g, []) && q < |g.chains| && g.chains[q] != []
    ensures g.chains[q][0] < |g.place|
    ensures Owned(sv.(release := sv.release + [g.chains[q][0]]), PopGhost(g, q), [])
  {
    ChainsPop(g.chains, g.place, q, Released);
    var n := g.chains[q][0];
    LedgerAppend(sv.release, g.place, Released, n);
    LedgerOther(sv.freeList, g.place, Free, n, Released);
    LedgerOther([], g.place, Held, n, Released);
  }

  lemma PopLinked<V>(ptrs: seq<Pointer>, nodes: seq<Node<V>>, g: Ghost, q: nat)
    requires Linked(ptrs, nodes, g.chains) && q < |g.chains| && g.chains[q] != []
    requires ChainsOwned(g.chains, g.place)
    ensures g.chains[q][0] < |nodes| && g.chains[q][0] < |g.place|
    ensures
      var node := nodes[g.chains[q][0]];
      && Linked(ptrs[q := ptrs[q].(head := node.next, valid := !node.isTail)], nodes, PopGhost(g, q).chains)
      && Queues(nodes, PopGhost(g, q).chains) == Queues(nodes, g.chains)[q := Queues(nodes, g.chains)[q][1..]]
  {
    var c := g.chains[q];
    assert ChainOk(ptrs[q], nodes, c) && Ledger(c, g.place, Chained(q));
    var node := nodes[c[0]];
    var ptrs' := ptrs[q := ptrs[q].(head := node.next, valid := !node.isTail)];
    forall r | 0 <= r < |g.chains|
      ensures ChainOk(ptrs'[r], nodes, PopGhost(g, q).chains[r])
    {
      assert ChainOk(ptrs[r], nodes, g.chains[r]);
    }
    assert Values(nodes, c[1..]) == Values(nodes, c)[1..];
  }

  lemma PopHead<V>(sv: Servers<V>, g: Ghost, q: nat, lock: Option<nat>, p: Pointer, node: Node<V>)
    requires Inv(sv, g, Working(lock), InHand([], [], [])) && q < |g.chains| && g.chains[q] != []
    requires lock.Some? ==> lock.value == q
    requires p == PointerView(sv, InHand([], [], []))[q]
    requires p.head < |sv.nodes| && node == NodeView(sv, InHand([], [], []))[p.head]
    ensures g.chains[q][0] < |g.place|
    ensures
      var sv' := sv.(release := sv.release + [p.head],
                     ptrUpd := sv.ptrUpd + [PointerUpd(q, p.(head := node.next, valid := !node.isTail))]);
      && Inv(sv', PopGhost(g, q), Idle, InHand([], [], []))
      && Queues(NodeView(sv', InHand([], [], [])), PopGhost(g, q).chains)
      == Queues(NodeView(sv, InHand([], [], [])), g.chains)[q :=
           Queues(NodeView(sv, InHand([], [], [])), g.chains)[q][1..]]
  {
    var h: InHand<V> := InHand([], [], []);
    var u := PointerUpd(q, p.(head := node.next, valid := !node.isTail));
    var sv' := sv.(release := sv.release + [p.head], ptrUpd := sv.ptrUpd + [u]);
    var nodes := NodeView(sv, h);
    assert ChainOk(p, nodes, g.chains[q]);
    PopOwned(sv, g, q);
    OwnedFrame(sv.(release := sv.release + [p.head]), sv', PopGhost(g, q), []);
    UpdateView(sv, sv', h, u);
    assert sv.nodeReq + [] == sv.nodeReq;
    ProtocolFinish(sv, sv', lock, PointerView(sv, h), nodes, [], u, PointerView(sv', h), nodes);
    PopLinked(PointerView(sv, h), nodes, g, q);
  }

  lemma RewriteLinked<V>(ptrs: seq<Pointer>, nodes: seq<Node<V>>, g: Ghost, q: nat, v: V)
    requires Linked(ptrs, nodes, g.chains) && ChainsOwned(g.chains, g.place) && q < |g.chains| && g.chains[q] != []
    ensures g.chains[q][0] < |nodes|
    ensures
      var n := g.chains[q][0];
      var nodes' := nodes[n := nodes[n].(value := v)];
      && Linked(ptrs, nodes', g.chains)
      && Queues(nodes', g.chains) == Queues(nodes, g.chains)[q := Queues(nodes, g.chains)[q][0 := v]]
  {
    assert ChainOk(ptrs[q], nodes, g.chains[q]);
    var n := g.chains[q][0];
    var nodes' := nodes[n := nodes[n].(value := v)];
    forall r | 0 <= r < |g.chains|
      ensures ChainOk(ptrs[r], nodes', g.chains[r])
      ensures Values(nodes', g.chains[r])
           == (if r == q then Values(nodes, g.chains[q])[0 := v] else Values(nodes, g.chains[r]))
    {
      assert ChainOk(ptrs[r], nodes, g.chains[r]) && Ledger(g.chains[r], g.place, Chained(r));
      if r != q {
        ChainsApart(g, r, q, 0);
        ChainFrame(ptrs[r], nodes, nodes', g.chains[r]);
      }
    }
  }

  // Overwriting the head's value in place, links kept.
  lemma RewriteHead<V>(sv: Servers<V>, g: Ghost, q: nat, p: Pointer, v: V)
    requires Inv(sv, g, Working(Some(q)), InHand([], [], [])) && q < |g.chains| && g.chains[q] != []
    requires p == PointerView(sv, InHand([], [], []))[q]
    requires p.head < |sv.nodes|
    ensures
      var node := NodeView(sv, InHand([], [], []))[p.head];
      var sv' := sv.(nodeReq := sv.nodeReq + [Write(p.head, node.(value := v))],
                     ptrUpd := sv.ptrUpd + [PointerUpd(q, p)]);
      && Inv(sv', g, Idle, InHand([], [], []))
      && Queues(NodeView(sv', InHand([], [], [])), g.chains)
      == Queues(NodeView(sv, InHand([], [], [])), g.chains)[q :=
           Queues(NodeView(sv, InHand([], [], [])), g.chains)[q][0 := v]]
  {
    var h: InHand<V> := InHand([], [], []);
    var node := NodeView(sv, h)[p.head];
    var w, u := Write(p.head, node.(value := v)), PointerUpd(q, p);
    var sv' := sv.(nodeReq := sv.nodeReq + [w], ptrUpd := sv.ptrUpd + [u]);
    var nodes, nodes' := NodeView(sv, h), NodeView(sv', h);
    WriteView(sv, sv', h, h, w, u);
    assert ChainOk(p, nodes, g.chains[q]);
    RewriteLinked(PointerView(sv, h), nodes, g, q, v);
    ProtocolFinish(sv, sv', Some(q), PointerView(sv, h), nodes, [w], u, PointerView(sv', h), nodes');
    OwnedFrame(sv, sv', g, []);
  }
}
