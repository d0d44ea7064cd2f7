// The retransmitter's four processes, under any schedule, behave like a plain map
// from queue pair to a list of entries on which whole requests act one at a time.
module RetransmitterProof {
  import opened Wrappers
  import opened InfiniBand
  import opened LinkedPool
  import opened Retransmitter

  // ---------------------------------------------------------------- the plain map

  datatype Op = Insert(i: InsertReq) | Update(u: UpdateReq) | Nak(r: RetransReq) | Timeout(t: RetransReq)

  datatype Model = Model(lists: seq<seq<Entry>>, inits: seq<ReadInit>, events: seq<Event>)

  function EventsOf(qpn: nat, es: seq<Entry>): (evs: seq<Event>)
    ensures |evs| == |es|
    ensures forall k :: 0 <= k < |es| ==> evs[k] == Event(qpn, es[k])
  {
    seq(|es|, k requires 0 <= k < |es| => Event(qpn, es[k]))
  }

  // The entries from the first one with the given PSN on; none if it is not stored.
  function SuffixFrom(es: seq<Entry>, psn: nat): seq<Entry> {
    if es == [] then [] else if es[0].psn == psn then es else SuffixFrom(es[1..], psn)
  }

  function ApplyUpdate(m: Model, u: UpdateReq): Model
    requires u.qpn < |m.lists|
  {
    var list := m.lists[u.qpn];
    if list == [] then m
    else
      Model(
        m.lists[u.qpn := if u.opCode == ReadRespFirst || u.opCode == ReadRespMiddle then list[0 := Advance(list[0])]
                         else list[1..]],
        if u.opCode == ReadRespFirst || u.opCode == ReadRespOnly then m.inits + [ReadInit(list[0].localAddr, list[0].lst)]
        else m.inits,
        m.events)
  }

  function ApplyOp(m: Model, op: Op): Model {
    match op
    case Insert(i) =>
      if i.qpn < |m.lists| then m.(lists := m.lists[i.qpn := m.lists[i.qpn] + [i.entry]]) else m
    case Update(u) =>
      if u.qpn < |m.lists| then ApplyUpdate(m, u) else m
    case Nak(r) =>
      if r.qpn < |m.lists| then m.(events := m.events + EventsOf(r.qpn, SuffixFrom(m.lists[r.qpn], r.psn))) else m
    case Timeout(t) =>
      if t.qpn < |m.lists| then m.(events := m.events + EventsOf(t.qpn, m.lists[t.qpn])) else m
  }

  function Replay(m: Model, log: seq<Op>): Model
    decreases |log|
  {
    if log == [] then m else ApplyOp(Replay(m, log[..|log| - 1]), log[|log| - 1])
  }

  lemma ReplaySnoc(m: Model, log: seq<Op>, op: Op)
    ensures Replay(m, log + [op]) == ApplyOp(Replay(m, log), op)
  {
    assert (log + [op])[..|log|] == log;
  }

  // ---------------------------------------------------------------- ghost state and invariant

  // log: the requests the client process has taken from its input FIFOs, in order.
  // pos: how far a traversal has come along its chain.
  datatype Track = Track(pool: Ghost, pos: nat, log: seq<Op>)

  ghost function Hand(s: State): InHand<Entry> {
    match s.ctl
    case Insert0 => InHand([s.newIdx], [], [])
    case Insert1 => InHand([], [NewNode(s)], [PointerUpd(s.insert.qpn, s.ptrMeta)])
    case _ => InHand([], [], [])
  }

  ghost function Chain(s: State, t: Track, q: nat): seq<nat> {
    if q < |t.pool.chains| then t.pool.chains[q] else []
  }

  ghost function PhaseOf(s: State, t: Track): Phase {
    match s.ctl
    case Main => Idle
    case Insert0 => AwaitPointer(s.insert.qpn, true)
    case Insert1 => Working(Some(s.insert.qpn))
    case Update0 => AwaitPointer(s.update.qpn, true)
    case Update1 => AwaitNode(s.curr, Some(s.update.qpn))
    case Retrans0 => AwaitPointer(s.retrans.qpn, false)
    case TimerRetrans0 => AwaitPointer(s.retrans.qpn, false)
    case _ =>
      var c := Chain(s, t, s.retrans.qpn);
      if t.pos < |c| then AwaitNode(c[t.pos], None) else Working(None)
  }

  ghost predicate InRange(s: State) {
    var n := |s.sv.ptrs|;
    && (forall k :: 0 <= k < |s.updates| ==> s.updates[k].qpn < n)
    && (forall k :: 0 <= k < |s.naks| ==> s.naks[k].qpn < n)
    && (forall k :: 0 <= k < |s.timeouts| ==> s.timeouts[k].qpn < n)
    && (forall k :: 0 <= k < |s.inserts| ==> s.inserts[k].qpn < n)
  }

  ghost predicate Registers(s: State, t: Track) {
    match s.ctl
    case Insert1 => s.insert.qpn < |s.sv.ptrs| && s.newIdx < |s.sv.nodes|
    case Update1 =>
      && s.update.qpn < |s.sv.ptrs|
      && Chain(s, t, s.update.qpn) != []
      && s.ptrMeta == PointerView(s.sv, Hand(s))[s.update.qpn]
      && s.curr == s.ptrMeta.head
    case Retrans1 => s.retrans.qpn < |s.sv.ptrs| && t.pos <= |Chain(s, t, s.retrans.qpn)|
    case Retrans2 => s.retrans.qpn < |s.sv.ptrs| && t.pos < |Chain(s, t, s.retrans.qpn)|
    case _ => true
  }

  ghost predicate PoolInv(s: State, t: Track) {
    && Inv(s.sv, t.pool, PhaseOf(s, t), Hand(s))
    && InRange(s)
    && Registers(s, t)
  }

  // The lists as the client sees them, with everything written to the outputs so far.
  ghost function Current(s: State, t: Track): Model
    requires PoolInv(s, t)
  {
    Model(Queues(NodeView(s.sv, Hand(s)), t.pool.chains), s.inits, s.events)
  }

  // The request in progress, once the client has taken it.
  ghost function InProgress(s: State): Op {
    match s.ctl
    case Insert0 => Insert(s.insert)
    case Insert1 => Insert(s.insert)
    case Update0 => Update(s.update)
    case Update1 => Update(s.update)
    case TimerRetrans0 => Timeout(s.retrans)
    case _ => Nak(s.retrans)
  }

  // What model m will be when the request in progress is complete. An insertion
  // counts as soon as its place in the list is fixed, an update when the head is
  // answered, and a traversal entry by entry.
  ghost function TargetOf(s: State, pos: nat, m: Model): Model {
    match s.ctl
    case Main => m
    case Insert1 => m
    case Retrans1 =>
      if s.retrans.qpn < |m.lists| && pos <= |m.lists[s.retrans.qpn]| then
        m.(events := m.events + EventsOf(s.retrans.qpn, SuffixFrom(m.lists[s.retrans.qpn][pos..], s.retrans.psn)))
      else m
    case Retrans2 =>
      if s.retrans.qpn < |m.lists| && pos <= |m.lists[s.retrans.qpn]| then
        m.(events := m.events + EventsOf(s.retrans.qpn, m.lists[s.retrans.qpn][pos..]))
      else m
    case _ => ApplyOp(m, InProgress(s))
  }

  function EmptyModel(queues: nat): Model {
    Model(seq(queues, _ => []), [], [])
  }

  ghost predicate Refines(s: State, t: Track) {
    && PoolInv(s, t)
    && TargetOf(s, t.pos, Current(s, t)) == Replay(EmptyModel(|s.sv.ptrs|), t.log)
  }

  // What one step of the client does to the model.
  ghost function Effect(s: State, m: Model): Model {
    match s.ctl
    case Insert0 => if s.sv.ptrRsp == [] then m else ApplyOp(m, Insert(s.insert))
    case Update1 => if s.sv.nodeRsp == [] then m else ApplyOp(m, Update(s.update))
    case Retrans1 =>
      if s.sv.nodeRsp == [] || s.sv.nodeRsp[0].value.psn != s.retrans.psn then m
      else m.(events := m.events + [Event(s.retrans.qpn, s.sv.nodeRsp[0].value)])
    case Retrans2 =>
      if s.sv.nodeRsp == [] then m
      else m.(events := m.events + [Event(s.retrans.qpn, s.sv.nodeRsp[0].value)])
    case _ => m
  }

  // What the answers of the tables say about the model.
  ghost predicate Answers(s: State, pos: nat, m: Model) {
    match s.ctl
    case Update0 =>
      s.update.qpn < |m.lists| && (s.sv.ptrRsp != [] ==> (s.sv.ptrRsp[0].valid <==> m.lists[s.update.qpn] != []))
    case Retrans0 =>
      s.retrans.qpn < |m.lists| && (s.sv.ptrRsp != [] ==> (s.sv.ptrRsp[0].valid <==> m.lists[s.retrans.qpn] != []))
    case TimerRetrans0 =>
      s.retrans.qpn < |m.lists| && (s.sv.ptrRsp != [] ==> (s.sv.ptrRsp[0].valid <==> m.lists[s.retrans.qpn] != []))
    case Update1 => s.sv.nodeRsp != [] ==> s.sv.nodeRsp[0].valid
    case Retrans1 =>
      && s.retrans.qpn < |m.lists| && pos <= |m.lists[s.retrans.qpn]|
      && (s.sv.nodeRsp != [] ==> AtPosition(s.sv.nodeRsp[0], m.lists[s.retrans.qpn], pos))
    case Retrans2 =>
      && s.retrans.qpn < |m.lists| && pos < |m.lists[s.retrans.qpn]|
      && (s.sv.nodeRsp != [] ==> AtPosition(s.sv.nodeRsp[0], m.lists[s.retrans.qpn], pos))
    case _ => true
  }

  ghost predicate AtPosition(m: Node<Entry>, list: seq<Entry>, pos: nat) {
    pos < |list| && m.valid && m.value == list[pos] && (m.isTail <==> pos == |list| - 1)
  }

  // ---------------------------------------------------------------- ghost steps

  ghost function MainTrack(s: State, t: Track): Track {
    if s.updates != [] then t.(log := t.log + [Update(s.updates[0])])
    else if s.naks != [] then t.(log := t.log + [Nak(s.naks[0])])
    else if s.timeouts != [] then t.(log := t.log + [Timeout(s.timeouts[0])])
    else if s.inserts != [] && s.sv.freeList != [] then
      if s.sv.freeList[0] < |t.pool.place| then
        t.(log := t.log + [Insert(s.inserts[0])], pool := HoldGhost(s.sv, t.pool))
      else t
    else t
  }

  ghost function Insert0Track(s: State, t: Track): Track {
    if s.sv.ptrRsp != [] && s.insert.qpn < |t.pool.chains| && s.newIdx < |t.pool.place| then
      t.(pool := PushGhost(t.pool, s.insert.qpn, s.newIdx))
    else t
  }

  ghost function Update1Track(s: State, t: Track): Track {
    var c := Chain(s, t, s.update.qpn);
    if s.sv.nodeRsp != [] && !KeepsEntry(s.update.opCode) && c != [] && c[0] < |t.pool.place| then
      t.(pool := PopGhost(t.pool, s.update.qpn))
    else t
  }

  ghost function TraverseTrack(s: State, t: Track): Track {
    if s.sv.nodeRsp != [] then t.(pos := t.pos + 1) else t
  }

  ghost function ProcessTrack(s: State, t: Track): Track {
    match s.ctl
    case Main => MainTrack(s, t)
    case Insert0 => Insert0Track(s, t)
    case Update1 => Update1Track(s, t)
    case Retrans0 => t.(pos := 0)
    case TimerRetrans0 => t.(pos := 0)
    case Retrans1 => TraverseTrack(s, t)
    case Retrans2 => TraverseTrack(s, t)
    case _ => t
  }

  ghost function NextTrack(s: State, t: Track, a: Action): Track {
    match a
    case FreeListHandler => t.(pool := FreeListGhost(s.sv, t.pool))
    case ProcessRetransmissions => ProcessTrack(s, t)
    case _ => t
  }

  // ---------------------------------------------------------------- the pool, step by step

  // What a step must establish about the servers and the registers.
  lemma Arrive(s': State, t': Track, sv': Servers<Entry>, ph': Phase, h': InHand<Entry>)
    requires InRange(s') && Registers(s', t')
    requires s'.sv == sv' && Hand(s') == h' && PhaseOf(s', t') == ph'
    requires Inv(sv', t'.pool, ph', h')
    ensures PoolInv(s', t')
    ensures Current(s', t') == Model(Queues(NodeView(sv', h'), t'.pool.chains), s'.inits, s'.events)
  {
  }

  // A step that leaves the lists alone.
  lemma Settle(s: State, t: Track, s': State, t': Track, sv': Servers<Entry>, ph': Phase, h': InHand<Entry>)
    requires PoolInv(s, t) && InRange(s')
    requires t'.pool.chains == t.pool.chains && s'.sv == sv' && |sv'.ptrs| == |s.sv.ptrs|
    requires Hand(s') == h' && PhaseOf(s', t') == ph'
    requires Inv(sv', t'.pool, ph', h')
    requires NodeView(sv', h') == NodeView(s.sv, Hand(s))
    requires Registers(s', t')
    ensures PoolInv(s', t')
    ensures Current(s', t') == Current(s, t).(inits := s'.inits, events := s'.events)
  {
    Arrive(s', t', sv', ph', h');
  }

  // A server step that leaves the client's view alone leaves everything else alone.
  lemma ViewUnchanged(s: State, t: Track, sv': Servers<Entry>, pool': Ghost)
    requires PoolInv(s, t)
    requires Inv(sv', pool', PhaseOf(s, t), Hand(s)) && pool'.chains == t.pool.chains
    requires PointerView(sv', Hand(s)) == PointerView(s.sv, Hand(s))
    requires NodeView(sv', Hand(s)) == NodeView(s.sv, Hand(s))
    ensures PoolInv(s.(sv := sv'), t.(pool := pool'))
    ensures Current(s.(sv := sv'), t.(pool := pool')) == Current(s, t)
  {
    var s', t' := s.(sv := sv'), t.(pool := pool');
    Settle(s, t, s', t', sv', PhaseOf(s, t), Hand(s));
  }

  lemma ServerStep(s: State, t: Track, a: Action)
    requires PoolInv(s, t)
    requires a.FreeListHandler? || a.PointerTable? || a.MetaTable?
    ensures PoolInv(Next(s, a), NextTrack(s, t, a))
    ensures Current(Next(s, a), NextTrack(s, t, a)) == Current(s, t)
  {
    match a {
      case FreeListHandler =>
        FreeListKeeps(s.sv, t.pool, PhaseOf(s, t), Hand(s));
        ViewUnchanged(s, t, FreeListStep(s.sv), FreeListGhost(s.sv, t.pool));
      case PointerTable =>
        PointerTableKeeps(s.sv, t.pool, PhaseOf(s, t), Hand(s));
        ViewUnchanged(s, t, PointerTableStep(s.sv), t.pool);
      case MetaTable =>
        NodeTableKeeps(s.sv, t.pool, PhaseOf(s, t), Hand(s));
        ViewUnchanged(s, t, NodeTableStep(s.sv), t.pool);
    }
  }

  lemma InputsChange(s: State, t: Track, s': State)
    requires PoolInv(s, t) && InRange(s')
    requires s' == s.(updates := s'.updates, naks := s'.naks, timeouts := s'.timeouts, inserts := s'.inserts)
    ensures PoolInv(s', t) && Current(s', t) == Current(s, t)
  {
    assert Hand(s') == Hand(s) && PhaseOf(s', t) == PhaseOf(s, t);
  }

  lemma AcceptUpdate(s: State, t: Track)
    requires PoolInv(s, t) && s.ctl == Main && s.updates != []
    ensures PoolInv(MainStep(s), MainTrack(s, t)) && Current(MainStep(s), MainTrack(s, t)) == Current(s, t)
  {
    var s', t', r := MainStep(s), MainTrack(s, t), s.updates[0];
    var sv' := s.sv.(ptrReq := s.sv.ptrReq + [PointerReq(r.qpn, true)]);
    RequestPointer(s.sv, t.pool, Hand(s), r.qpn, true);
    assert s'.sv == sv';
    Settle(s, t, s', t', sv', AwaitPointer(r.qpn, true), Hand(s));
  }

  lemma AcceptNak(s: State, t: Track)
    requires PoolInv(s, t) && s.ctl == Main && s.updates == [] && s.naks != []
    ensures PoolInv(MainStep(s), MainTrack(s, t)) && Current(MainStep(s), MainTrack(s, t)) == Current(s, t)
  {
    var s', t', r := MainStep(s), MainTrack(s, t), s.naks[0];
    var sv' := s.sv.(ptrReq := s.sv.ptrReq + [PointerReq(r.qpn, false)]);
    RequestPointer(s.sv, t.pool, Hand(s), r.qpn, false);
    assert s'.sv == sv';
    Settle(s, t, s', t', sv', AwaitPointer(r.qpn, false), Hand(s));
  }

  lemma AcceptTimeout(s: State, t: Track)
    requires PoolInv(s, t) && s.ctl == Main && s.updates == [] && s.naks == [] && s.timeouts != []
    ensures PoolInv(MainStep(s), MainTrack(s, t)) && Current(MainStep(s), MainTrack(s, t)) == Current(s, t)
  {
    var s', t', r := MainStep(s), MainTrack(s, t), s.timeouts[0];
    var sv' := s.sv.(ptrReq := s.sv.ptrReq + [PointerReq(r.qpn, false)]);
    RequestPointer(s.sv, t.pool, Hand(s), r.qpn, false);
    assert s'.sv == sv';
    Settle(s, t, s', t', sv', AwaitPointer(r.qpn, false), Hand(s));
  }

  lemma AcceptInsert(s: State, t: Track)
    requires PoolInv(s, t) && s.ctl == Main && s.updates == [] && s.naks == [] && s.timeouts == []
    requires s.inserts != [] && s.sv.freeList != []
    ensures PoolInv(MainStep(s), MainTrack(s, t)) && Current(MainStep(s), MainTrack(s, t)) == Current(s, t)
  {
    var s', t', i := MainStep(s), MainTrack(s, t), s.inserts[0];
    HoldFree(s.sv, t.pool, Hand(s));
    var sv1, h' := s.sv.(freeList := s.sv.freeList[1..]), InHand([s.sv.freeList[0]], [], []);
    var sv' := sv1.(ptrReq := sv1.ptrReq + [PointerReq(i.qpn, true)]);
    RequestPointer(sv1, t'.pool, h', i.qpn, true);
    assert s'.sv == sv' && Hand(s') == h';
    Settle(s, t, s', t', sv', AwaitPointer(i.qpn, true), h');
  }

  lemma MainMoves(s: State, t: Track)
    requires PoolInv(s, t) && s.ctl == Main
    ensures PoolInv(MainStep(s), MainTrack(s, t)) && Current(MainStep(s), MainTrack(s, t)) == Current(s, t)
  {
    if s.updates != [] {
      AcceptUpdate(s, t);
    } else if s.naks != [] {
      AcceptNak(s, t);
    } else if s.timeouts != [] {
      AcceptTimeout(s, t);
    } else if s.inserts != [] && s.sv.freeList != [] {
      AcceptInsert(s, t);
    }
  }

  lemma Insert0Links(s: State, t: Track)
    requires PoolInv(s, t) && s.ctl == Insert0 && s.sv.ptrRsp != [] && s.sv.ptrRsp[0].valid
    ensures
      var s', t' := Insert0Step(s), Insert0Track(s, t);
      PoolInv(s', t') && Current(s', t') == ApplyOp(Current(s, t), Insert(s.insert))
  {
    var q := s.insert.qpn;
    TakePointer(s.sv, t.pool, Hand(s), q, true);
    assert ChainOk(s.sv.ptrRsp[0], NodeView(s.sv, Hand(s)), t.pool.chains[q]);
    var sv, p := s.sv.(ptrRsp := s.sv.ptrRsp[1..]), s.sv.ptrRsp[0];
    PushLink(sv, t.pool, q, s.newIdx, s.insert.entry, p);
    Arrive(Insert0Step(s), Insert0Track(s, t), sv.(nodeReq := sv.nodeReq + [Append(p.tail, s.newIdx)]),
           Working(Some(q)), InHand([], [NewNode(s)], [PointerUpd(q, p.(tail := s.newIdx))]));
  }

  lemma Insert0Starts(s: State, t: Track)
    requires PoolInv(s, t) && s.ctl == Insert0 && s.sv.ptrRsp != [] && !s.sv.ptrRsp[0].valid
    ensures
      var s', t' := Insert0Step(s), Insert0Track(s, t);
      PoolInv(s', t') && Current(s', t') == ApplyOp(Current(s, t), Insert(s.insert))
  {
    var q := s.insert.qpn;
    TakePointer(s.sv, t.pool, Hand(s), q, true);
    assert ChainOk(s.sv.ptrRsp[0], NodeView(s.sv, Hand(s)), t.pool.chains[q]);
    var sv, p' := s.sv.(ptrRsp := s.sv.ptrRsp[1..]), Pointer(s.newIdx, s.newIdx, true);
    PushFirst(sv, t.pool, q, s.newIdx, s.insert.entry);
    Arrive(Insert0Step(s), Insert0Track(s, t),
           sv.(nodeReq := sv.nodeReq + [NewNode(s)], ptrUpd := sv.ptrUpd + [PointerUpd(q, p')]),
           Idle, InHand([], [], []));
  }

  lemma Insert1Flushes(s: State, t: Track)
    requires PoolInv(s, t) && s.ctl == Insert1
    ensures PoolInv(Insert1Step(s), t) && Current(Insert1Step(s), t) == Current(s, t)
  {
    var q := s.insert.qpn;
    PushFlush(s.sv, t.pool, q, NewNode(s), PointerUpd(q, s.ptrMeta));
    Settle(s, t, Insert1Step(s), t,
           s.sv.(nodeReq := s.sv.nodeReq + [NewNode(s)], ptrUpd := s.sv.ptrUpd + [PointerUpd(q, s.ptrMeta)]),
           Idle, InHand([], [], []));
  }

  lemma Update0Reads(s: State, t: Track)
    requires PoolInv(s, t) && s.ctl == Update0 && s.sv.ptrRsp != [] && s.sv.ptrRsp[0].valid
    ensures PoolInv(Update0Step(s), t) && Current(Update0Step(s), t) == Current(s, t)
  {
    var q := s.update.qpn;
    TakePointer(s.sv, t.pool, Hand(s), q, true);
    var p, sv := s.sv.ptrRsp[0], s.sv.(ptrRsp := s.sv.ptrRsp[1..]);
    assert ChainOk(p, NodeView(s.sv, Hand(s)), t.pool.chains[q]);
    RequestNode(sv, t.pool, Hand(s), p.head, Some(q));
    var s', sv' := Update0Step(s), sv.(nodeReq := sv.nodeReq + [Read(p.head)]);
    assert s'.sv == sv' && PhaseOf(s', t) == AwaitNode(p.head, Some(q));
    Settle(s, t, s', t, sv', AwaitNode(p.head, Some(q)), Hand(s));
  }

  lemma Update0Drops(s: State, t: Track)
    requires PoolInv(s, t) && s.ctl == Update0 && s.sv.ptrRsp != [] && !s.sv.ptrRsp[0].valid
    ensures PoolInv(Update0Step(s), t) && Current(Update0Step(s), t) == Current(s, t)
  {
    var q := s.update.qpn;
    TakePointer(s.sv, t.pool, Hand(s), q, true);
    var p, sv := s.sv.ptrRsp[0], s.sv.(ptrRsp := s.sv.ptrRsp[1..]);
    WriteBack(sv, t.pool, Hand(s), q, Some(q));
    var s', sv' := Update0Step(s), sv.(ptrUpd := sv.ptrUpd + [PointerUpd(q, p)]);
    assert s'.sv == sv' && PhaseOf(s', t) == Idle;
    Settle(s, t, s', t, sv', Idle, Hand(s));
  }

  // The answer is the head of the list.
  lemma HeadAnswered(s: State, t: Track)
    requires PoolInv(s, t) && s.ctl == Update1 && s.sv.nodeRsp != []
    ensures
      var q, m, sv := s.update.qpn, s.sv.nodeRsp[0], s.sv.(nodeRsp := s.sv.nodeRsp[1..]);
      var list := Current(s, t).lists[q];
      && list != [] && m.valid && m.value == list[0]
      && Inv(sv, t.pool, Working(Some(q)), InHand([], [], []))
      && NodeView(sv, InHand([], [], [])) == NodeView(s.sv, Hand(s))
      && PointerView(sv, InHand([], [], []))[q] == s.ptrMeta
      && t.pool.chains[q] != [] && s.curr == s.ptrMeta.head < |sv.nodes|
      && m == NodeView(sv, InHand([], [], []))[s.ptrMeta.head]
      && s.ptrMeta.head == t.pool.chains[q][0] < |t.pool.place|
  {
    var q := s.update.qpn;
    TakeNode(s.sv, t.pool, Hand(s), s.curr, Some(q));
    assert ChainOk(s.ptrMeta, NodeView(s.sv, Hand(s)), t.pool.chains[q]);
  }

  // The rule of the plain map in the client's own terms.
  lemma UpdateIs(m: Model, u: UpdateReq)
    requires u.qpn < |m.lists| && m.lists[u.qpn] != []
    ensures
      var list := m.lists[u.qpn];
      ApplyOp(m, Update(u))
      == Model(m.lists[u.qpn := if KeepsEntry(u.opCode) then list[0 := Advance(list[0])] else list[1..]],
               if ForwardsAddress(u.opCode) then m.inits + [ReadInit(list[0].localAddr, list[0].lst)] else m.inits,
               m.events)
  {
  }

  lemma Update1Rewrites(s: State, t: Track)
    requires PoolInv(s, t) && s.ctl == Update1 && s.sv.nodeRsp != [] && KeepsEntry(s.update.opCode)
    ensures PoolInv(Update1Step(s), t) && Current(Update1Step(s), t) == ApplyOp(Current(s, t), Update(s.update))
  {
    HeadAnswered(s, t);
    var q, m, sv := s.update.qpn, s.sv.nodeRsp[0], s.sv.(nodeRsp := s.sv.nodeRsp[1..]);
    UpdateIs(Current(s, t), s.update);
    hide ApplyOp, ApplyUpdate, ForwardsAddress, KeepsEntry;
    RewriteHead(sv, t.pool, q, s.ptrMeta, Advance(m.value));
    Arrive(Update1Step(s), t,
           sv.(nodeReq := sv.nodeReq + [Write(s.ptrMeta.head, m.(value := Advance(m.value)))],
               ptrUpd := sv.ptrUpd + [PointerUpd(q, s.ptrMeta)]), Idle, InHand([], [], []));
  }

  lemma Update1Pops(s: State, t: Track)
    requires PoolInv(s, t) && s.ctl == Update1 && s.sv.nodeRsp != [] && !KeepsEntry(s.update.opCode)
    ensures
      var s', t' := Update1Step(s), Update1Track(s, t);
      PoolInv(s', t') && Current(s', t') == ApplyOp(Current(s, t), Update(s.update))
  {
    HeadAnswered(s, t);
    var q, m, sv := s.update.qpn, s.sv.nodeRsp[0], s.sv.(nodeRsp := s.sv.nodeRsp[1..]);
    UpdateIs(Current(s, t), s.update);
    hide ApplyOp, ApplyUpdate, ForwardsAddress, KeepsEntry;
    PopHead(sv, t.pool, q, Some(q), s.ptrMeta, m);
    Arrive(Update1Step(s), Update1Track(s, t),
           sv.(release := sv.release + [s.ptrMeta.head],
               ptrUpd := sv.ptrUpd + [PointerUpd(q, s.ptrMeta.(head := m.next, valid := !m.isTail))]),
           Idle, InHand([], [], []));
  }

  // The pointer has been answered: either the list is empty, or the head is read next.
  lemma PointerAnswered(s: State, t: Track) returns (sv': Servers<Entry>, ph': Phase)
    requires PoolInv(s, t) && (s.ctl == Retrans0 || s.ctl == TimerRetrans0) && s.sv.ptrRsp != []
    ensures
      var q, p, sv := s.retrans.qpn, s.sv.ptrRsp[0], s.sv.(ptrRsp := s.sv.ptrRsp[1..]);
      && sv' == (if p.valid then sv.(nodeReq := sv.nodeReq + [Read(p.head)]) else sv)
      && ph' == (if p.valid then AwaitNode(p.head, None) else Idle)
      && q < |t.pool.chains|
      && (p.valid <==> t.pool.chains[q] != [])
      && (p.valid ==> p.head == t.pool.chains[q][0])
    ensures |sv'.ptrs| == |s.sv.ptrs| && Inv(sv', t.pool, ph', Hand(s))
    ensures NodeView(sv', Hand(s)) == NodeView(s.sv, Hand(s))
  {
    var q := s.retrans.qpn;
    TakePointer(s.sv, t.pool, Hand(s), q, false);
    var p, sv := s.sv.ptrRsp[0], s.sv.(ptrRsp := s.sv.ptrRsp[1..]);
    assert ChainOk(p, NodeView(s.sv, Hand(s)), t.pool.chains[q]);
    if p.valid {
      RequestNode(sv, t.pool, Hand(s), p.head, None);
      sv', ph' := sv.(nodeReq := sv.nodeReq + [Read(p.head)]), AwaitNode(p.head, None);
    } else {
      GiveUp(sv, t.pool, Hand(s));
      sv', ph' := sv, Idle;
    }
  }

  lemma Retrans0Moves(s: State, t: Track)
    requires PoolInv(s, t) && s.ctl == Retrans0 && s.sv.ptrRsp != []
    ensures PoolInv(Retrans0Step(s), t.(pos := 0)) && Current(Retrans0Step(s), t.(pos := 0)) == Current(s, t)
  {
    var s', t' := Retrans0Step(s), t.(pos := 0);
    var sv', ph' := PointerAnswered(s, t);
    assert s'.sv == sv' && PhaseOf(s', t') == ph';
    Settle(s, t, s', t', sv', ph', Hand(s));
  }

  lemma TimerRetrans0Moves(s: State, t: Track)
    requires PoolInv(s, t) && s.ctl == TimerRetrans0 && s.sv.ptrRsp != []
    ensures PoolInv(TimerRetrans0Step(s), t.(pos := 0)) && Current(TimerRetrans0Step(s), t.(pos := 0)) == Current(s, t)
  {
    var s', t' := TimerRetrans0Step(s), t.(pos := 0);
    var sv', ph' := PointerAnswered(s, t);
    assert s'.sv == sv' && PhaseOf(s', t') == ph';
    Settle(s, t, s', t', sv', ph', Hand(s));
  }

  // The node just answered is the one at the traversal's position, and its forward
  // pointer is the next position.
  lemma NodeAnswered(s: State, t: Track) returns (sv': Servers<Entry>, ph': Phase)
    requires PoolInv(s, t) && (s.ctl == Retrans1 || s.ctl == Retrans2) && s.sv.nodeRsp != []
    ensures
      var q, m, sv := s.retrans.qpn, s.sv.nodeRsp[0], s.sv.(nodeRsp := s.sv.nodeRsp[1..]);
      var c, list := Chain(s, t, q), Current(s, t).lists[q];
      && sv' == (if m.isTail then sv else sv.(nodeReq := sv.nodeReq + [Read(m.next)]))
      && ph' == (if m.isTail then Working(None) else AwaitNode(m.next, None))
      && t.pos < |c| == |list| && m.valid && m.value == list[t.pos]
      && (m.isTail <==> t.pos == |c| - 1)
      && (!m.isTail ==> m.next == c[t.pos + 1])
    ensures |sv'.ptrs| == |s.sv.ptrs| && Inv(sv', t.pool, ph', Hand(s))
    ensures ph'.Working? ==> Inv(sv', t.pool, Idle, Hand(s))
    ensures NodeView(sv', Hand(s)) == NodeView(s.sv, Hand(s))
  {
    var c := Chain(s, t, s.retrans.qpn);
    assert ChainOk(PointerView(s.sv, Hand(s))[s.retrans.qpn], NodeView(s.sv, Hand(s)), c);
    TakeNode(s.sv, t.pool, Hand(s), c[t.pos], None);
    var m, sv := s.sv.nodeRsp[0], s.sv.(nodeRsp := s.sv.nodeRsp[1..]);
    if m.isTail {
      GiveUp(sv, t.pool, Hand(s));
      sv', ph' := sv, Working(None);
    } else {
      assert t.pos + 1 < |c| && m.next == c[t.pos + 1];
      RequestNode(sv, t.pool, Hand(s), m.next, None);
      sv', ph' := sv.(nodeReq := sv.nodeReq + [Read(m.next)]), AwaitNode(m.next, None);
    }
  }

  // A tail that does not match: nothing is requested, and the state stays.
  lemma Retrans1Hangs(s: State, t: Track)
    requires PoolInv(s, t) && s.ctl == Retrans1 && s.sv.nodeRsp != []
    requires s.sv.nodeRsp[0].isTail && s.sv.nodeRsp[0].value.psn != s.retrans.psn
    ensures
      var s', t' := Retrans1Step(s), TraverseTrack(s, t);
      PoolInv(s', t') && Current(s', t') == Current(s, t)
  {
    var s', t' := Retrans1Step(s), TraverseTrack(s, t);
    var sv', ph' := NodeAnswered(s, t);
    assert s'.sv == sv' && s'.ctl == Retrans1;
    Settle(s, t, s', t', sv', Working(None), Hand(s));
  }

  lemma Retrans1Moves(s: State, t: Track)
    requires PoolInv(s, t) && s.ctl == Retrans1 && s.sv.nodeRsp != []
    requires s.sv.nodeRsp[0].isTail ==> s.sv.nodeRsp[0].value.psn == s.retrans.psn
    ensures
      var s', t' := Retrans1Step(s), TraverseTrack(s, t);
      PoolInv(s', t') && Current(s', t') == Current(s, t).(events := s'.events)
  {
    var s', t' := Retrans1Step(s), TraverseTrack(s, t);
    var sv', ph' := NodeAnswered(s, t);
    assert s'.sv == sv';
    Settle(s, t, s', t', sv', if s.sv.nodeRsp[0].isTail then Idle else ph', Hand(s));
  }

  lemma Retrans2Moves(s: State, t: Track)
    requires PoolInv(s, t) && s.ctl == Retrans2 && s.sv.nodeRsp != []
    ensures
      var s', t' := Retrans2Step(s), TraverseTrack(s, t);
      PoolInv(s', t') && Current(s', t') == Current(s, t).(events := s'.events)
  {
    var s', t' := Retrans2Step(s), TraverseTrack(s, t);
    var sv', ph' := NodeAnswered(s, t);
    assert s'.sv == sv';
    Settle(s, t, s', t', sv', if s.sv.nodeRsp[0].isTail then Idle else ph', Hand(s));
  }

  lemma AnswersHold(s: State, t: Track)
    requires PoolInv(s, t)
    ensures Answers(s, t.pos, Current(s, t))
  {
    var q := if s.ctl == Update0 then s.update.qpn else s.retrans.qpn;
    match s.ctl {
      case Update1 =>
        if s.sv.nodeRsp != [] { HeadAnswered(s, t); }
      case Retrans1 =>
        if s.sv.nodeRsp != [] { var _, _ := NodeAnswered(s, t); }
      case Retrans2 =>
        if s.sv.nodeRsp != [] { var _, _ := NodeAnswered(s, t); }
      case Update0 => PointerSays(s, t, q);
      case Retrans0 => PointerSays(s, t, q);
      case TimerRetrans0 => PointerSays(s, t, q);
      case _ =>
    }
  }

  lemma PointerSays(s: State, t: Track, q: nat)
    requires PoolInv(s, t) && PhaseOf(s, t).AwaitPointer? && PhaseOf(s, t).queue == q
    ensures q < |Current(s, t).lists|
    ensures s.sv.ptrRsp != [] ==> (s.sv.ptrRsp[0].valid <==> Current(s, t).lists[q] != [])
  {
    assert ChainOk(PointerView(s.sv, Hand(s))[q], NodeView(s.sv, Hand(s)), t.pool.chains[q]);
  }

  // Before a traversal has begun, its position does not matter.
  lemma PositionFree(s: State, t: Track)
    requires PoolInv(s, t) && (s.ctl == Retrans0 || s.ctl == TimerRetrans0)
    ensures PoolInv(s, t.(pos := 0)) && Current(s, t.(pos := 0)) == Current(s, t)
  {
  }

  lemma ProcessMoves(s: State, t: Track)
    requires PoolInv(s, t)
    ensures PoolInv(ProcessStep(s), ProcessTrack(s, t))
    ensures Current(ProcessStep(s), ProcessTrack(s, t)) == Effect(s, Current(s, t))
  {
    hide PoolInv;
    match s.ctl {
      case Main => MainMoves(s, t);
      case Insert0 =>
        if s.sv.ptrRsp != [] {
          if s.sv.ptrRsp[0].valid { Insert0Links(s, t); } else { Insert0Starts(s, t); }
        }
      case Insert1 => Insert1Flushes(s, t);
      case Update0 =>
        if s.sv.ptrRsp != [] {
          if s.sv.ptrRsp[0].valid { Update0Reads(s, t); } else { Update0Drops(s, t); }
        }
      case Update1 =>
        if s.sv.nodeRsp != [] {
          if KeepsEntry(s.update.opCode) { Update1Rewrites(s, t); } else { Update1Pops(s, t); }
        }
      case Retrans0 => if s.sv.ptrRsp != [] { Retrans0Moves(s, t); } else { PositionFree(s, t); }
      case TimerRetrans0 => if s.sv.ptrRsp != [] { TimerRetrans0Moves(s, t); } else { PositionFree(s, t); }
      case Retrans1 =>
        if s.sv.nodeRsp != [] {
          AnswersHold(s, t);
          if s.sv.nodeRsp[0].isTail && s.sv.nodeRsp[0].value.psn != s.retrans.psn {
            Retrans1Hangs(s, t);
          } else {
            Retrans1Moves(s, t);
          }
        }
      case Retrans2 =>
        if s.sv.nodeRsp != [] {
          AnswersHold(s, t);
          Retrans2Moves(s, t);
        }
    }
  }

  // ---------------------------------------------------------------- the model, step by step

  lemma EventsStep(events: seq<Event>, qpn: nat, es: seq<Entry>, k: nat)
    requires k < |es|
    ensures es[k..][0] == es[k] && es[k..][1..] == es[k + 1..]
    ensures events + EventsOf(qpn, es[k..]) == (events + [Event(qpn, es[k])]) + EventsOf(qpn, es[k + 1..])
    ensures k == |es| - 1 ==> events + EventsOf(qpn, es[k..]) == events + [Event(qpn, es[k])]
    ensures k == |es| - 1 ==> events + EventsOf(qpn, es[k + 1..]) == events
  {
  }

  // A step within a request changes the model exactly as the request still demands.
  lemma TargetKept(s: State, pos: nat, pos': nat, m: Model)
    requires s.ctl != Main && Answers(s, pos, m)
    requires
      match s.ctl
      case Retrans0 => pos' == 0
      case TimerRetrans0 => pos' == 0
      case Retrans1 => pos' == if s.sv.nodeRsp != [] then pos + 1 else pos
      case Retrans2 => pos' == if s.sv.nodeRsp != [] then pos + 1 else pos
      case _ => true
    ensures TargetOf(ProcessStep(s), pos', Effect(s, m)) == TargetOf(s, pos, m)
  {
    if s.retrans.qpn < |m.lists| {
      var list := m.lists[s.retrans.qpn];
      if (s.ctl == Retrans1 || s.ctl == Retrans2) && s.sv.nodeRsp != [] {
        EventsStep(m.events, s.retrans.qpn, list, pos);
      } else if s.ctl == Retrans0 || s.ctl == TimerRetrans0 {
        assert list[0..] == list;
        if list == [] { assert m.events + EventsOf(s.retrans.qpn, list) == m.events; }
      }
    }
  }

  // Taking a request from an input FIFO: it is now what the target still demands.
  lemma MainAccepts(s: State, t: Track, m: Model)
    requires s.ctl == Main && (s.sv.freeList != [] ==> s.sv.freeList[0] < |t.pool.place|)
    ensures
      var s', t' := MainStep(s), MainTrack(s, t);
      if s' == s then t' == t
      else t'.log == t.log + [InProgress(s')] && TargetOf(s', t'.pos, m) == ApplyOp(m, InProgress(s'))
  {
    if s.updates != [] {
      assert MainStep(s).ctl == Update0;
    } else if s.naks != [] {
      assert MainStep(s).ctl == Retrans0;
    } else if s.timeouts != [] {
      assert MainStep(s).ctl == TimerRetrans0;
    } else if s.inserts != [] && s.sv.freeList != [] {
      assert MainStep(s).ctl == Insert0;
    }
  }

  lemma MainKeeps(s: State, t: Track)
    requires Refines(s, t) && s.ctl == Main
    ensures Refines(MainStep(s), MainTrack(s, t))
  {
    MainMoves(s, t);
    assert s.sv.freeList != [] ==> s.sv.freeList[0] < |t.pool.place|;
    MainAccepts(s, t, Current(s, t));
    if MainStep(s) != s {
      ReplaySnoc(EmptyModel(|s.sv.ptrs|), t.log, InProgress(MainStep(s)));
    }
  }

  lemma ProcessKeeps(s: State, t: Track)
    requires Refines(s, t)
    ensures Refines(ProcessStep(s), ProcessTrack(s, t))
  {
    hide PoolInv, Replay, Answers, Effect, TargetOf;
    if s.ctl == Main {
      MainKeeps(s, t);
    } else {
      ProcessMoves(s, t);
      AnswersHold(s, t);
      TargetKept(s, t.pos, ProcessTrack(s, t).pos, Current(s, t));
    }
  }

  // Everything but the client leaves the model and what is demanded of it alone.
  lemma SameRequest(s: State, s': State, pos: nat, m: Model)
    requires s'.ctl == s.ctl && s'.insert == s.insert && s'.update == s.update && s'.retrans == s.retrans
    ensures TargetOf(s', pos, m) == TargetOf(s, pos, m)
  {
  }

  lemma ServerKeeps(s: State, t: Track, a: Action)
    requires Refines(s, t) && (a.FreeListHandler? || a.PointerTable? || a.MetaTable?)
    ensures Refines(Next(s, a), NextTrack(s, t, a))
    ensures Current(Next(s, a), NextTrack(s, t, a)) == Current(s, t)
  {
    ServerStep(s, t, a);
    SameRequest(s, Next(s, a), t.pos, Current(s, t));
  }

  lemma InputKeeps(s: State, t: Track, s': State)
    requires Refines(s, t) && InRange(s')
    requires s' == s.(updates := s'.updates, naks := s'.naks, timeouts := s'.timeouts, inserts := s'.inserts)
    ensures Refines(s', t) && Current(s', t) == Current(s, t)
  {
    InputsChange(s, t, s');
    SameRequest(s, s', t.pos, Current(s, t));
  }

  lemma StepKeeps(s: State, t: Track, a: Action)
    requires Refines(s, t) && Allowed(a, |s.sv.ptrs|)
    ensures Refines(Next(s, a), NextTrack(s, t, a))
    ensures !a.ProcessRetransmissions? ==> Current(Next(s, a), NextTrack(s, t, a)) == Current(s, t)
  {
    if a.ProcessRetransmissions? {
      ProcessKeeps(s, t);
    } else if a.FreeListHandler? || a.PointerTable? || a.MetaTable? {
      ServerKeeps(s, t, a);
    } else {
      InputKeeps(s, t, Next(s, a));
    }
  }
}
