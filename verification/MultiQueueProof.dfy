// The multi queue's four processes, under any schedule, behave like independent FIFO
// queues on which whole requests act one at a time.
module MultiQueueProof {
  import opened Wrappers
  import opened LinkedPool
  import opened MultiQueue

  // ---------------------------------------------------------------- plain queues

  datatype Op<V> = Pushed(i: PushReq<V>) | Popped(r: PopReq)

  datatype Model<V> = Model(queues: seq<seq<V>>, answers: seq<V>)

  function ApplyPop<V>(m: Model<V>, r: PopReq): Model<V>
    requires r.key < |m.queues|
  {
    var queue := m.queues[r.key];
    if queue == [] then m
    else
      Model(if r.op.PopHead? then m.queues[r.key := queue[1..]] else m.queues, m.answers + [queue[0]])
  }

  function ApplyOp<V>(m: Model<V>, op: Op<V>): (m': Model<V>)
    ensures |m'.queues| == |m.queues|
  {
    match op
    case Pushed(i) =>
      if i.key < |m.queues| then m.(queues := m.queues[i.key := m.queues[i.key] + [i.value]]) else m
    case Popped(r) => if r.key < |m.queues| then ApplyPop(m, r) else m
  }

  function Replay<V>(m: Model<V>, log: seq<Op<V>>): (m': Model<V>)
    ensures |m'.queues| == |m.queues|
    decreases |log|
  {
    if log == [] then m else ApplyOp(Replay(m, log[..|log| - 1]), log[|log| - 1])
  }

  lemma ReplaySnoc<V>(m: Model<V>, log: seq<Op<V>>, op: Op<V>)
    ensures Replay(m, log + [op]) == ApplyOp(Replay(m, log), op)
  {
    assert (log + [op])[..|log|] == log;
  }

  function EmptyModel<V>(queues: nat): (m: Model<V>)
    ensures |m.queues| == queues
  {
    Model(seq(queues, _ => []), [])
  }

  // ---------------------------------------------------------------- ghost state and invariant

  // log: the requests the client process has taken from its input FIFOs, in order.
  datatype Track<V> = Track(pool: Ghost, log: seq<Op<V>>)

  ghost function Hand<V>(s: State<V>): InHand<V> {
    match s.ctl
    case Push => InHand([s.newIdx], [], [])
    case Push2 => InHand([], [NewNode(s)], [PointerUpd(s.insert.key, s.ptrMeta)])
    case _ => InHand([], [], [])
  }

  ghost function PhaseOf<V>(s: State<V>): Phase {
    match s.ctl
    case Main => Idle
    case Push => AwaitPointer(s.insert.key, true)
    case Push2 => Working(Some(s.insert.key))
    case Pop => AwaitPointer(s.popRequest.key, false)
    case Pop2 => AwaitNode(s.ptrMeta.head, None)
  }

  ghost predicate InRange<V>(s: State<V>) {
    && (forall k :: 0 <= k < |s.pushes| ==> s.pushes[k].key < |s.sv.ptrs|)
    && (forall k :: 0 <= k < |s.pops| ==> s.pops[k].key < |s.sv.ptrs|)
  }

  ghost predicate Registers<V>(s: State<V>, t: Track<V>) {
    match s.ctl
    case Push2 => s.insert.key < |s.sv.ptrs| && s.newIdx < |s.sv.nodes|
    case Pop2 =>
      && s.popRequest.key < |s.sv.ptrs| == |t.pool.chains| && t.pool.chains[s.popRequest.key] != []
      && s.ptrMeta == PointerView(s.sv, Hand(s))[s.popRequest.key]
    case _ => true
  }

  ghost predicate PoolInv<V>(s: State<V>, t: Track<V>) {
    Inv(s.sv, t.pool, PhaseOf(s), Hand(s)) && InRange(s) && Registers(s, t)
  }

  ghost function Current<V>(s: State<V>, t: Track<V>): Model<V>
    requires PoolInv(s, t)
  {
    Model(Queues(NodeView(s.sv, Hand(s)), t.pool.chains), s.answers)
  }

  // What model m will be when the request in progress is complete. A push counts as
  // soon as its place in the queue is fixed, a pop when the head is answered.
  ghost function Target<V>(s: State<V>, m: Model<V>): Model<V> {
    match s.ctl
    case Push => ApplyOp(m, Pushed(s.insert))
    case Pop => ApplyOp(m, Popped(s.popRequest))
    case Pop2 => ApplyOp(m, Popped(s.popRequest))
    case _ => m
  }

  ghost predicate Refines<V>(s: State<V>, t: Track<V>) {
    PoolInv(s, t) && Target(s, Current(s, t)) == Replay(EmptyModel(|s.sv.ptrs|), t.log)
  }

  // ---------------------------------------------------------------- ghost steps

  ghost function MainTrack<V>(s: State<V>, t: Track<V>): Track<V> {
    if s.pushes != [] && s.sv.freeList != [] then
      if s.sv.freeList[0] < |t.pool.place| then Track(HoldGhost(s.sv, t.pool), t.log + [Pushed(s.pushes[0])]) else t
    else if s.pops != [] then t.(log := t.log + [Popped(s.pops[0])])
    else t
  }

  ghost function PushTrack<V>(s: State<V>, t: Track<V>): Track<V> {
    if s.sv.ptrRsp != [] && s.insert.key < |t.pool.chains| && s.newIdx < |t.pool.place| then
      t.(pool := PushGhost(t.pool, s.insert.key, s.newIdx))
    else t
  }

  ghost function Pop2Track<V>(s: State<V>, t: Track<V>): Track<V> {
    var q := s.popRequest.key;
    if s.sv.nodeRsp != [] && s.popRequest.op.PopHead? && q < |t.pool.chains| && t.pool.chains[q] != []
       && t.pool.chains[q][0] < |t.pool.place| then
      t.(pool := PopGhost(t.pool, q))
    else t
  }

  ghost function NextTrack<V>(s: State<V>, t: Track<V>, a: Action<V>): Track<V> {
    match a
    case FreeListHandler => t.(pool := FreeListGhost(s.sv, t.pool))
    case ProcessRequests =>
      (match s.ctl
       case Main => MainTrack(s, t)
       case Push => PushTrack(s, t)
       case Pop2 => Pop2Track(s, t)
       case _ => t)
    case _ => t
  }

  // ---------------------------------------------------------------- the pool, step by step

  lemma Arrive<V>(s': State<V>, t': Track<V>, sv': Servers<V>, ph': Phase, h': InHand<V>)
    requires InRange(s') && Registers(s', t')
    requires s'.sv == sv' && Hand(s') == h' && PhaseOf(s') == ph' && Inv(sv', t'.pool, ph', h')
    ensures PoolInv(s', t')
    ensures Current(s', t') == Model(Queues(NodeView(sv', h'), t'.pool.chains), s'.answers)
  {
  }

  // A step that leaves the queues alone.
  lemma Settle<V>(s: State<V>, t: Track<V>, s': State<V>, t': Track<V>, sv': Servers<V>, ph': Phase, h': InHand<V>)
    requires PoolInv(s, t) && InRange(s') && t'.pool.chains == t.pool.chains && s'.sv == sv'
    requires |sv'.ptrs| == |s.sv.ptrs| && Hand(s') == h' && PhaseOf(s') == ph' && Inv(sv', t'.pool, ph', h')
    requires NodeView(sv', h') == NodeView(s.sv, Hand(s)) && Registers(s', t')
    ensures PoolInv(s', t') && Current(s', t') == Current(s, t).(answers := s'.answers)
  {
    Arrive(s', t', sv', ph', h');
  }

  lemma ServerMoves<V>(s: State<V>, t: Track<V>, a: Action<V>)
    requires PoolInv(s, t) && (a.FreeListHandler? || a.PointerTable? || a.MetaTable?)
    ensures PoolInv(Next(s, a), NextTrack(s, t, a)) && Current(Next(s, a), NextTrack(s, t, a)) == Current(s, t)
  {
    match a {
      case FreeListHandler => FreeListKeeps(s.sv, t.pool, PhaseOf(s), Hand(s));
      case PointerTable => PointerTableKeeps(s.sv, t.pool, PhaseOf(s), Hand(s));
      case MetaTable => NodeTableKeeps(s.sv, t.pool, PhaseOf(s), Hand(s));
    }
    hide FreeListStep, PointerTableStep, NodeTableStep, FreeListGhost, Inv, PointerView, NodeView;
    var s' := Next(s, a);
    Settle(s, t, s', NextTrack(s, t, a), s'.sv, PhaseOf(s), Hand(s));
  }

  lemma AcceptsPush<V>(s: State<V>, t: Track<V>)
    requires PoolInv(s, t) && s.ctl == Main && s.pushes != [] && s.sv.freeList != []
    ensures s.sv.freeList[0] < |t.pool.place|
    ensures PoolInv(MainStep(s), MainTrack(s, t)) && Current(MainStep(s), MainTrack(s, t)) == Current(s, t)
  {
    var s', t', i := MainStep(s), MainTrack(s, t), s.pushes[0];
    HoldFree(s.sv, t.pool, Hand(s));
    var sv1, h' := s.sv.(freeList := s.sv.freeList[1..]), InHand([s.sv.freeList[0]], [], []);
    var sv' := sv1.(ptrReq := sv1.ptrReq + [PointerReq(i.key, true)]);
    RequestPointer(sv1, t'.pool, h', i.key, true);
    assert s'.sv == sv' && Hand(s') == h';
    Settle(s, t, s', t', sv', AwaitPointer(i.key, true), h');
  }

  lemma AcceptsPop<V>(s: State<V>, t: Track<V>)
    requires PoolInv(s, t) && s.ctl == Main && (s.pushes == [] || s.sv.freeList == []) && s.pops != []
    ensures PoolInv(MainStep(s), MainTrack(s, t)) && Current(MainStep(s), MainTrack(s, t)) == Current(s, t)
  {
    var s', t', r := MainStep(s), MainTrack(s, t), s.pops[0];
    var sv' := s.sv.(ptrReq := s.sv.ptrReq + [PointerReq(r.key, false)]);
    RequestPointer(s.sv, t.pool, Hand(s), r.key, false);
    assert s'.sv == sv';
    Settle(s, t, s', t', sv', AwaitPointer(r.key, false), Hand(s));
  }

  lemma PushStarts<V>(s: State<V>, t: Track<V>)
    requires PoolInv(s, t) && s.ctl == Push && s.sv.ptrRsp != [] && !s.sv.ptrRsp[0].valid
    ensures
      var s', t' := PushStep(s), PushTrack(s, t);
      PoolInv(s', t') && Current(s', t') == ApplyOp(Current(s, t), Pushed(s.insert))
  {
    var q := s.insert.key;
    TakePointer(s.sv, t.pool, Hand(s), q, true);
    assert ChainOk(s.sv.ptrRsp[0], NodeView(s.sv, Hand(s)), t.pool.chains[q]);
    var sv, p' := s.sv.(ptrRsp := s.sv.ptrRsp[1..]), Pointer(s.newIdx, s.newIdx, true);
    PushFirst(sv, t.pool, q, s.newIdx, s.insert.value);
    Arrive(PushStep(s), PushTrack(s, t),
           sv.(nodeReq := sv.nodeReq + [NewNode(s)], ptrUpd := sv.ptrUpd + [PointerUpd(q, p')]),
           Idle, InHand([], [], []));
  }

  lemma PushLinks<V>(s: State<V>, t: Track<V>)
    requires PoolInv(s, t) && s.ctl == Push && s.sv.ptrRsp != [] && s.sv.ptrRsp[0].valid
    ensures
      var s', t' := PushStep(s), PushTrack(s, t);
      PoolInv(s', t') && Current(s', t') == ApplyOp(Current(s, t), Pushed(s.insert))
  {
    var q := s.insert.key;
    TakePointer(s.sv, t.pool, Hand(s), q, true);
    assert ChainOk(s.sv.ptrRsp[0], NodeView(s.sv, Hand(s)), t.pool.chains[q]);
    var sv, p := s.sv.(ptrRsp := s.sv.ptrRsp[1..]), s.sv.ptrRsp[0];
    PushLink(sv, t.pool, q, s.newIdx, s.insert.value, p);
    Arrive(PushStep(s), PushTrack(s, t), sv.(nodeReq := sv.nodeReq + [Append(p.tail, s.newIdx)]),
           Working(Some(q)), InHand([], [NewNode(s)], [PointerUpd(q, p.(tail := s.newIdx))]));
  }

  lemma Push2Flushes<V>(s: State<V>, t: Track<V>)
    requires PoolInv(s, t) && s.ctl == Push2
    ensures PoolInv(Push2Step(s), t) && Current(Push2Step(s), t) == Current(s, t)
  {
    var q := s.insert.key;
    PushFlush(s.sv, t.pool, q, NewNode(s), PointerUpd(q, s.ptrMeta));
    Settle(s, t, Push2Step(s), t,
           s.sv.(nodeReq := s.sv.nodeReq + [NewNode(s)], ptrUpd := s.sv.ptrUpd + [PointerUpd(q, s.ptrMeta)]),
           Idle, InHand([], [], []));
  }

  // The pointer has been answered: an empty queue is left alone, otherwise its head is
  // read next.
  lemma PopReads<V>(s: State<V>, t: Track<V>)
    requires PoolInv(s, t) && s.ctl == Pop && s.sv.ptrRsp != []
    ensures PoolInv(PopStep(s), t) && Current(PopStep(s), t) == Current(s, t)
    ensures
      var q := s.popRequest.key;
      q < |Current(s, t).queues| && (PopStep(s).ctl == Pop2 <==> Current(s, t).queues[q] != [])
  {
    var q := s.popRequest.key;
    TakePointer(s.sv, t.pool, Hand(s), q, false);
    var p, sv := s.sv.ptrRsp[0], s.sv.(ptrRsp := s.sv.ptrRsp[1..]);
    assert ChainOk(p, NodeView(s.sv, Hand(s)), t.pool.chains[q]);
    var s' := PopStep(s);
    if p.valid {
      RequestNode(sv, t.pool, Hand(s), p.head, None);
      var sv' := sv.(nodeReq := sv.nodeReq + [Read(p.head)]);
      assert s'.sv == sv';
      Settle(s, t, s', t, sv', AwaitNode(p.head, None), Hand(s));
    } else {
      GiveUp(sv, t.pool, Hand(s));
      assert s'.sv == sv;
      Settle(s, t, s', t, sv, Idle, Hand(s));
    }
  }

  // The answer is the head of the queue.
  lemma HeadAnswered<V>(s: State<V>, t: Track<V>)
    requires PoolInv(s, t) && s.ctl == Pop2 && s.sv.nodeRsp != []
    ensures
      var q, m, sv := s.popRequest.key, s.sv.nodeRsp[0], s.sv.(nodeRsp := s.sv.nodeRsp[1..]);
      var h: InHand<V> := InHand([], [], []);
      var queue := Current(s, t).queues[q];
      && queue != [] && m.valid && m.value == queue[0]
      && Inv(sv, t.pool, Working(None), h) && NodeView(sv, h) == NodeView(s.sv, Hand(s))
      && PointerView(sv, h)[q] == s.ptrMeta
      && s.ptrMeta.head < |sv.nodes| && m == NodeView(sv, h)[s.ptrMeta.head]
  {
    var q := s.popRequest.key;
    TakeNode(s.sv, t.pool, Hand(s), s.ptrMeta.head, None);
    assert ChainOk(s.ptrMeta, NodeView(s.sv, Hand(s)), t.pool.chains[q]);
  }

  lemma RangeKept<V>(s: State<V>, s': State<V>)
    requires InRange(s) && s'.pushes == s.pushes && s'.pops == s.pops && |s'.sv.ptrs| == |s.sv.ptrs|
    ensures InRange(s')
  {
  }

  lemma Pop2Removes<V>(s: State<V>, t: Track<V>)
    requires PoolInv(s, t) && s.ctl == Pop2 && s.sv.nodeRsp != [] && s.popRequest.op.PopHead?
    ensures
      var s', t' := Pop2Step(s), Pop2Track(s, t);
      PoolInv(s', t') && Current(s', t') == ApplyOp(Current(s, t), Popped(s.popRequest))
  {
    HeadAnswered(s, t);
    var q, m, sv := s.popRequest.key, s.sv.nodeRsp[0], s.sv.(nodeRsp := s.sv.nodeRsp[1..]);
    var h: InHand<V> := InHand([], [], []);
    assert q < |t.pool.chains| == |PointerView(sv, h)| && t.pool.chains[q] != [];
    hide Inv, NodeView, PointerView, InRange;
    RangeKept(s, Pop2Step(s));
    LinkedPool.PopHead(sv, t.pool, q, None, s.ptrMeta, m);
    Arrive(Pop2Step(s), Pop2Track(s, t),
           sv.(release := sv.release + [s.ptrMeta.head],
               ptrUpd := sv.ptrUpd + [PointerUpd(q, s.ptrMeta.(head := m.next, valid := !m.isTail))]),
           Idle, h);
  }

  lemma Pop2Keeps<V>(s: State<V>, t: Track<V>)
    requires PoolInv(s, t) && s.ctl == Pop2 && s.sv.nodeRsp != [] && s.popRequest.op.Front?
    ensures PoolInv(Pop2Step(s), t) && Current(Pop2Step(s), t) == ApplyOp(Current(s, t), Popped(s.popRequest))
  {
    HeadAnswered(s, t);
    var sv := s.sv.(nodeRsp := s.sv.nodeRsp[1..]);
    GiveUp(sv, t.pool, InHand([], [], []));
    Settle(s, t, Pop2Step(s), t, sv, Idle, InHand([], [], []));
  }

  // ---------------------------------------------------------------- steps refine

  lemma MainKeeps<V>(s: State<V>, t: Track<V>)
    requires Refines(s, t) && s.ctl == Main
    ensures Refines(MainStep(s), MainTrack(s, t))
  {
    if s.pushes != [] && s.sv.freeList != [] {
      AcceptsPush(s, t);
      ReplaySnoc(EmptyModel(|s.sv.ptrs|), t.log, Pushed(s.pushes[0]));
    } else if s.pops != [] {
      AcceptsPop(s, t);
      ReplaySnoc(EmptyModel(|s.sv.ptrs|), t.log, Popped(s.pops[0]));
    }
  }

  lemma ProcessKeeps<V>(s: State<V>, t: Track<V>)
    requires Refines(s, t)
    ensures Refines(ProcessStep(s), NextTrack(s, t, ProcessRequests))
  {
    hide Replay, PoolInv, Inv;
    match s.ctl {
      case Main => MainKeeps(s, t);
      case Push =>
        if s.sv.ptrRsp != [] {
          if s.sv.ptrRsp[0].valid { PushLinks(s, t); } else { PushStarts(s, t); }
        }
      case Push2 => Push2Flushes(s, t);
      case Pop => if s.sv.ptrRsp != [] { PopReads(s, t); }
      case Pop2 =>
        if s.sv.nodeRsp != [] {
          if s.popRequest.op.PopHead? {
            HeadAnswered(s, t);
            Pop2Removes(s, t);
          } else {
            Pop2Keeps(s, t);
          }
        }
    }
  }

  lemma OfferKeeps<V>(s: State<V>, t: Track<V>, s': State<V>)
    requires Refines(s, t) && InRange(s') && s' == s.(pushes := s'.pushes, pops := s'.pops)
    ensures Refines(s', t) && Current(s', t) == Current(s, t)
  {
    assert Hand(s') == Hand(s) && PhaseOf(s') == PhaseOf(s);
    Settle(s, t, s', t, s.sv, PhaseOf(s), Hand(s));
  }

  lemma StepKeeps<V>(s: State<V>, t: Track<V>, a: Action<V>)
    requires Refines(s, t) && Allowed(a, |s.sv.ptrs|)
    ensures Refines(Next(s, a), NextTrack(s, t, a))
  {
    if a.ProcessRequests? {
      ProcessKeeps(s, t);
    } else if a.OfferPush? || a.OfferPop? {
      OfferKeeps(s, t, Next(s, a));
    } else {
      ServerMoves(s, t, a);
    }
  }

  // ---------------------------------------------------------------- runs refine

  ghost predicate AllAllowed<V>(actions: seq<Action<V>>, queues: nat) {
    forall k :: 0 <= k < |actions| ==> Allowed(actions[k], queues)
  }

  ghost function StartTrack<V>(s: State<V>): Track<V> {
    Track(Ghost(seq(|s.sv.ptrs|, _ => []), seq(|s.sv.nodes|, _ => Unissued)), [])
  }

  ghost function TrackOf<V>(s: State<V>, actions: seq<Action<V>>): Track<V>
    decreases |actions|
  {
    if actions == [] then StartTrack(s)
    else
      var before := actions[..|actions| - 1];
      NextTrack(Run(s, before), TrackOf(s, before), actions[|actions| - 1])
  }

  lemma StartOwned<V>(s: State<V>)
    requires Initial(s)
    ensures Owned(s.sv, StartTrack(s).pool, [])
  {
    var g := StartTrack(s).pool;
    forall q | 0 <= q < |g.chains| ensures Ledger(g.chains[q], g.place, Chained(q)) {
    }
  }

  lemma StartPool<V>(s: State<V>)
    requires Initial(s)
    ensures PoolInv(s, StartTrack(s))
  {
    var t := StartTrack(s);
    assert s.sv.ptrUpd + Hand(s).upds == [] && s.sv.nodeReq + Hand(s).nodes == [];
    assert PointerView(s.sv, Hand(s)) == s.sv.ptrs && NodeView(s.sv, Hand(s)) == s.sv.nodes;
    StartOwned(s);
    hide PointerView, NodeView, Owned;
    assert Linked(s.sv.ptrs, s.sv.nodes, t.pool.chains);
  }

  lemma StartRefines<V>(s: State<V>)
    requires Initial(s)
    ensures Refines(s, StartTrack(s))
  {
    var t := StartTrack(s);
    assert s.sv.ptrUpd + Hand(s).upds == [] && s.sv.nodeReq + Hand(s).nodes == [];
    StartPool(s);
    assert Current(s, t).queues == EmptyModel<V>(|s.sv.ptrs|).queues;
  }

  lemma {:induction false} RunRefines<V>(s: State<V>, actions: seq<Action<V>>)
    requires Initial(s) && AllAllowed(actions, |s.sv.ptrs|)
    ensures Refines(Run(s, actions), TrackOf(s, actions))
    decreases |actions|
  {
    hide Refines;
    if actions == [] {
      StartRefines(s);
    } else {
      var before := actions[..|actions| - 1];
      RunRefines(s, before);
      StepKeeps(Run(s, before), TrackOf(s, before), actions[|actions| - 1]);
    }
  }

  // Whenever the client is idle, the queues and all answers are what the requests it has
  // taken give on plain queues, one request at a time.
  lemma RefinesQueues<V>(s: State<V>, actions: seq<Action<V>>)
    requires Initial(s) && AllAllowed(actions, |s.sv.ptrs|)
    ensures
      var e, t := Run(s, actions), TrackOf(s, actions);
      PoolInv(e, t) && (e.ctl == Main ==> Current(e, t) == Replay(EmptyModel(|s.sv.ptrs|), t.log))
  {
    RunRefines(s, actions);
  }

  // The pointer table never parks a request, and no node is ever answered as invalid.
  lemma AnswersAreCurrent<V>(s: State<V>, actions: seq<Action<V>>)
    requires Initial(s) && AllAllowed(actions, |s.sv.ptrs|)
    ensures
      var e := Run(s, actions);
      && !e.sv.waiting
      && (e.sv.ptrRsp != [] ==>
            var q := if e.ctl == Push then e.insert.key else e.popRequest.key;
            (e.ctl == Push || e.ctl == Pop) && q < |e.sv.ptrs| && e.sv.ptrRsp == [PointerView(e.sv, Hand(e))[q]])
      && (e.sv.nodeRsp != [] ==>
            && e.ctl == Pop2 && e.ptrMeta.head < |e.sv.nodes|
            && e.sv.nodeRsp == [NodeView(e.sv, Hand(e))[e.ptrMeta.head]] && e.sv.nodeRsp[0].valid)
  {
    RunRefines(s, actions);
    var e, t := Run(s, actions), TrackOf(s, actions);
    if e.ctl == Pop2 && e.sv.nodeRsp != [] { HeadAnswered(e, t); }
  }

  // ---------------------------------------------------------------- nothing is lost or reordered

  function PushesOf<V>(log: seq<Op<V>>): seq<PushReq<V>>
    decreases |log|
  {
    if log == [] then []
    else PushesOf(log[..|log| - 1]) + if log[|log| - 1].Pushed? then [log[|log| - 1].i] else []
  }

  function PopsOf<V>(log: seq<Op<V>>): seq<PopReq>
    decreases |log|
  {
    if log == [] then []
    else PopsOf(log[..|log| - 1]) + if log[|log| - 1].Popped? then [log[|log| - 1].r] else []
  }

  function Offered<V>(actions: seq<Action<V>>): seq<Op<V>>
    decreases |actions|
  {
    if actions == [] then []
    else
      var a := actions[|actions| - 1];
      Offered(actions[..|actions| - 1])
      + if a.OfferPush? then [Pushed(a.i)] else if a.OfferPop? then [Popped(a.r)] else []
  }

  lemma OfSnoc<V>(log: seq<Op<V>>, op: Op<V>)
    ensures PushesOf(log + [op]) == PushesOf(log) + if op.Pushed? then [op.i] else []
    ensures PopsOf(log + [op]) == PopsOf(log) + if op.Popped? then [op.r] else []
  {
    assert (log + [op])[..|log|] == log;
  }

  ghost predicate Accounts<V>(s: State<V>, log: seq<Op<V>>, offered: seq<Op<V>>) {
    && PushesOf(log) + s.pushes == PushesOf(offered)
    && PopsOf(log) + s.pops == PopsOf(offered)
  }

  lemma MainAccounts<V>(s: State<V>, t: Track<V>, offered: seq<Op<V>>)
    requires s.ctl == Main && Accounts(s, t.log, offered)
    requires s.sv.freeList != [] ==> s.sv.freeList[0] < |t.pool.place|
    ensures Accounts(MainStep(s), MainTrack(s, t).log, offered)
  {
    hide PushesOf, PopsOf;
    if s.pushes != [] && s.sv.freeList != [] {
      OfSnoc(t.log, Pushed(s.pushes[0]));
      assert (PushesOf(t.log) + [s.pushes[0]]) + s.pushes[1..] == PushesOf(t.log) + s.pushes;
    } else if s.pops != [] {
      OfSnoc(t.log, Popped(s.pops[0]));
      assert (PopsOf(t.log) + [s.pops[0]]) + s.pops[1..] == PopsOf(t.log) + s.pops;
    }
  }

  lemma OfferAccounts<V>(s: State<V>, log: seq<Op<V>>, offered: seq<Op<V>>, a: Action<V>)
    requires Accounts(s, log, offered) && (a.OfferPush? || a.OfferPop?)
    ensures Accounts(Next(s, a), log, offered + [if a.OfferPush? then Pushed(a.i) else Popped(a.r)])
  {
    hide PushesOf, PopsOf;
    OfSnoc(offered, if a.OfferPush? then Pushed(a.i) else Popped(a.r));
    if a.OfferPush? {
      assert PushesOf(log) + (s.pushes + [a.i]) == (PushesOf(log) + s.pushes) + [a.i];
    } else {
      assert PopsOf(log) + (s.pops + [a.r]) == (PopsOf(log) + s.pops) + [a.r];
    }
  }

  // Both inputs are FIFOs: what has been accepted, followed by what still waits, is what
  // was offered.
  lemma {:induction false} AcceptsInOrder<V>(s: State<V>, actions: seq<Action<V>>)
    requires Initial(s) && AllAllowed(actions, |s.sv.ptrs|)
    ensures Accounts(Run(s, actions), TrackOf(s, actions).log, Offered(actions))
    decreases |actions|
  {
    hide Refines, PushesOf, PopsOf, Accounts;
    if actions == [] {
      StartAccounts(s);
    } else {
      var before, a := actions[..|actions| - 1], actions[|actions| - 1];
      var e, t := Run(s, before), TrackOf(s, before);
      AcceptsInOrder(s, before);
      RunRefines(s, before);
      FreeInRange(e, t);
      if a.OfferPush? || a.OfferPop? {
        OfferAccounts(e, t.log, Offered(before), a);
      } else {
        assert Offered(before) + [] == Offered(before);
        if a.ProcessRequests? && e.ctl == Main {
          MainAccounts(e, t, Offered(before));
        } else {
          SameAccounts(e, t.log, Offered(before), Next(e, a));
        }
      }
    }
  }

  lemma SameAccounts<V>(s: State<V>, log: seq<Op<V>>, offered: seq<Op<V>>, s': State<V>)
    requires Accounts(s, log, offered) && s'.pushes == s.pushes && s'.pops == s.pops
    ensures Accounts(s', log, offered)
  {
  }

  lemma StartAccounts<V>(s: State<V>)
    requires s.pushes == [] && s.pops == []
    ensures Accounts(s, [], [])
  {
  }

  lemma FreeInRange<V>(s: State<V>, t: Track<V>)
    requires Refines(s, t)
    ensures s.sv.freeList != [] ==> s.sv.freeList[0] < |t.pool.place|
  {
  }

  // ---------------------------------------------------------------- conservation

  // Every index is in exactly one place, and a released index always finds room.
  lemma PoolConserved<V>(s: State<V>, actions: seq<Action<V>>)
    requires Initial(s) && AllAllowed(actions, |s.sv.ptrs|)
    ensures
      var e, chains := Run(s, actions), TrackOf(s, actions).pool.chains;
      && (forall n :: 0 <= n < |e.sv.nodes| ==> PlacesOf(e.sv, chains, Hand(e).held, n) == 1)
      && |e.sv.freeList| <= |e.sv.nodes| && (e.sv.release != [] ==> |e.sv.freeList| < |e.sv.nodes|)
  {
    var e, t := Run(s, actions), TrackOf(s, actions);
    RunRefines(s, actions);
    FreeListHasRoom(e.sv, t.pool, PhaseOf(e), Hand(e));
    forall n | 0 <= n < |e.sv.nodes| ensures PlacesOf(e.sv, t.pool.chains, Hand(e).held, n) == 1 {
      OnePlace(e.sv, t.pool, Hand(e).held, n);
    }
  }

  // ---------------------------------------------------------------- first in, first out

  // Everything pushed to queue q, in order.
  function PushedTo<V>(log: seq<Op<V>>, q: nat): seq<V>
    decreases |log|
  {
    if log == [] then []
    else
      var op := log[|log| - 1];
      PushedTo(log[..|log| - 1], q) + if op.Pushed? && op.i.key == q then [op.i.value] else []
  }

  // Everything popped from queue q, in order, as answered: looking only at the requests
  // for q and how many values are left.
  function TakenFrom<V>(log: seq<Op<V>>, q: nat): seq<V>
    decreases |log|, 0
  {
    if log == [] then []
    else
      var before, op := log[..|log| - 1], log[|log| - 1];
      if op.Popped? && op.r == PopReq(PopOperation.PopHead, q) then TakenFrom(before, q) + HeadOf(before, q)
      else TakenFrom(before, q)
  }

  // The oldest value pushed to q and not yet taken.
  function HeadOf<V>(log: seq<Op<V>>, q: nat): seq<V>
    decreases |log|, 1
  {
    var k, all := |TakenFrom(log, q)|, PushedTo(log, q);
    if k < |all| then [all[k]] else []
  }

  // Every request to queue q answered from it.
  function AnswersOf<V>(log: seq<Op<V>>): seq<V>
    decreases |log|
  {
    if log == [] then []
    else
      var before, op := log[..|log| - 1], log[|log| - 1];
      AnswersOf(before) + if op.Popped? then HeadOf(before, op.r.key) else []
  }

  ghost predicate Keys<V>(log: seq<Op<V>>, queues: nat) {
    forall k :: 0 <= k < |log| ==> (if log[k].Pushed? then log[k].i.key else log[k].r.key) < queues
  }

  // What was taken from a queue, followed by what is in it, is what was pushed to it:
  // no request to another queue matters.
  lemma {:induction false} FirstInFirstOut<V>(queues: nat, log: seq<Op<V>>, q: nat)
    requires q < queues && Keys(log, queues)
    ensures TakenFrom(log, q) + Replay(EmptyModel(queues), log).queues[q] == PushedTo(log, q)
    decreases |log|
  {
    if log != [] {
      var before, op := log[..|log| - 1], log[|log| - 1];
      FirstInFirstOut(queues, before, q);
      var taken, rest := TakenFrom(before, q), Replay(EmptyModel<V>(queues), before).queues[q];
      assert HeadOf(before, q) == if rest == [] then [] else [rest[0]];
      assert (if op.Pushed? then op.i.key else op.r.key) < queues;
      if op.Pushed? && op.i.key == q {
        assert taken + (rest + [op.i.value]) == (taken + rest) + [op.i.value];
      } else if op.Popped? && op.r == PopReq(PopOperation.PopHead, q) && rest != [] {
        assert (taken + [rest[0]]) + rest[1..] == taken + rest;
      }
    }
  }

  // Every pop or front is answered with the oldest value of its queue, if it has any.
  lemma {:induction false} AnswersAreHeads<V>(queues: nat, log: seq<Op<V>>)
    requires Keys(log, queues)
    ensures Replay(EmptyModel(queues), log).answers == AnswersOf(log)
    decreases |log|
  {
    if log != [] {
      var before, op := log[..|log| - 1], log[|log| - 1];
      AnswersAreHeads(queues, before);
      assert (if op.Pushed? then op.i.key else op.r.key) < queues;
      if op.Popped? {
        FirstInFirstOut(queues, before, op.r.key);
        var rest := Replay(EmptyModel<V>(queues), before).queues[op.r.key];
        assert HeadOf(before, op.r.key) == if rest == [] then [] else [rest[0]];
      }
    }
  }

  lemma {:induction false} LogInRange<V>(s: State<V>, actions: seq<Action<V>>)
    requires Initial(s) && AllAllowed(actions, |s.sv.ptrs|)
    ensures Keys(TrackOf(s, actions).log, |s.sv.ptrs|)
    decreases |actions|
  {
    hide Refines;
    if actions != [] {
      var before, a := actions[..|actions| - 1], actions[|actions| - 1];
      LogInRange(s, before);
      RunRefines(s, before);
      InputsInRange(Run(s, before), TrackOf(s, before));
      var e := Run(s, before);
      if a.ProcessRequests? && e.ctl == Main {
        assert forall k :: 0 <= k < |e.pushes| ==> e.pushes[k].key < |s.sv.ptrs|;
      }
    }
  }

  lemma InputsInRange<V>(s: State<V>, t: Track<V>)
    requires Refines(s, t)
    ensures InRange(s)
  {
  }

  // In every reachable idle state: each queue holds exactly the values pushed to it and
  // not yet popped, oldest first, and the answers so far are the heads.
  lemma QueuesInRun<V>(s: State<V>, actions: seq<Action<V>>, q: nat)
    requires Initial(s) && AllAllowed(actions, |s.sv.ptrs|) && q < |s.sv.ptrs| && Run(s, actions).ctl == Main
    ensures
      var e, t := Run(s, actions), TrackOf(s, actions);
      && PoolInv(e, t)
      && TakenFrom(t.log, q) + Current(e, t).queues[q] == PushedTo(t.log, q)
      && e.answers == AnswersOf(t.log)
  {
    var t := TrackOf(s, actions);
    RefinesQueues(s, actions);
    LogInRange(s, actions);
    FirstInFirstOut(|s.sv.ptrs|, t.log, q);
    AnswersAreHeads(|s.sv.ptrs|, t.log);
  }
}
