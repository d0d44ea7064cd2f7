// The multi queue: independent FIFO queues of values, kept in a LinkedPool and driven by
// one client process.
module MultiQueue {
  import opened Wrappers
  import opened LinkedPool

  datatype PopOperation = PopHead | Front
  datatype PushReq<V> = PushReq(key: nat, value: V)
  datatype PopReq = PopReq(op: PopOperation, key: nat)

  datatype Control = Main | Push | Push2 | Pop | Pop2

  datatype State<V> = State(
    sv: Servers<V>,
    // registers of mq_process_requests
    ctl: Control, newIdx: nat, insert: PushReq<V>, popRequest: PopReq, meta: Node<V>, ptrMeta: Pointer,
    // input FIFOs
    pushes: seq<PushReq<V>>, pops: seq<PopReq>,
    // everything written to the output FIFO so far
    answers: seq<V>)

  predicate SameSizes<V>(s: State<V>, s': State<V>) {
    |s'.sv.ptrs| == |s.sv.ptrs| && |s'.sv.nodes| == |s.sv.nodes|
  }

  // ---------------------------------------------------------------- mq_process_requests

  // A push goes before a pop, but only if there is a free index.
  function MainStep<V>(s: State<V>): (s': State<V>)
    ensures SameSizes(s, s')
  {
    if s.pushes != [] && s.sv.freeList != [] then
      var i := s.pushes[0];
      s.(pushes := s.pushes[1..], insert := i, newIdx := s.sv.freeList[0], ctl := Push,
         sv := s.sv.(freeList := s.sv.freeList[1..], ptrReq := s.sv.ptrReq + [PointerReq(i.key, true)]))
    else if s.pops != [] then
      var r := s.pops[0];
      s.(pops := s.pops[1..], popRequest := r, ctl := Pop,
         sv := s.sv.(ptrReq := s.sv.ptrReq + [PointerReq(r.key, false)]))
    else s
  }

  function NewNode<V>(s: State<V>): NodeReq<V> {
    Write(s.newIdx, Node(s.insert.value, 0, true, true))
  }

  function PushStep<V>(s: State<V>): (s': State<V>)
    ensures SameSizes(s, s')
  {
    if s.sv.ptrRsp == [] then s
    else
      var p, sv := s.sv.ptrRsp[0], s.sv.(ptrRsp := s.sv.ptrRsp[1..]);
      if !p.valid then
        var p' := Pointer(s.newIdx, s.newIdx, true);
        s.(ptrMeta := p', ctl := Main,
           sv := sv.(nodeReq := sv.nodeReq + [NewNode(s)], ptrUpd := sv.ptrUpd + [PointerUpd(s.insert.key, p')]))
      else
        s.(ptrMeta := p.(tail := s.newIdx), ctl := Push2,
           sv := sv.(nodeReq := sv.nodeReq + [Append(p.tail, s.newIdx)]))
  }

  function Push2Step<V>(s: State<V>): (s': State<V>)
    ensures SameSizes(s, s')
  {
    s.(ctl := Main,
       sv := s.sv.(nodeReq := s.sv.nodeReq + [NewNode(s)],
                   ptrUpd := s.sv.ptrUpd + [PointerUpd(s.insert.key, s.ptrMeta)]))
  }

  function PopStep<V>(s: State<V>): (s': State<V>)
    ensures SameSizes(s, s')
  {
    if s.sv.ptrRsp == [] then s
    else
      var p, sv := s.sv.ptrRsp[0], s.sv.(ptrRsp := s.sv.ptrRsp[1..]);
      if p.valid then s.(ptrMeta := p, ctl := Pop2, sv := sv.(nodeReq := sv.nodeReq + [Read(p.head)]))
      else s.(ptrMeta := p, ctl := Main, sv := sv)
  }

  function Pop2Step<V>(s: State<V>): (s': State<V>)
    ensures SameSizes(s, s')
  {
    if s.sv.nodeRsp == [] then s
    else
      var m, sv := s.sv.nodeRsp[0], s.sv.(nodeRsp := s.sv.nodeRsp[1..]);
      if !m.valid then s.(meta := m, ctl := Main, sv := sv)
      else if s.popRequest.op.PopHead? then
        var p := s.ptrMeta.(head := m.next, valid := !m.isTail);
        s.(meta := m, ctl := Main, answers := s.answers + [m.value], ptrMeta := p,
           sv := sv.(release := sv.release + [s.ptrMeta.head],
                     ptrUpd := sv.ptrUpd + [PointerUpd(s.popRequest.key, p)]))
      else
        s.(meta := m, ctl := Main, answers := s.answers + [m.value], sv := sv)
  }

  function ProcessStep<V>(s: State<V>): (s': State<V>)
    ensures SameSizes(s, s')
  {
    match s.ctl
    case Main => MainStep(s)
    case Push => PushStep(s)
    case Push2 => Push2Step(s)
    case Pop => PopStep(s)
    case Pop2 => Pop2Step(s)
  }

  // ---------------------------------------------------------------- runs

  datatype Action<V> =
    | FreeListHandler | PointerTable | MetaTable | ProcessRequests
    | OfferPush(i: PushReq<V>) | OfferPop(r: PopReq)

  predicate Allowed<V>(a: Action<V>, queues: nat) {
    match a
    case OfferPush(i) => i.key < queues
    case OfferPop(r) => r.key < queues
    case _ => true
  }

  function Next<V>(s: State<V>, a: Action<V>): (s': State<V>)
    ensures SameSizes(s, s')
  {
    match a
    case FreeListHandler => s.(sv := FreeListStep(s.sv))
    case PointerTable => s.(sv := PointerTableStep(s.sv))
    case MetaTable => s.(sv := NodeTableStep(s.sv))
    case ProcessRequests => ProcessStep(s)
    case OfferPush(i) => s.(pushes := s.pushes + [i])
    case OfferPop(r) => s.(pops := s.pops + [r])
  }

  function Run<V>(s: State<V>, actions: seq<Action<V>>): (s': State<V>)
    ensures SameSizes(s, s')
    decreases |actions|
  {
    if actions == [] then s
    else Next(Run(s, actions[..|actions| - 1]), actions[|actions| - 1])
  }

  // Power-up: tables cleared, FIFOs empty, nothing issued.
  ghost predicate Initial<V>(s: State<V>) {
    && s.ctl == Main
    && (forall q :: 0 <= q < |s.sv.ptrs| ==> !s.sv.ptrs[q].valid)
    && !s.sv.isLocked && !s.sv.waiting && s.sv.issued == 0
    && s.sv.ptrReq == [] && s.sv.ptrUpd == [] && s.sv.ptrRsp == []
    && s.sv.nodeReq == [] && s.sv.nodeRsp == [] && s.sv.freeList == [] && s.sv.release == []
    && s.pushes == [] && s.pops == [] && s.answers == []
  }
}
