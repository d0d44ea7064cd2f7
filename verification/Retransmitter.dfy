// The retransmitter: per queue pair, the list of requests sent and not yet
// acknowledged, kept in a LinkedPool and driven by one client process.
module Retransmitter {
  import opened Wrappers
  import opened InfiniBand
  import opened LinkedPool

  // ---------------------------------------------------------------- data

  datatype Entry = Entry(psn: nat, opCode: OpCode, localAddr: nat, remoteAddr: nat, length: nat, lst: bool, offs: nat)
  datatype InsertReq = InsertReq(qpn: nat, entry: Entry)
  datatype UpdateReq = UpdateReq(qpn: nat, psn: nat, opCode: OpCode)
  datatype RetransReq = RetransReq(qpn: nat, psn: nat)
  datatype ReadInit = ReadInit(localAddr: nat, lst: bool)
  datatype Event = Event(qpn: nat, entry: Entry)

  datatype Control =
    | Main | Insert0 | Insert1 | Update0 | Update1 | Retrans0 | Retrans1 | Retrans2 | TimerRetrans0

  datatype State = State(
    sv: Servers<Entry>,
    // registers of process_retransmissions
    ctl: Control, update: UpdateReq, curr: nat, newIdx: nat, insert: InsertReq, retrans: RetransReq,
    meta: Node<Entry>, ptrMeta: Pointer,
    // input FIFOs
    updates: seq<UpdateReq>, naks: seq<RetransReq>, timeouts: seq<RetransReq>, inserts: seq<InsertReq>,
    // everything written to the two output FIFOs so far
    inits: seq<ReadInit>, events: seq<Event>)

  // One PMTU of a read has been answered.
  function Advance(e: Entry): Entry {
    e.(localAddr := (e.localAddr + PMTU) % ADDR_MOD, remoteAddr := (e.remoteAddr + PMTU) % ADDR_MOD,
       length := (e.length - PMTU) % LEN_MOD, psn := (e.psn + 1) % PSN_MOD)
  }

  predicate ForwardsAddress(op: OpCode) { op.ReadRespFirst? || op.ReadRespOnly? }

  predicate KeepsEntry(op: OpCode) { op.ReadRespFirst? || op.ReadRespMiddle? }

  // The tables keep their sizes.
  predicate SameSizes(s: State, s': State) {
    |s'.sv.ptrs| == |s.sv.ptrs| && |s'.sv.nodes| == |s.sv.nodes|
  }

  // ---------------------------------------------------------------- process_retransmissions

  function MainStep(s: State): (s': State)
    ensures SameSizes(s, s')
  {
    if s.updates != [] then
      var u := s.updates[0];
      s.(updates := s.updates[1..], update := u, ctl := Update0,
         sv := s.sv.(ptrReq := s.sv.ptrReq + [PointerReq(u.qpn, true)]))
    else if s.naks != [] then
      var r := s.naks[0];
      s.(naks := s.naks[1..], retrans := r, ctl := Retrans0,
         sv := s.sv.(ptrReq := s.sv.ptrReq + [PointerReq(r.qpn, false)]))
    else if s.timeouts != [] then
      var r := s.timeouts[0];
      s.(timeouts := s.timeouts[1..], retrans := r, ctl := TimerRetrans0,
         sv := s.sv.(ptrReq := s.sv.ptrReq + [PointerReq(r.qpn, false)]))
    else if s.inserts != [] && s.sv.freeList != [] then
      var i := s.inserts[0];
      s.(inserts := s.inserts[1..], insert := i, newIdx := s.sv.freeList[0], ctl := Insert0,
         sv := s.sv.(freeList := s.sv.freeList[1..], ptrReq := s.sv.ptrReq + [PointerReq(i.qpn, true)]))
    else s
  }

  function NewNode(s: State): NodeReq<Entry> {
    Write(s.newIdx, Node(s.insert.entry, 0, true, true))
  }

  function Insert0Step(s: State): (s': State)
    ensures SameSizes(s, s')
  {
    if s.sv.ptrRsp == [] then s
    else
      var p, sv := s.sv.ptrRsp[0], s.sv.(ptrRsp := s.sv.ptrRsp[1..]);
      if !p.valid then
        var p' := Pointer(s.newIdx, s.newIdx, true);
        s.(ptrMeta := p', ctl := Main,
           sv := sv.(nodeReq := sv.nodeReq + [NewNode(s)], ptrUpd := sv.ptrUpd + [PointerUpd(s.insert.qpn, p')]))
      else
        s.(ptrMeta := p.(tail := s.newIdx), ctl := Insert1,
           sv := sv.(nodeReq := sv.nodeReq + [Append(p.tail, s.newIdx)]))
  }

  function Insert1Step(s: State): (s': State)
    ensures SameSizes(s, s')
  {
    s.(ctl := Main,
       sv := s.sv.(nodeReq := s.sv.nodeReq + [NewNode(s)],
                   ptrUpd := s.sv.ptrUpd + [PointerUpd(s.insert.qpn, s.ptrMeta)]))
  }

  function Update0Step(s: State): (s': State)
    ensures SameSizes(s, s')
  {
    if s.sv.ptrRsp == [] then s
    else
      var p, sv := s.sv.ptrRsp[0], s.sv.(ptrRsp := s.sv.ptrRsp[1..]);
      if p.valid then
        s.(ptrMeta := p, curr := p.head, ctl := Update1, sv := sv.(nodeReq := sv.nodeReq + [Read(p.head)]))
      else
        s.(ptrMeta := p, ctl := Main, sv := sv.(ptrUpd := sv.ptrUpd + [PointerUpd(s.update.qpn, p)]))
  }

  function Update1Step(s: State): (s': State)
    ensures SameSizes(s, s')
  {
    if s.sv.nodeRsp == [] then s
    else
      var m, sv := s.sv.nodeRsp[0], s.sv.(nodeRsp := s.sv.nodeRsp[1..]);
      if !m.valid then s.(meta := m, sv := sv)
      else
        var inits := if ForwardsAddress(s.update.opCode)
                     then s.inits + [ReadInit(m.value.localAddr, m.value.lst)] else s.inits;
        if KeepsEntry(s.update.opCode) then
          var m' := m.(value := Advance(m.value));
          s.(meta := m', inits := inits, ctl := Main,
             sv := sv.(nodeReq := sv.nodeReq + [Write(s.ptrMeta.head, m')],
                       ptrUpd := sv.ptrUpd + [PointerUpd(s.update.qpn, s.ptrMeta)]))
        else
          var p := s.ptrMeta.(head := m.next, valid := !m.isTail);
          s.(meta := m, inits := inits, ptrMeta := p, curr := m.next, ctl := Main,
             sv := sv.(release := sv.release + [s.curr],
                       ptrUpd := sv.ptrUpd + [PointerUpd(s.update.qpn, p)]))
  }

  function Retrans0Step(s: State): (s': State)
    ensures SameSizes(s, s')
  {
    if s.sv.ptrRsp == [] then s
    else
      var p, sv := s.sv.ptrRsp[0], s.sv.(ptrRsp := s.sv.ptrRsp[1..]);
      if p.valid then
        s.(ptrMeta := p, curr := p.head, ctl := Retrans1, sv := sv.(nodeReq := sv.nodeReq + [Read(p.head)]))
      else
        s.(ptrMeta := p, ctl := Main, sv := sv)
  }

  // A tail that does not match keeps the process in this state although nothing was
  // requested: the assignment of MAIN in the tail branch is overwritten below it.
  function Retrans1Step(s: State): (s': State)
    ensures SameSizes(s, s')
  {
    if s.sv.nodeRsp == [] then s
    else
      var m, sv := s.sv.nodeRsp[0], s.sv.(nodeRsp := s.sv.nodeRsp[1..]);
      if !m.valid then s.(meta := m, ctl := Main, sv := sv)
      else
        var sv' := if m.isTail then sv else sv.(nodeReq := sv.nodeReq + [Read(m.next)]);
        if m.value.psn == s.retrans.psn then
          s.(meta := m, sv := sv', events := s.events + [Event(s.retrans.qpn, m.value)],
             ctl := if m.isTail then Main else Retrans2)
        else
          s.(meta := m, sv := sv', ctl := Retrans1)
  }

  function Retrans2Step(s: State): (s': State)
    ensures SameSizes(s, s')
  {
    if s.sv.nodeRsp == [] then s
    else
      var m, sv := s.sv.nodeRsp[0], s.sv.(nodeRsp := s.sv.nodeRsp[1..]);
      if !m.valid then s.(meta := m, ctl := Main, sv := sv)
      else
        s.(meta := m, events := s.events + [Event(s.retrans.qpn, m.value)],
           ctl := if m.isTail then Main else Retrans2,
           sv := if m.isTail then sv else sv.(nodeReq := sv.nodeReq + [Read(m.next)]))
  }

  function TimerRetrans0Step(s: State): (s': State)
    ensures SameSizes(s, s')
  {
    if s.sv.ptrRsp == [] then s
    else
      var p, sv := s.sv.ptrRsp[0], s.sv.(ptrRsp := s.sv.ptrRsp[1..]);
      if p.valid then
        s.(ptrMeta := p, ctl := Retrans2, sv := sv.(nodeReq := sv.nodeReq + [Read(p.head)]))
      else
        s.(ptrMeta := p, ctl := Main, sv := sv)
  }

  function ProcessStep(s: State): (s': State)
    ensures SameSizes(s, s')
  {
    match s.ctl
    case Main => MainStep(s)
    case Insert0 => Insert0Step(s)
    case Insert1 => Insert1Step(s)
    case Update0 => Update0Step(s)
    case Update1 => Update1Step(s)
    case Retrans0 => Retrans0Step(s)
    case Retrans1 => Retrans1Step(s)
    case Retrans2 => Retrans2Step(s)
    case TimerRetrans0 => TimerRetrans0Step(s)
  }

  // ---------------------------------------------------------------- runs

  // The scheduler may call any process next; the environment may offer a request
  // to any input FIFO at any time.
  datatype Action =
    | FreeListHandler | PointerTable | MetaTable | ProcessRetransmissions
    | OfferUpdate(u: UpdateReq) | OfferNak(r: RetransReq) | OfferTimeout(t: RetransReq) | OfferInsert(i: InsertReq)

  predicate Allowed(a: Action, queues: nat) {
    match a
    case OfferUpdate(u) => u.qpn < queues
    case OfferNak(r) => r.qpn < queues
    case OfferTimeout(t) => t.qpn < queues
    case OfferInsert(i) => i.qpn < queues
    case _ => true
  }

  function Next(s: State, a: Action): (s': State)
    ensures SameSizes(s, s')
  {
    match a
    case FreeListHandler => s.(sv := FreeListStep(s.sv))
    case PointerTable => s.(sv := PointerTableStep(s.sv))
    case MetaTable => s.(sv := NodeTableStep(s.sv))
    case ProcessRetransmissions => ProcessStep(s)
    case OfferUpdate(u) => s.(updates := s.updates + [u])
    case OfferNak(r) => s.(naks := s.naks + [r])
    case OfferTimeout(t) => s.(timeouts := s.timeouts + [t])
    case OfferInsert(i) => s.(inserts := s.inserts + [i])
  }

  function Run(s: State, actions: seq<Action>): (s': State)
    ensures SameSizes(s, s')
    decreases |actions|
  {
    if actions == [] then s
    else Next(Run(s, actions[..|actions| - 1]), actions[|actions| - 1])
  }

  // Power-up: tables cleared, FIFOs empty, nothing issued.
  ghost predicate Initial(s: State) {
    && s.ctl == Main
    && (forall q :: 0 <= q < |s.sv.ptrs| ==> !s.sv.ptrs[q].valid)
    && !s.sv.isLocked && !s.sv.waiting && s.sv.issued == 0
    && s.sv.ptrReq == [] && s.sv.ptrUpd == [] && s.sv.ptrRsp == []
    && s.sv.nodeReq == [] && s.sv.nodeRsp == [] && s.sv.freeList == [] && s.sv.release == []
    && s.updates == [] && s.naks == [] && s.timeouts == [] && s.inserts == []
    && s.inits == [] && s.events == []
  }
}
