// The four processes as they run: static tables and registers updated in place, FIFOs
// between them. Each method is one call of a process; the methods are tied to the step
// functions that the theorems are about.
module RetransmitterProcess {
  import opened Wrappers
  import opened InfiniBand
  import LinkedPool
  import opened Retransmitter
  import opened RetransmitterProof
  import RetransmitterTheorems

  type Pointer = LinkedPool.Pointer
  type Node = LinkedPool.Node<Entry>
  type NodeReq = LinkedPool.NodeReq<Entry>

  // FIFOs between the processes.
  datatype Channels = Channels(
    pointerReq: seq<LinkedPool.PointerReq>, pointerUpd: seq<LinkedPool.PointerUpd>, pointerRsp: seq<Pointer>,
    metaReq: seq<NodeReq>, metaRsp: seq<Node>, freeList: seq<nat>, release: seq<nat>)

  // FIFOs at the borders; the two outputs keep everything written to them.
  datatype Ports = Ports(
    updates: seq<UpdateReq>, naks: seq<RetransReq>, timeouts: seq<RetransReq>, inserts: seq<InsertReq>,
    inits: seq<ReadInit>, events: seq<Event>)

  // Static variables of process_retransmissions.
  datatype Registers = Registers(
    state: Control, update: UpdateReq, curr: nat, newMetaIdx: nat, insert: InsertReq, retrans: RetransReq,
    meta: Node, ptrMeta: Pointer)

  class Processes {
    // retrans_pointer_table
    const ptrTable: array<Pointer>
    var lockedQP: nat
    var isLocked: bool
    var waiting: bool
    var waitReq: LinkedPool.PointerReq
    // retrans_meta_table
    const metaTable: array<Node>
    // freelist_handler
    var freeListCounter: nat
    // process_retransmissions
    var reg: Registers
    var ch: Channels
    var io: Ports

    ghost function Contents(): State
      reads this, ptrTable, metaTable
    {
      State(LinkedPool.Servers(ptrTable[..], lockedQP, isLocked, waiting, waitReq, metaTable[..], freeListCounter,
                               ch.pointerReq, ch.pointerUpd, ch.pointerRsp, ch.metaReq, ch.metaRsp,
                               ch.freeList, ch.release),
            reg.state, reg.update, reg.curr, reg.newMetaIdx, reg.insert, reg.retrans, reg.meta, reg.ptrMeta,
            io.updates, io.naks, io.timeouts, io.inserts, io.inits, io.events)
    }

    // Every queued request names a table entry.
    predicate InBounds()
      reads this
    {
      && (forall i :: 0 <= i < |ch.metaReq| ==> ch.metaReq[i].idx < metaTable.Length)
      && (forall i :: 0 <= i < |ch.pointerUpd| ==> ch.pointerUpd[i].queue < ptrTable.Length)
      && (forall i :: 0 <= i < |ch.pointerReq| ==> ch.pointerReq[i].queue < ptrTable.Length)
      && (waiting ==> waitReq.queue < ptrTable.Length)
    }

    constructor (queues: nat, size: nat, blank: Entry)
      ensures Initial(Contents()) && ptrTable.Length == queues && metaTable.Length == size
      ensures fresh(ptrTable) && fresh(metaTable)
    {
      var noPointer, noNode := LinkedPool.Pointer(0, 0, false), LinkedPool.Node(blank, 0, false, false);
      ptrTable := new Pointer[queues](_ => noPointer);
      metaTable := new Node[size](_ => noNode);
      lockedQP, isLocked, waiting, waitReq, freeListCounter := 0, false, false, LinkedPool.PointerReq(0, false), 0;
      reg := Registers(Main, UpdateReq(0, 0, Ack), 0, 0, InsertReq(0, blank), RetransReq(0, 0), noNode, noPointer);
      ch := Channels([], [], [], [], [], [], []);
      io := Ports([], [], [], [], [], []);
    }

    method FreelistHandler()
      modifies this
      ensures Contents() == Next(old(Contents()), FreeListHandler)
    {
      if ch.release != [] {
        ch := ch.(release := ch.release[1..], freeList := ch.freeList + [ch.release[0]]);
      } else if freeListCounter < metaTable.Length && |ch.freeList| < metaTable.Length {
        ch := ch.(freeList := ch.freeList + [freeListCounter]);
        freeListCounter := freeListCounter + 1;
      }
    }

    method RetransPointerTable()
      requires InBounds()
      modifies this, ptrTable
      ensures Contents() == Next(old(Contents()), PointerTable)
    {
      if ch.pointerUpd != [] {
        var upd := ch.pointerUpd[0];
        ch := ch.(pointerUpd := ch.pointerUpd[1..]);
        ptrTable[upd.queue] := upd.entry;
        if lockedQP == upd.queue {
          isLocked := false;
        }
      } else if ch.pointerReq != [] && !waiting {
        waitReq := ch.pointerReq[0];
        ch := ch.(pointerReq := ch.pointerReq[1..]);
        if waitReq.lock && isLocked {
          waiting := true;
        } else {
          ch := ch.(pointerRsp := ch.pointerRsp + [ptrTable[waitReq.queue]]);
          if waitReq.lock {
            isLocked, lockedQP := true, waitReq.queue;
          }
        }
      } else if waiting && !isLocked {
        ch := ch.(pointerRsp := ch.pointerRsp + [ptrTable[waitReq.queue]]);
        isLocked, lockedQP, waiting := true, waitReq.queue, false;
      }
    }

    method RetransMetaTable()
      requires InBounds()
      modifies this, metaTable
      ensures Contents() == Next(old(Contents()), MetaTable)
    {
      if ch.metaReq != [] {
        var req := ch.metaReq[0];
        ch := ch.(metaReq := ch.metaReq[1..]);
        match req {
          case Write(idx, node) => metaTable[idx] := node;
          case Append(idx, next) => metaTable[idx] := metaTable[idx].(next := next, isTail := false);
          case Read(idx) => ch := ch.(metaRsp := ch.metaRsp + [metaTable[idx]]);
        }
      }
    }

    method WriteMeta(req: NodeReq)
      modifies this`ch
      ensures ch == old(ch).(metaReq := old(ch.metaReq) + [req])
    {
      ch := ch.(metaReq := ch.metaReq + [req]);
    }

    method ProcessMain()
      requires reg.state == Main
      modifies this`reg, this`ch, this`io
      ensures Contents() == MainStep(old(Contents()))
    {
      if io.updates != [] {
        var update := io.updates[0];
        io := io.(updates := io.updates[1..]);
        ch := ch.(pointerReq := ch.pointerReq + [LinkedPool.PointerReq(update.qpn, true)]);
        reg := reg.(update := update, state := Update0);
      } else if io.naks != [] {
        var retrans := io.naks[0];
        io := io.(naks := io.naks[1..]);
        ch := ch.(pointerReq := ch.pointerReq + [LinkedPool.PointerReq(retrans.qpn, false)]);
        reg := reg.(retrans := retrans, state := Retrans0);
      } else if io.timeouts != [] {
        var retrans := io.timeouts[0];
        io := io.(timeouts := io.timeouts[1..]);
        ch := ch.(pointerReq := ch.pointerReq + [LinkedPool.PointerReq(retrans.qpn, false)]);
        reg := reg.(retrans := retrans, state := TimerRetrans0);
      } else if io.inserts != [] && ch.freeList != [] {
        var insert := io.inserts[0];
        io := io.(inserts := io.inserts[1..]);
        reg := reg.(newMetaIdx := ch.freeList[0], insert := insert, state := Insert0);
        ch := ch.(freeList := ch.freeList[1..],
                  pointerReq := ch.pointerReq + [LinkedPool.PointerReq(insert.qpn, true)]);
      }
    }

    method ProcessInsert0()
      requires reg.state == Insert0
      modifies this`reg, this`ch
      ensures Contents() == Insert0Step(old(Contents()))
    {
      if ch.pointerRsp != [] {
        reg := reg.(ptrMeta := ch.pointerRsp[0]);
        ch := ch.(pointerRsp := ch.pointerRsp[1..]);
        if !reg.ptrMeta.valid {
          reg := reg.(ptrMeta := LinkedPool.Pointer(reg.newMetaIdx, reg.newMetaIdx, true), state := Main);
          WriteMeta(LinkedPool.Write(reg.newMetaIdx, LinkedPool.Node(reg.insert.entry, 0, true, true)));
          ch := ch.(pointerUpd := ch.pointerUpd + [LinkedPool.PointerUpd(reg.insert.qpn, reg.ptrMeta)]);
        } else {
          WriteMeta(LinkedPool.Append(reg.ptrMeta.tail, reg.newMetaIdx));
          reg := reg.(ptrMeta := reg.ptrMeta.(tail := reg.newMetaIdx), state := Insert1);
        }
      }
    }

    method ProcessInsert1()
      requires reg.state == Insert1
      modifies this`reg, this`ch
      ensures Contents() == Insert1Step(old(Contents()))
    {
      WriteMeta(LinkedPool.Write(reg.newMetaIdx, LinkedPool.Node(reg.insert.entry, 0, true, true)));
      ch := ch.(pointerUpd := ch.pointerUpd + [LinkedPool.PointerUpd(reg.insert.qpn, reg.ptrMeta)]);
      reg := reg.(state := Main);
    }

    method ProcessUpdate0()
      requires reg.state == Update0
      modifies this`reg, this`ch
      ensures Contents() == Update0Step(old(Contents()))
    {
      if ch.pointerRsp != [] {
        reg := reg.(ptrMeta := ch.pointerRsp[0]);
        ch := ch.(pointerRsp := ch.pointerRsp[1..]);
        if reg.ptrMeta.valid {
          WriteMeta(LinkedPool.Read(reg.ptrMeta.head));
          reg := reg.(curr := reg.ptrMeta.head, state := Update1);
        } else {
          ch := ch.(pointerUpd := ch.pointerUpd + [LinkedPool.PointerUpd(reg.update.qpn, reg.ptrMeta)]);
          reg := reg.(state := Main);
        }
      }
    }

    method ProcessUpdate1()
      requires reg.state == Update1
      modifies this`reg, this`ch, this`io
      ensures Contents() == Update1Step(old(Contents()))
    {
      if ch.metaRsp != [] {
        reg := reg.(meta := ch.metaRsp[0]);
        ch := ch.(metaRsp := ch.metaRsp[1..]);
        if reg.meta.valid {
          if ForwardsAddress(reg.update.opCode) {
            io := io.(inits := io.inits + [ReadInit(reg.meta.value.localAddr, reg.meta.value.lst)]);
          }
          if KeepsEntry(reg.update.opCode) {
            reg := reg.(meta := reg.meta.(value := Advance(reg.meta.value)));
            WriteMeta(LinkedPool.Write(reg.ptrMeta.head, reg.meta));
          } else {
            ch := ch.(release := ch.release + [reg.curr]);
            reg := reg.(ptrMeta := reg.ptrMeta.(head := reg.meta.next, valid := !reg.meta.isTail),
                        curr := reg.meta.next);
          }
          ch := ch.(pointerUpd := ch.pointerUpd + [LinkedPool.PointerUpd(reg.update.qpn, reg.ptrMeta)]);
          reg := reg.(state := Main);
        }
      }
    }

    method ProcessRetrans0()
      requires reg.state == Retrans0
      modifies this`reg, this`ch
      ensures Contents() == Retrans0Step(old(Contents()))
    {
      if ch.pointerRsp != [] {
        reg := reg.(ptrMeta := ch.pointerRsp[0], state := Main);
        ch := ch.(pointerRsp := ch.pointerRsp[1..]);
        if reg.ptrMeta.valid {
          WriteMeta(LinkedPool.Read(reg.ptrMeta.head));
          reg := reg.(curr := reg.ptrMeta.head, state := Retrans1);
        }
      }
    }

    method ProcessTimerRetrans0()
      requires reg.state == TimerRetrans0
      modifies this`reg, this`ch
      ensures Contents() == TimerRetrans0Step(old(Contents()))
    {
      if ch.pointerRsp != [] {
        reg := reg.(ptrMeta := ch.pointerRsp[0]);
        ch := ch.(pointerRsp := ch.pointerRsp[1..]);
        if reg.ptrMeta.valid {
          WriteMeta(LinkedPool.Read(reg.ptrMeta.head));
          reg := reg.(state := Retrans2);
        } else {
          reg := reg.(state := Main);
        }
      }
    }

    method ProcessRetrans1()
      requires reg.state == Retrans1
      modifies this`reg, this`ch, this`io
      ensures Contents() == Retrans1Step(old(Contents()))
    {
      if ch.metaRsp != [] {
        reg := reg.(meta := ch.metaRsp[0], state := Main);
        ch := ch.(metaRsp := ch.metaRsp[1..]);
        if reg.meta.valid {
          if reg.meta.isTail {
            reg := reg.(state := Main);
          } else {
            WriteMeta(LinkedPool.Read(reg.meta.next));
          }
          if reg.meta.value.psn == reg.retrans.psn {
            io := io.(events := io.events + [Event(reg.retrans.qpn, reg.meta.value)]);
            if !reg.meta.isTail {
              reg := reg.(state := Retrans2);
            }
          } else {
            reg := reg.(state := Retrans1);
          }
        }
      }
    }

    method ProcessRetrans2()
      requires reg.state == Retrans2
      modifies this`reg, this`ch, this`io
      ensures Contents() == Retrans2Step(old(Contents()))
    {
      if ch.metaRsp != [] {
        reg := reg.(meta := ch.metaRsp[0], state := Main);
        ch := ch.(metaRsp := ch.metaRsp[1..]);
        if reg.meta.valid {
          if !reg.meta.isTail {
            WriteMeta(LinkedPool.Read(reg.meta.next));
            reg := reg.(state := Retrans2);
          }
          io := io.(events := io.events + [Event(reg.retrans.qpn, reg.meta.value)]);
        }
      }
    }

    method Process()
      modifies this`reg, this`ch, this`io
      ensures Contents() == ProcessStep(old(Contents()))
    {
      match reg.state {
        case Main => ProcessMain();
        case Insert0 => ProcessInsert0();
        case Insert1 => ProcessInsert1();
        case Update0 => ProcessUpdate0();
        case Update1 => ProcessUpdate1();
        case Retrans0 => ProcessRetrans0();
        case TimerRetrans0 => ProcessTimerRetrans0();
        case Retrans1 => ProcessRetrans1();
        case Retrans2 => ProcessRetrans2();
      }
    }

    // The environment offers a request to an input FIFO.
    method Offer(a: Action)
      requires a.OfferUpdate? || a.OfferNak? || a.OfferTimeout? || a.OfferInsert?
      modifies this`io
      ensures Contents() == Next(old(Contents()), a)
    {
      match a {
        case OfferUpdate(u) => io := io.(updates := io.updates + [u]);
        case OfferNak(r) => io := io.(naks := io.naks + [r]);
        case OfferTimeout(t) => io := io.(timeouts := io.timeouts + [t]);
        case OfferInsert(i) => io := io.(inserts := io.inserts + [i]);
      }
    }

    method Act(a: Action)
      requires InBounds()
      modifies this, ptrTable, metaTable
      ensures Contents() == Next(old(Contents()), a)
    {
      match a {
        case FreeListHandler => FreelistHandler();
        case PointerTable => RetransPointerTable();
        case MetaTable => RetransMetaTable();
        case ProcessRetransmissions => Process();
        case _ => Offer(a);
      }
    }

    // Any schedule from power-up runs without an index leaving its table, and ends
    // where the theorems say.
    method Execute(schedule: seq<Action>)
      requires Initial(Contents()) && RetransmitterTheorems.AllAllowed(schedule, ptrTable.Length)
      modifies this, ptrTable, metaTable
      ensures Contents() == Run(old(Contents()), schedule)
      ensures PoolInv(Contents(), RetransmitterTheorems.TrackOf(old(Contents()), schedule))
    {
      ghost var start := Contents();
      for k := 0 to |schedule|
        invariant Contents() == Run(start, schedule[..k])
      {
        assert schedule[..k + 1][..k] == schedule[..k];
        RetransmitterTheorems.RunRefines(start, schedule[..k]);
        assert InBounds();
        Act(schedule[k]);
      }
      assert schedule[..|schedule|] == schedule;
      RetransmitterTheorems.RunRefines(start, schedule);
    }
  }
}
