// The multi queue's processes as they run: static tables and registers updated in place,
// FIFOs between them. Each method is one call of a process.
module MultiQueueProcess {
  import opened Wrappers
  import LinkedPool
  import opened MultiQueue
  import opened MultiQueueProof

  type Pointer = LinkedPool.Pointer

  datatype Channels<V> = Channels(
    pointerReq: seq<LinkedPool.PointerReq>, pointerUpd: seq<LinkedPool.PointerUpd>, pointerRsp: seq<Pointer>,
    metaReq: seq<LinkedPool.NodeReq<V>>, metaRsp: seq<LinkedPool.Node<V>>, freeList: seq<nat>, release: seq<nat>)

  datatype Ports<V> = Ports(pushes: seq<PushReq<V>>, pops: seq<PopReq>, answers: seq<V>)

  datatype Registers<V> = Registers(
    state: Control, newMetaIdx: nat, insert: PushReq<V>, popRequest: PopReq, meta: LinkedPool.Node<V>, ptrMeta: Pointer)

  class Processes<V> {
    // mq_pointer_table
    const ptrTable: array<Pointer>
    var lockedKey: nat
    var isLocked: bool
    var waiting: bool
    var request: LinkedPool.PointerReq
    // mq_meta_table
    const metaTable: array<LinkedPool.Node<V>>
    // mq_freelist_handler
    var freeListCounter: nat
    // mq_process_requests
    var reg: Registers<V>
    var ch: Channels<V>
    var io: Ports<V>

    ghost function Contents(): State<V>
      reads this, ptrTable, metaTable
    {
      State(LinkedPool.Servers(ptrTable[..], lockedKey, isLocked, waiting, request, metaTable[..], freeListCounter,
                               ch.pointerReq, ch.pointerUpd, ch.pointerRsp, ch.metaReq, ch.metaRsp,
                               ch.freeList, ch.release),
            reg.state, reg.newMetaIdx, reg.insert, reg.popRequest, reg.meta, reg.ptrMeta,
            io.pushes, io.pops, io.answers)
    }

    // Every queued request names a table entry.
    predicate InBounds()
      reads this
    {
      && (forall i :: 0 <= i < |ch.metaReq| ==> ch.metaReq[i].idx < metaTable.Length)
      && (forall i :: 0 <= i < |ch.pointerUpd| ==> ch.pointerUpd[i].queue < ptrTable.Length)
      && (forall i :: 0 <= i < |ch.pointerReq| ==> ch.pointerReq[i].queue < ptrTable.Length)
      && (waiting ==> request.queue < ptrTable.Length)
    }

    constructor (queues: nat, size: nat, blank: V)
      ensures Initial(Contents()) && ptrTable.Length == queues && metaTable.Length == size
      ensures fresh(ptrTable) && fresh(metaTable)
    {
      var noPointer, noNode := LinkedPool.Pointer(0, 0, false), LinkedPool.Node(blank, 0, false, false);
      ptrTable := new Pointer[queues](_ => noPointer);
      metaTable := new LinkedPool.Node<V>[size](_ => noNode);
      lockedKey, isLocked, waiting, request, freeListCounter := 0, false, false, LinkedPool.PointerReq(0, false), 0;
      reg := Registers(Main, 0, PushReq(0, blank), PopReq(Front, 0), noNode, noPointer);
      ch := Channels([], [], [], [], [], [], []);
      io := Ports([], [], []);
    }

    method FreelistHandler()
      modifies this
      ensures Contents() == Next(old(Contents()), FreeListHandler)
    {
      if ch.release != [] {
        ch := ch.(release := ch.release[1..], freeList := ch.freeList + [ch.release[0]]);
      } else if freeListCounter < metaTable.Length && |ch.freeList| < metaTable.Length {
        ch := ch.(freeList := ch.freeList + [freeListCounter]);
        freeListCounter := freeListCounter + 1;
      }
    }

    method ServePointerTable()
      requires InBounds()
      modifies this, ptrTable
      ensures Contents() == Next(old(Contents()), PointerTable)
    {
      if ch.pointerUpd != [] {
        var update := ch.pointerUpd[0];
        ch := ch.(pointerUpd := ch.pointerUpd[1..]);
        ptrTable[update.queue] := update.entry;
        if lockedKey == update.queue {
          isLocked := false;
        }
      } else if ch.pointerReq != [] && !waiting {
        request := ch.pointerReq[0];
        ch := ch.(pointerReq := ch.pointerReq[1..]);
        if request.lock && isLocked {
          waiting := true;
        } else {
          ch := ch.(pointerRsp := ch.pointerRsp + [ptrTable[request.queue]]);
          if request.lock {
            isLocked, lockedKey := true, request.queue;
          }
        }
      } else if waiting && !isLocked {
        ch := ch.(pointerRsp := ch.pointerRsp + [ptrTable[request.queue]]);
        isLocked, lockedKey, waiting := true, request.queue, false;
      }
    }

    method ServeMetaTable()
      requires InBounds()
      modifies this, metaTable
      ensures Contents() == Next(old(Contents()), MetaTable)
    {
      if ch.metaReq != [] {
        var req := ch.metaReq[0];
        ch := ch.(metaReq := ch.metaReq[1..]);
        match req {
          case Write(idx, node) => metaTable[idx] := node;
          case Append(idx, next) => metaTable[idx] := metaTable[idx].(next := next, isTail := false);
          case Read(idx) => ch := ch.(metaRsp := ch.metaRsp + [metaTable[idx]]);
        }
      }
    }

    method WriteMeta(req: LinkedPool.NodeReq<V>)
      modifies this`ch
      ensures ch == old(ch).(metaReq := old(ch.metaReq) + [req])
    {
      ch := ch.(metaReq := ch.metaReq + [req]);
    }

    method UpdatePointer()
      modifies this`ch
      ensures
        var key := if reg.state == Push || reg.state == Push2 then reg.insert.key else reg.popRequest.key;
        ch == old(ch).(pointerUpd := old(ch.pointerUpd) + [LinkedPool.PointerUpd(key, reg.ptrMeta)])
    {
      var key := if reg.state == Push || reg.state == Push2 then reg.insert.key else reg.popRequest.key;
      ch := ch.(pointerUpd := ch.pointerUpd + [LinkedPool.PointerUpd(key, reg.ptrMeta)]);
    }

    method ProcessMain()
      requires reg.state == Main
      modifies this`reg, this`ch, this`io
      ensures Contents() == MainStep(old(Contents()))
    {
      if io.pushes != [] && ch.freeList != [] {
        var insert := io.pushes[0];
        io := io.(pushes := io.pushes[1..]);
        reg := reg.(newMetaIdx := ch.freeList[0], insert := insert, state := Push);
        ch := ch.(freeList := ch.freeList[1..],
                  pointerReq := ch.pointerReq + [LinkedPool.PointerReq(insert.key, true)]);
      } else if io.pops != [] {
        var popRequest := io.pops[0];
        io := io.(pops := io.pops[1..]);
        ch := ch.(pointerReq := ch.pointerReq + [LinkedPool.PointerReq(popRequest.key, false)]);
        reg := reg.(popRequest := popRequest, state := Pop);
      }
    }

    method ProcessPush()
      requires reg.state == Push
      modifies this`reg, this`ch
      ensures Contents() == PushStep(old(Contents()))
    {
      if ch.pointerRsp != [] {
        reg := reg.(ptrMeta := ch.pointerRsp[0]);
        ch := ch.(pointerRsp := ch.pointerRsp[1..]);
        if !reg.ptrMeta.valid {
          reg := reg.(ptrMeta := LinkedPool.Pointer(reg.newMetaIdx, reg.newMetaIdx, true));
          WriteMeta(LinkedPool.Write(reg.newMetaIdx, LinkedPool.Node(reg.insert.value, 0, true, true)));
          UpdatePointer();
          reg := reg.(state := Main);
        } else {
          WriteMeta(LinkedPool.Append(reg.ptrMeta.tail, reg.newMetaIdx));
          reg := reg.(ptrMeta := reg.ptrMeta.(tail := reg.newMetaIdx), state := Push2);
        }
      }
    }

    method ProcessPush2()
      requires reg.state == Push2
      modifies this`reg, this`ch
      ensures Contents() == Push2Step(old(Contents()))
    {
      WriteMeta(LinkedPool.Write(reg.newMetaIdx, LinkedPool.Node(reg.insert.value, 0, true, true)));
      UpdatePointer();
      reg := reg.(state := Main);
    }

    method ProcessPop()
      requires reg.state == Pop
      modifies this`reg, this`ch
      ensures Contents() == PopStep(old(Contents()))
    {
      if ch.pointerRsp != [] {
        reg := reg.(ptrMeta := ch.pointerRsp[0]);
        ch := ch.(pointerRsp := ch.pointerRsp[1..]);
        if reg.ptrMeta.valid {
          WriteMeta(LinkedPool.Read(reg.ptrMeta.head));
          reg := reg.(state := Pop2);
        } else {
          reg := reg.(state := Main);
        }
      }
    }

    method ProcessPop2()
      requires reg.state == Pop2
      modifies this`reg, this`ch, this`io
      ensures Contents() == Pop2Step(old(Contents()))
    {
      if ch.metaRsp != [] {
        reg := reg.(meta := ch.metaRsp[0]);
        ch := ch.(metaRsp := ch.metaRsp[1..]);
        if reg.meta.valid {
          io := io.(answers := io.answers + [reg.meta.value]);
          if reg.popRequest.op.PopHead? {
            ch := ch.(release := ch.release + [reg.ptrMeta.head]);
            reg := reg.(ptrMeta := reg.ptrMeta.(head := reg.meta.next, valid := !reg.meta.isTail));
            UpdatePointer();
          }
        }
        reg := reg.(state := Main);
      }
    }

    method Act(a: Action<V>)
      requires InBounds()
      modifies this, ptrTable, metaTable
      ensures Contents() == Next(old(Contents()), a)
    {
      match a {
        case FreeListHandler => FreelistHandler();
        case PointerTable => ServePointerTable();
        case MetaTable => ServeMetaTable();
        case OfferPush(i) => io := io.(pushes := io.pushes + [i]);
        case OfferPop(r) => io := io.(pops := io.pops + [r]);
        case ProcessRequests =>
          match reg.state {
            case Main => ProcessMain();
            case Push => ProcessPush();
            case Push2 => ProcessPush2();
            case Pop => ProcessPop();
            case Pop2 => ProcessPop2();
          }
      }
    }

    // Any schedule from power-up runs without an index leaving its table, and ends
    // where the theorems say.
    method Execute(schedule: seq<Action<V>>)
      requires Initial(Contents()) && AllAllowed(schedule, ptrTable.Length)
      modifies this, ptrTable, metaTable
      ensures Contents() == Run(old(Contents()), schedule)
      ensures Refines(Contents(), TrackOf(old(Contents()), schedule))
    {
      hide Refines;
      ghost var start := Contents();
      for k := 0 to |schedule|
        invariant Contents() == Run(start, schedule[..k])
      {
        assert schedule[..k + 1][..k] == schedule[..k];
        RunRefines(start, schedule[..k]);
        TablesCover(Contents(), TrackOf(start, schedule[..k]));
        assert InBounds();
        Act(schedule[k]);
      }
      assert schedule[..|schedule|] == schedule;
      RunRefines(start, schedule);
    }
  }

  lemma TablesCover<V>(s: State<V>, t: Track<V>)
    requires Refines(s, t)
    ensures LinkedPool.InBounds(s.sv) && !s.sv.waiting
  {
  }
}
