// The sender's two paths wired to its retransmitter: the entries the transmit path makes
// are inserted, the events that come out are sent again, and the receive path's updates
// and NAKs go in. With that the assumption about retransmissions in the two-node theorems
// becomes one about the partial updates only.
module ReliableSender {
  import opened InfiniBand
  import Retransmitter
  import RetransmitterProof
  import RT = RetransmitterTheorems
  import ReadTransfer
  import opened RequestPath
  import opened RequestPathProof
  import opened RequestPathTheorems
  import opened ReceivePathProof
  import opened ReceivePathTheorems
  import opened AcceptedPrefix
  import opened Resumption
  import opened TwoNodes

  // handed, updated, refused: how many entries, updates and NAKs have been passed to the
  // retransmitter. returned: how many of its events have been passed back.
  datatype System = System(net: Net, rt: Retransmitter.State, handed: nat, returned: nat, updated: nat, refused: nat)

  datatype Act =
    | OnNet(m: Move) | OnRetransmitter(a: Retransmitter.Action) | HandEntry | HandEvent | HandUpdate | HandNak

  // rx_exh_fsm asks for a retransmission when a response it is passed is a NAK.
  function NaksIn(headers: seq<Arrival>): seq<Retransmitter.RetransReq>
    decreases |headers|
  {
    if headers == [] then []
    else
      var h := headers[|headers| - 1];
      NaksIn(headers[..|headers| - 1])
      + if h.isNak && HasAeth(h.op) then [Retransmitter.RetransReq(h.qpn, h.psn)] else []
  }

  function MoveBy(sys: System, x: Act): seq<Move> {
    match x
    case OnNet(m) => [m]
    case HandEvent =>
      if sys.returned < |sys.rt.events| then [AtSender(Resend(sys.rt.events[sys.returned]))] else []
    case _ => []
  }

  function ActionBy(sys: System, x: Act): seq<Retransmitter.Action> {
    match x
    case OnRetransmitter(a) => [a]
    case HandEntry =>
      if sys.handed < |sys.net.a.tx.entries| then [Retransmitter.OfferInsert(sys.net.a.tx.entries[sys.handed])] else []
    case HandUpdate =>
      var us := sys.net.a.rx.out.updates;
      if sys.updated < |us| then [Retransmitter.OfferUpdate(us[sys.updated])] else []
    case HandNak =>
      var rs := NaksIn(sys.net.a.rx.out.headers);
      if sys.refused < |rs| then [Retransmitter.OfferNak(rs[sys.refused])] else []
    case _ => []
  }

  function Perform(sys: System, x: Act): System {
    var moves, actions := MoveBy(sys, x), ActionBy(sys, x);
    System(if moves == [] then sys.net else Step(sys.net, moves[0]),
           if actions == [] then sys.rt else Retransmitter.Next(sys.rt, actions[0]),
           if x.HandEntry? && actions != [] then sys.handed + 1 else sys.handed,
           if x.HandEvent? && moves != [] then sys.returned + 1 else sys.returned,
           if x.HandUpdate? && actions != [] then sys.updated + 1 else sys.updated,
           if x.HandNak? && actions != [] then sys.refused + 1 else sys.refused)
  }

  function Operate(sys: System, acts: seq<Act>): System
    decreases |acts|
  {
    if acts == [] then sys else Perform(Operate(sys, acts[..|acts| - 1]), acts[|acts| - 1])
  }

  // What the two parts see.
  function Moves(sys: System, acts: seq<Act>): seq<Move>
    decreases |acts|
  {
    if acts == [] then []
    else
      var before := acts[..|acts| - 1];
      Moves(sys, before) + MoveBy(Operate(sys, before), acts[|acts| - 1])
  }

  function Actions(sys: System, acts: seq<Act>): seq<Retransmitter.Action>
    decreases |acts|
  {
    if acts == [] then []
    else
      var before := acts[..|acts| - 1];
      Actions(sys, before) + ActionBy(Operate(sys, before), acts[|acts| - 1])
  }

  // Inserts and retransmissions are handed over. Timeouts, and any updates and NAKs beside
  // those handed over, reach the retransmitter as they like.
  ghost predicate ActOk(sys: System, x: Act, qb: nat) {
    match x
    case OnNet(m) =>
      MoveOk(sys.net, m, qb) && (m.AtSender? ==> !m.act.Resend? && RxAllowed(|sys.net.a.table|, m.act))
    case OnRetransmitter(a) => Retransmitter.Allowed(a, |sys.rt.sv.ptrs|) && !a.OfferInsert?
    case _ => true
  }

  ghost predicate ActsOk(sys: System, acts: seq<Act>, qb: nat)
    decreases |acts|
  {
    if acts == [] then true
    else
      var before := acts[..|acts| - 1];
      ActsOk(sys, before, qb) && ActOk(Operate(sys, before), acts[|acts| - 1], qb)
  }

  ghost predicate PowerUp(sys: System, qa: nat, qb: nat) {
    && Connected(sys.net, qa, qb) && Retransmitter.Initial(sys.rt) && |sys.rt.sv.ptrs| == |sys.net.a.table|
    && sys.handed == 0 && sys.returned == 0 && sys.updated == 0 && sys.refused == 0
  }

  // ---------------------------------------------------------------- the parts run as before

  lemma OneMove(net: Net, moves: seq<Move>, m: Move)
    ensures Runs(net, moves + [m]) == Step(Runs(net, moves), m)
    ensures SenderActs(moves + [m]) == SenderActs(moves) + if m.AtSender? then [m.act] else []
    ensures forall qb :: RunOk(net, moves + [m], qb) <==> RunOk(net, moves, qb) && MoveOk(Runs(net, moves), m, qb)
  {
    assert (moves + [m])[..|moves|] == moves;
  }

  lemma OneAction(s: Retransmitter.State, actions: seq<Retransmitter.Action>, a: Retransmitter.Action)
    ensures Retransmitter.Run(s, actions + [a]) == Retransmitter.Next(Retransmitter.Run(s, actions), a)
    ensures RT.Offered(actions + [a]) == RT.Offered(actions) + RT.OfferedBy(a)
  {
    assert (actions + [a])[..|actions|] == actions;
  }

  lemma {:induction false} NetPart(sys: System, acts: seq<Act>)
    ensures Operate(sys, acts).net == Runs(sys.net, Moves(sys, acts))
    decreases |acts|
  {
    if acts != [] {
      hide Step, Retransmitter.Next, Runs, Actions;
      var before, x := acts[..|acts| - 1], acts[|acts| - 1];
      NetPart(sys, before);
      var moves := MoveBy(Operate(sys, before), x);
      hide MoveBy;
      if moves == [] {
        assert Moves(sys, before) + moves == Moves(sys, before);
      } else {
        OneMoveBy(Operate(sys, before), x);
        OneMove(sys.net, Moves(sys, before), moves[0]);
      }
    }
  }

  lemma OneMoveBy(sys: System, x: Act)
    ensures MoveBy(sys, x) == [] || MoveBy(sys, x) == [MoveBy(sys, x)[0]]
  {
  }

  lemma OneActionBy(sys: System, x: Act)
    ensures ActionBy(sys, x) == [] || ActionBy(sys, x) == [ActionBy(sys, x)[0]]
  {
  }

  lemma {:induction false} RetransmitterPart(sys: System, acts: seq<Act>)
    ensures Operate(sys, acts).rt == Retransmitter.Run(sys.rt, Actions(sys, acts))
    decreases |acts|
  {
    if acts != [] {
      hide Step, Retransmitter.Next, Retransmitter.Run, Moves;
      var before, x := acts[..|acts| - 1], acts[|acts| - 1];
      RetransmitterPart(sys, before);
      var actions := ActionBy(Operate(sys, before), x);
      hide ActionBy;
      if actions == [] {
        assert Actions(sys, before) + actions == Actions(sys, before);
      } else {
        OneActionBy(Operate(sys, before), x);
        OneAction(sys.rt, Actions(sys, before), actions[0]);
      }
    }
  }

  lemma Parts(sys: System, acts: seq<Act>)
    ensures Operate(sys, acts).net == Runs(sys.net, Moves(sys, acts))
    ensures Operate(sys, acts).rt == Retransmitter.Run(sys.rt, Actions(sys, acts))
  {
    NetPart(sys, acts);
    RetransmitterPart(sys, acts);
  }

  // ---------------------------------------------------------------- the hand-overs are FIFOs

  lemma EntriesGrow(net: Net, m: Move)
    ensures net.a.tx.entries <= Step(net, m).a.tx.entries
  {
    hide StateTable, GenerateIbh, LocalReqHandler, MetaMerger, Transmit, RxIbhFsm, ConnTable;
    if m.AtSender? { NodeEntriesGrow(net.a, m.act); }
  }

  lemma NodeEntriesGrow(n: Node, a: Action)
    ensures n.tx.entries <= Next(n, a).tx.entries
  {
  }

  lemma EmittedGrow(s: Retransmitter.State, a: Retransmitter.Action)
    ensures s.events <= Retransmitter.Next(s, a).events
  {
  }

  ghost predicate HandOvers(sys: System, ins: seq<InsertReq>, resent: seq<Retransmitter.Event>) {
    && sys.handed <= |sys.net.a.tx.entries| && sys.returned <= |sys.rt.events|
    && ins == sys.net.a.tx.entries[..sys.handed] && resent == sys.rt.events[..sys.returned]
  }

  lemma HandOverSnoc(sys: System, x: Act, ins: seq<InsertReq>, resent: seq<Retransmitter.Event>)
    requires HandOvers(sys, ins, resent)
    requires x.OnNet? ==> !(x.m.AtSender? && x.m.act.Resend?)
    requires x.OnRetransmitter? ==> !x.a.OfferInsert?
    ensures
      var moves, actions := MoveBy(sys, x), ActionBy(sys, x);
      HandOvers(Perform(sys, x),
                ins + (if x.HandEntry? && actions != [] then [actions[0].i] else []),
                resent + (if x.HandEvent? && moves != [] then [moves[0].act.ev] else []))
  {
    hide Step, Retransmitter.Next;
    var moves, actions := MoveBy(sys, x), ActionBy(sys, x);
    if moves != [] {
      EntriesGrow(sys.net, moves[0]);
      if x.HandEvent? { SameEvents(sys.rt, sys.returned); }
    }
    if actions != [] {
      EmittedGrow(sys.rt, actions[0]);
      if x.HandEntry? { SameEntries(sys.net.a.tx.entries, sys.handed); }
    }
  }

  lemma SameEvents(s: Retransmitter.State, n: nat)
    requires n < |s.events|
    ensures s.events[..n] + [s.events[n]] == s.events[..n + 1]
  {
  }

  lemma SameEntries(es: seq<InsertReq>, n: nat)
    requires n < |es|
    ensures es[..n] + [es[n]] == es[..n + 1]
  {
  }

  lemma OfferedSnoc(offered: seq<RetransmitterProof.Op>, a: Retransmitter.Action)
    ensures Inserts(offered + RT.OfferedBy(a)) == Inserts(offered) + if a.OfferInsert? then [a.i] else []
  {
    var added := RT.OfferedBy(a);
    if added != [] {
      assert (offered + added)[..|offered|] == offered && added == [added[0]];
    } else {
      assert offered + added == offered;
    }
  }

  lemma ResentSnoc(acts: seq<Action>, x: Action)
    ensures Resent(acts + [x]) == Resent(acts) + ResentBy(x)
    ensures Submitted(acts + [x]) == Submitted(acts) + SubmittedBy(x)
  {
    assert (acts + [x])[..|acts|] == acts;
  }

  // What the retransmitter was offered, and what the transmit path sent again, so far.
  function Given(sys: System, acts: seq<Act>): seq<InsertReq> { Inserts(RT.Offered(Actions(sys, acts))) }

  function Back(sys: System, acts: seq<Act>): seq<Retransmitter.Event> { Resent(SenderActs(Moves(sys, acts))) }

  lemma GivenSnoc(sys: System, acts: seq<Act>, x: Act)
    requires x.OnRetransmitter? ==> !x.a.OfferInsert?
    ensures
      var actions := ActionBy(Operate(sys, acts), x);
      Given(sys, acts + [x]) == Given(sys, acts) + if x.HandEntry? && actions != [] then [actions[0].i] else []
  {
    hide Operate, RT.Offered, Inserts, NaksIn;
    var actions := ActionBy(Operate(sys, acts), x);
    assert (acts + [x])[..|acts|] == acts;
    if actions != [] {
      OneActionBy(Operate(sys, acts), x);
      InsertIsEntry(Operate(sys, acts), x);
      hide ActionBy;
      OneAction(sys.rt, Actions(sys, acts), actions[0]);
      OfferedSnoc(RT.Offered(Actions(sys, acts)), actions[0]);
    } else {
      assert Actions(sys, acts) + actions == Actions(sys, acts);
    }
  }

  lemma InsertIsEntry(sys: System, x: Act)
    requires (x.OnRetransmitter? ==> !x.a.OfferInsert?) && ActionBy(sys, x) != []
    ensures ActionBy(sys, x)[0].OfferInsert? <==> x.HandEntry?
  {
  }

  lemma BackSnoc(sys: System, acts: seq<Act>, x: Act)
    requires x.OnNet? ==> !(x.m.AtSender? && x.m.act.Resend?)
    ensures
      var moves := MoveBy(Operate(sys, acts), x);
      Back(sys, acts + [x]) == Back(sys, acts) + if x.HandEvent? && moves != [] then [moves[0].act.ev] else []
  {
    var moves := MoveBy(Operate(sys, acts), x);
    assert (acts + [x])[..|acts|] == acts;
    if moves != [] {
      assert moves == [moves[0]];
      OneMove(sys.net, Moves(sys, acts), moves[0]);
      if moves[0].AtSender? {
        ResentSnoc(SenderActs(Moves(sys, acts)), moves[0].act);
      } else {
        assert SenderActs(Moves(sys, acts)) + [] == SenderActs(Moves(sys, acts));
      }
    } else {
      assert Moves(sys, acts) + moves == Moves(sys, acts);
    }
  }

  lemma {:induction false} HandOversHold(sys: System, acts: seq<Act>, qa: nat, qb: nat)
    requires PowerUp(sys, qa, qb) && ActsOk(sys, acts, qb)
    ensures HandOvers(Operate(sys, acts), Given(sys, acts), Back(sys, acts))
    decreases |acts|
  {
    hide Connected, Retransmitter.Initial, Given, Back, Perform, HandOvers, MoveOk;
    if acts == [] {
      HandOversStart(sys);
    } else {
      var before, x := acts[..|acts| - 1], acts[|acts| - 1];
      HandOversHold(sys, before, qa, qb);
      assert ActOk(Operate(sys, before), x, qb);
      HandOverSnoc(Operate(sys, before), x, Given(sys, before), Back(sys, before));
      GivenSnoc(sys, before, x);
      BackSnoc(sys, before, x);
      assert before + [x] == acts;
    }
  }

  lemma HandOversStart(sys: System)
    requires sys.handed == 0 && sys.returned == 0
    ensures HandOvers(Operate(sys, []), Given(sys, []), Back(sys, []))
  {
  }

  // ---------------------------------------------------------------- the parts' own rules are kept

  lemma {:induction false} OfferedAllowed(actions: seq<Retransmitter.Action>, queues: nat)
    requires RT.AllAllowed(actions, queues)
    ensures forall k :: 0 <= k < |Inserts(RT.Offered(actions))| ==> Inserts(RT.Offered(actions))[k].qpn < queues
    decreases |actions|
  {
    if actions != [] {
      var before, a := actions[..|actions| - 1], actions[|actions| - 1];
      OfferedAllowed(before, queues);
      OfferedSnoc(RT.Offered(before), a);
      assert Retransmitter.Allowed(a, queues);
    }
  }

  lemma EventInRange(s: Retransmitter.State, actions: seq<Retransmitter.Action>, i: nat)
    requires Retransmitter.Initial(s) && RT.AllAllowed(actions, |s.sv.ptrs|) && i < |Retransmitter.Run(s, actions).events|
    ensures Retransmitter.Run(s, actions).events[i].qpn < |s.sv.ptrs|
  {
    EmittedWereListed(s, actions);
    InsertsInOrder(s, actions);
    OfferedAllowed(actions, |s.sv.ptrs|);
    var log, ev := RT.TrackOf(s, actions).log, Retransmitter.Run(s, actions).events[i];
    var n: nat, m: nat :| ListedAt(log, ev, n, m);
    var k := Origins(log[..n], ev.qpn)[m].k;
    assert Inserts(log)[k] == Inserts(RT.Offered(actions))[k];
  }

  lemma EntryInRange(net: Net, moves: seq<Move>, qb: nat, i: nat)
    requires Initial(net.a) && RunOk(net, moves, qb) && i < |Runs(net, moves).a.tx.entries|
    ensures Runs(net, moves).a.tx.entries[i].qpn < |net.a.table|
  {
    Projects(net, moves);
    SenderAllowed(net, moves, qb);
    EntriesInRun(net.a, SenderActs(moves));
  }

  // What the receive path has written names queue pairs there are.
  ghost predicate OutInRange(out: RxOut, queues: nat) {
    && (forall i :: 0 <= i < |out.updates| ==> out.updates[i].qpn < queues)
    && (forall i :: 0 <= i < |NaksIn(out.headers)| ==> NaksIn(out.headers)[i].qpn < queues)
  }

  lemma {:induction false} OutputsInRange(judged: seq<Judged>, queues: nat)
    requires forall i :: 0 <= i < |judged| ==> judged[i].packet.qpn < queues
    ensures OutInRange(OutputsOf(judged), queues)
    decreases |judged|
  {
    if judged != [] {
      var before, j := OutputsOf(judged[..|judged| - 1]), judged[|judged| - 1];
      OutputsInRange(judged[..|judged| - 1], queues);
      var headers := Emitted(j.packet, j.seen).headers;
      if headers == [] {
        assert before.headers + headers == before.headers;
      } else {
        assert headers == [j.packet] && (before.headers + headers)[..|before.headers|] == before.headers;
      }
    }
  }

  lemma OutputInRange(net: Net, moves: seq<Move>)
    requires Initial(net.a) && AllRxAllowed(SenderActs(moves), |net.a.table|)
    ensures OutInRange(Runs(net, moves).a.rx.out, |net.a.table|)
  {
    Projects(net, moves);
    RunWrites(net.a, SenderActs(moves));
    JudgedSequentially(net.a, SenderActs(moves));
    var judged := Runs(net, moves).a.rx.judged;
    forall i | 0 <= i < |judged| ensures judged[i].packet.qpn < |net.a.table| {
      assert CurrentAt(net.a.table, judged, i);
    }
    hide OutInRange, Emitted, OutputsOf;
    OutputsInRange(judged, |net.a.table|);
  }

  lemma {:induction false} RulesKept(sys: System, acts: seq<Act>, qa: nat, qb: nat)
    requires PowerUp(sys, qa, qb) && ActsOk(sys, acts, qb)
    ensures RunOk(sys.net, Moves(sys, acts), qb) && RT.AllAllowed(Actions(sys, acts), |sys.rt.sv.ptrs|)
    ensures AllRxAllowed(SenderActs(Moves(sys, acts)), |sys.net.a.table|)
    decreases |acts|
  {
    hide MoveOk, Retransmitter.Initial, RunOk, Step, Retransmitter.Next;
    if acts == [] {
      assert RunOk(sys.net, [], qb) by { NoMoves(sys.net, qb); }
    } else {
      var before, x := acts[..|acts| - 1], acts[|acts| - 1];
      RulesKept(sys, before, qa, qb);
      Parts(sys, before);
      MovesKept(sys, before, x, qa, qb);
      ActionsKept(sys, before, x, qa, qb);
    }
  }

  lemma NoMoves(net: Net, qb: nat)
    ensures RunOk(net, [], qb)
  {
  }

  lemma SizesKept(net: Net, moves: seq<Move>)
    ensures |Runs(net, moves).a.table| == |net.a.table|
  {
    Projects(net, moves);
    ConnKept(net.a, SenderActs(moves));
  }

  lemma MovesKept(sys: System, before: seq<Act>, x: Act, qa: nat, qb: nat)
    requires PowerUp(sys, qa, qb) && ActOk(Operate(sys, before), x, qb)
    requires RunOk(sys.net, Moves(sys, before), qb) && RT.AllAllowed(Actions(sys, before), |sys.rt.sv.ptrs|)
    requires AllRxAllowed(SenderActs(Moves(sys, before)), |sys.net.a.table|)
    ensures
      var moves := Moves(sys, before) + MoveBy(Operate(sys, before), x);
      RunOk(sys.net, moves, qb) && AllRxAllowed(SenderActs(moves), |sys.net.a.table|)
  {
    hide Retransmitter.Initial, Connected, Step, Retransmitter.Next, Runs, RunOk, AllRxAllowed;
    Parts(sys, before);
    var e := Operate(sys, before);
    var moves := MoveBy(e, x);
    if moves == [] {
      assert Moves(sys, before) + moves == Moves(sys, before);
    } else {
      assert moves == [moves[0]];
      SizesKept(sys.net, Moves(sys, before));
      if x.HandEvent? { EventInRange(sys.rt, Actions(sys, before), e.returned); }
      MoveKept(sys.net, Moves(sys, before), moves[0], qb);
    }
  }

  lemma MoveKept(net: Net, moves: seq<Move>, m: Move, qb: nat)
    requires RunOk(net, moves, qb) && AllRxAllowed(SenderActs(moves), |net.a.table|)
    requires MoveOk(Runs(net, moves), m, qb) && (m.AtSender? ==> RxAllowed(|net.a.table|, m.act))
    ensures RunOk(net, moves + [m], qb) && AllRxAllowed(SenderActs(moves + [m]), |net.a.table|)
  {
    hide MoveOk, RxAllowed, Runs;
    OneMove(net, moves, m);
  }

  lemma AllowedSnoc(actions: seq<Retransmitter.Action>, a: Retransmitter.Action, queues: nat)
    requires RT.AllAllowed(actions, queues) && Retransmitter.Allowed(a, queues)
    ensures RT.AllAllowed(actions + [a], queues)
  {
  }

  lemma ActionsKept(sys: System, before: seq<Act>, x: Act, qa: nat, qb: nat)
    requires PowerUp(sys, qa, qb) && ActOk(Operate(sys, before), x, qb)
    requires RunOk(sys.net, Moves(sys, before), qb) && RT.AllAllowed(Actions(sys, before), |sys.rt.sv.ptrs|)
    requires AllRxAllowed(SenderActs(Moves(sys, before)), |sys.net.a.table|)
    ensures RT.AllAllowed(Actions(sys, before) + ActionBy(Operate(sys, before), x), |sys.rt.sv.ptrs|)
  {
    hide MoveOk, Step, Retransmitter.Next, Retransmitter.Initial, RT.AllAllowed, Retransmitter.Run, Runs, RunOk, Operate;
    Parts(sys, before);
    var e := Operate(sys, before);
    var actions, given := ActionBy(e, x), Actions(sys, before);
    hide Actions;
    if actions == [] {
      assert given + actions == given;
    } else {
      if x.HandEntry? { EntryInRange(sys.net, Moves(sys, before), qb, e.handed); }
      if x.HandUpdate? || x.HandNak? { OutputInRange(sys.net, Moves(sys, before)); }
      AllowedSnoc(given, actions[0], |sys.rt.sv.ptrs|);
      assert actions == [actions[0]];
    }
  }

  // ---------------------------------------------------------------- retransmissions resume

  // Lengths and addresses fit their fields.
  predicate Ranges(reqs: seq<LocalReq>, q: nat) {
    forall k :: 0 <= k < |reqs| && reqs[k].qpn == q ==> reqs[k].length < LEN_MOD && reqs[k].raddr < ADDR_MOD
  }

  predicate AllSupported(reqs: seq<LocalReq>) { forall i :: 0 <= i < |reqs| ==> Supported(reqs[i].op) }

  ghost function LogOf(sys: System, acts: seq<Act>): seq<RetransmitterProof.Op> {
    RT.TrackOf(sys.rt, Actions(sys, acts)).log
  }

  // Every entry given to the retransmitter is its own request's.
  lemma GivenAreOwn(sys: System, acts: seq<Act>, qa: nat, qb: nat)
    requires PowerUp(sys, qa, qb) && ActsOk(sys, acts, qb)
    requires AllSupported(Submitted(SenderActs(Moves(sys, acts))))
    ensures
      var reqs, base := Requests(Moves(sys, acts)), BaseOf(sys.net.a.table);
      && |Given(sys, acts)| <= |reqs|
      && forall k :: 0 <= k < |Given(sys, acts)| ==>
           reqs[k].qpn < |base| && Given(sys, acts)[k] == OwnEntry(base, reqs, k)
  {
    var moves := Moves(sys, acts);
    RulesKept(sys, acts, qa, qb);
    HandOversHold(sys, acts, qa, qb);
    NetPart(sys, acts);
    AllKept(Submitted(SenderActs(moves)));
    hide RunOk, Moves, Operate, Given, ActsOk, Retransmitter.Initial, RT.AllAllowed, NumberOf, KeepSupported, Actions, Back;
    EntriesAreOwn(sys.net, moves, qb);
  }

  lemma EntriesAreOwn(net: Net, moves: seq<Move>, qb: nat)
    requires Initial(net.a) && RunOk(net, moves, qb) && AllSupported(Submitted(SenderActs(moves)))
    ensures
      var entries, reqs := Runs(net, moves).a.tx.entries, Submitted(SenderActs(moves));
      && |entries| <= |reqs|
      && forall k :: 0 <= k < |entries| ==>
           reqs[k].qpn < |net.a.table| && entries[k] == OwnEntry(BaseOf(net.a.table), reqs, k)
  {
    Projects(net, moves);
    SenderAllowed(net, moves, qb);
    EntriesPair(net.a, SenderActs(moves));
  }

  lemma OwnContinues(base: seq<nat>, reqs: seq<LocalReq>, ev: Retransmitter.Event, ins: seq<InsertReq>, k: nat, j: nat)
    requires Continues(ins, ev, k, j) && k < |reqs| && reqs[k].qpn < |base| && ins[k] == OwnEntry(base, reqs, k)
    requires Ranges(reqs, ev.qpn)
    ensures Resumes(base, reqs, ev, k, j)
  {
    hide NumberOf, ReadTransfer.AdvanceBy, RequestPath.NumPkg;
    AdvancedModulo(ins[k].entry, j);
    AddMod(NumberOf(base, reqs, k), j);
  }

  // If every partial update on the queue met a read that expected more than one more
  // page, everything sent again on it resumes a request.
  lemma SenderResumes(sys: System, acts: seq<Act>, qa: nat, qb: nat)
    requires PowerUp(sys, qa, qb) && ActsOk(sys, acts, qb)
    requires AllSupported(Submitted(SenderActs(Moves(sys, acts)))) && Ranges(Requests(Moves(sys, acts)), qa)
    requires TimelyOn(|sys.rt.sv.ptrs|, LogOf(sys, acts), qa)
    ensures RunOk(sys.net, Moves(sys, acts), qb) && Resuming(sys.net, Moves(sys, acts), qa)
  {
    var reqs, base := Requests(Moves(sys, acts)), BaseOf(sys.net.a.table);
    var actions, e := Actions(sys, acts), Operate(sys, acts);
    RulesKept(sys, acts, qa, qb);
    HandOversHold(sys, acts, qa, qb);
    GivenAreOwn(sys, acts, qa, qb);
    Parts(sys, acts);
    InsertsInOrder(sys.rt, actions);
    forall i | 0 <= i < |Back(sys, acts)| && Back(sys, acts)[i].qpn == qa ensures Resumed(base, reqs, Back(sys, acts)[i]) {
      var ev := e.rt.events[i];
      var k, j := EmittedContinue(sys.rt, actions, i);
      OwnContinues(base, reqs, ev, Given(sys, acts), k, j);
      assert Resumes(base, reqs, ev, k, j);
    }
  }

  // Two-node safety with the sender's own retransmitter: under any schedule, any mix of
  // acknowledgements, NAKs and timeouts and whatever the channel drops, duplicates or
  // reorders, the requests accepted as new are a prefix of those submitted, while partial
  // updates are timely and fewer than 2^24 PSNs have been submitted.
  lemma DeliversInOrder(sys: System, acts: seq<Act>, qa: nat, qb: nat)
    requires PowerUp(sys, qa, qb) && ActsOk(sys, acts, qb)
    requires AllSupported(Submitted(SenderActs(Moves(sys, acts)))) && Ranges(Requests(Moves(sys, acts)), qa)
    requires Sized(Requests(Moves(sys, acts)), qa)
    requires PagesBefore(Requests(Moves(sys, acts)), |Requests(Moves(sys, acts))|, qa) < PSN_MOD
    requires TimelyOn(|sys.rt.sv.ptrs|, LogOf(sys, acts), qa)
    ensures Operate(sys, acts).net == Runs(sys.net, Moves(sys, acts))
    ensures Accepted(Runs(sys.net, Moves(sys, acts)).b.rx.judged, PartsOf(sys.net, Moves(sys, acts)), qb)
            <= IndexesOn(Requests(Moves(sys, acts)), |Requests(Moves(sys, acts))|, qa)
  {
    Parts(sys, acts);
    SenderResumes(sys, acts, qa, qb);
    FewAreAcceptedInOrder(sys.net, Moves(sys, acts), qa, qb);
  }
}
