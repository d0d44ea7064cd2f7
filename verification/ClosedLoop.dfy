// The sender with its loop closed: every update and every NAK its retransmitter takes was
// written by its own receive path. What makes partial updates timely is then a condition on
// the packets that arrive: responses fit the PSNs they carry, and each acknowledgement is
// for the oldest PSN not acknowledged yet.
module ClosedLoop {
  import opened InfiniBand
  import Retransmitter
  import opened RetransmitterProof
  import RT = RetransmitterTheorems
  import opened RequestPath
  import opened RequestPathProof
  import opened RequestPathTheorems
  import opened ReceivePathProof
  import opened ReceivePathTheorems
  import opened AcceptedPrefix
  import opened Resumption
  import opened TwoNodes
  import opened ReliableSender

  // Updates and NAKs reach the retransmitter by way of the hand-overs only.
  predicate Closed(acts: seq<Act>) {
    forall k :: 0 <= k < |acts| && acts[k].OnRetransmitter? ==> !acts[k].a.OfferUpdate? && !acts[k].a.OfferNak?
  }

  // ---------------------------------------------------------------- what the retransmitter takes

  const ANY_UPDATE := Update(Retransmitter.UpdateReq(0, 0, Ack))
  const ANY_NAK := Op.Nak(Retransmitter.RetransReq(0, 0))

  function UpdateOps(us: seq<Retransmitter.UpdateReq>): seq<Op> {
    seq(|us|, i requires 0 <= i < |us| => Update(us[i]))
  }

  function NakOps(rs: seq<Retransmitter.RetransReq>): seq<Op> {
    seq(|rs|, i requires 0 <= i < |rs| => Op.Nak(rs[i]))
  }

  ghost predicate Passed(sys: System, offered: seq<Op>) {
    var us, rs := sys.net.a.rx.out.updates, NaksIn(sys.net.a.rx.out.headers);
    && sys.updated <= |us| && RT.Select(offered, ANY_UPDATE) == UpdateOps(us[..sys.updated])
    && sys.refused <= |rs| && RT.Select(offered, ANY_NAK) == NakOps(rs[..sys.refused])
  }

  lemma FsmWritesMore(rx: RxPath)
    ensures rx.out.updates <= RxIbhFsm(rx).out.updates
    ensures NaksIn(rx.out.headers) <= NaksIn(RxIbhFsm(rx).out.headers)
  {
    if rx.busy && rx.rxRsp != [] {
      var hs, more := rx.out.headers, Emitted(rx.packet, rx.rxRsp[0]).headers;
      if more == [] {
        assert hs + more == hs;
      } else {
        assert more == [rx.packet] && (hs + more)[..|hs|] == hs;
      }
    }
  }

  lemma WritesMore(net: Net, m: Move)
    ensures net.a.rx.out.updates <= Step(net, m).a.rx.out.updates
    ensures NaksIn(net.a.rx.out.headers) <= NaksIn(Step(net, m).a.rx.out.headers)
  {
    hide NaksIn, RxIbhFsm, LocalReqHandler, MetaMerger, GenerateIbh, Transmit, ConnTable, MergeRetransRequest;
    FsmWritesMore(net.a.rx);
  }

  lemma PassedSnoc(sys: System, x: Act, offered: seq<Op>)
    requires Passed(sys, offered) && (x.OnRetransmitter? ==> !x.a.OfferUpdate? && !x.a.OfferNak?)
    ensures
      var actions := ActionBy(sys, x);
      Passed(Perform(sys, x), offered + if actions == [] then [] else RT.OfferedBy(actions[0]))
  {
    hide Step, Retransmitter.Next, NaksIn;
    var moves, actions := MoveBy(sys, x), ActionBy(sys, x);
    if moves != [] { WritesMore(sys.net, moves[0]); }
    if actions == [] || RT.OfferedBy(actions[0]) == [] {
      assert offered + [] == offered;
    } else {
      RT.SelectSnoc(offered, RT.OfferedBy(actions[0])[0], ANY_UPDATE);
      RT.SelectSnoc(offered, RT.OfferedBy(actions[0])[0], ANY_NAK);
    }
  }

  lemma {:induction false} HandedOver(sys: System, acts: seq<Act>, qa: nat, qb: nat)
    requires PowerUp(sys, qa, qb) && Closed(acts)
    ensures Passed(Operate(sys, acts), RT.Offered(Actions(sys, acts)))
    decreases |acts|
  {
    hide Perform, Connected, Retransmitter.Initial;
    if acts != [] {
      var before, x := acts[..|acts| - 1], acts[|acts| - 1];
      HandedOver(sys, before, qa, qb);
      PassedSnoc(Operate(sys, before), x, RT.Offered(Actions(sys, before)));
      hide Passed;
      OfferedBySnoc(sys, before, x);
    }
  }

  lemma OfferedBySnoc(sys: System, before: seq<Act>, x: Act)
    ensures
      var actions := ActionBy(Operate(sys, before), x);
      RT.Offered(Actions(sys, before) + actions)
      == RT.Offered(Actions(sys, before)) + if actions == [] then [] else RT.OfferedBy(actions[0])
  {
    var actions := ActionBy(Operate(sys, before), x);
    if actions == [] {
      assert Actions(sys, before) + actions == Actions(sys, before);
      assert RT.Offered(Actions(sys, before)) + [] == RT.Offered(Actions(sys, before));
    } else {
      OneActionBy(Operate(sys, before), x);
      OneAction(sys.rt, Actions(sys, before), actions[0]);
    }
  }

  // In every run with the loop closed, the updates and NAKs the retransmitter has taken are
  // the first of those the packets judged so far call for, in that order.
  lemma TakesWhatIsReceived(sys: System, acts: seq<Act>, qa: nat, qb: nat)
    requires PowerUp(sys, qa, qb) && ActsOk(sys, acts, qb) && Closed(acts)
    ensures
      var out, log := OutputsOf(Runs(sys.net, Moves(sys, acts)).a.rx.judged), LogOf(sys, acts);
      && RT.Select(log, ANY_UPDATE) <= UpdateOps(out.updates)
      && RT.Select(log, ANY_NAK) <= NakOps(NaksIn(out.headers))
  {
    hide Passed, UpdateOps, NakOps, NaksIn, RT.Select, RT.Offered, Actions, Moves, ActsOk, Closed, OutputsOf, Emitted,
      Retransmitter.Initial, RunOk, Operate;
    HandedOver(sys, acts, qa, qb);
    RulesKept(sys, acts, qa, qb);
    Parts(sys, acts);
    Projects(sys.net, Moves(sys, acts));
    RunWrites(sys.net.a, SenderActs(Moves(sys, acts)));
    TakesPassed(Operate(sys, acts), sys.rt, Actions(sys, acts));
  }

  lemma FirstOps(us: seq<Retransmitter.UpdateReq>, rs: seq<Retransmitter.RetransReq>, n: nat, m: nat)
    requires n <= |us| && m <= |rs|
    ensures UpdateOps(us[..n]) <= UpdateOps(us) && NakOps(rs[..m]) <= NakOps(rs)
  {
  }

  lemma FirstPart(a: seq<Op>, b: seq<Op>, c: seq<Op>)
    requires a + b <= c
    ensures a <= c
  {
  }

  lemma TakesPassed(e: System, rt: Retransmitter.State, actions: seq<Retransmitter.Action>)
    requires Retransmitter.Initial(rt) && RT.AllAllowed(actions, |rt.sv.ptrs|) && Passed(e, RT.Offered(actions))
    ensures RT.Select(RT.TrackOf(rt, actions).log, ANY_UPDATE) <= UpdateOps(e.net.a.rx.out.updates)
    ensures RT.Select(RT.TrackOf(rt, actions).log, ANY_NAK) <= NakOps(NaksIn(e.net.a.rx.out.headers))
  {
    var log, end := RT.TrackOf(rt, actions).log, Retransmitter.Run(rt, actions);
    RT.AcceptsInOrder(rt, actions, ANY_UPDATE);
    RT.AcceptsInOrder(rt, actions, ANY_NAK);
    hide RT.Select, RT.Pending, RT.Offered, Retransmitter.Run, RT.TrackOf, NaksIn, Retransmitter.Initial, RT.AllAllowed;
    FirstOps(e.net.a.rx.out.updates, NaksIn(e.net.a.rx.out.headers), e.updated, e.refused);
    hide UpdateOps, NakOps;
    FirstPart(RT.Select(log, ANY_UPDATE), RT.Pending(end, ANY_UPDATE), UpdateOps(e.net.a.rx.out.updates));
    FirstPart(RT.Select(log, ANY_NAK), RT.Pending(end, ANY_NAK), NakOps(NaksIn(e.net.a.rx.out.headers)));
  }
}
