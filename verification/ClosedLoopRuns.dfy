// Runs of the closed system built step by step: processes of either node, hand-overs, and
// the retransmitter taking one request from rest to rest.
module ClosedLoopRuns {
  import opened InfiniBand
  import Retransmitter
  import opened RetransmitterProof
  import RT = RetransmitterTheorems
  import RR = RetransmitterRuns
  import opened RequestPath
  import opened RequestPathProof
  import opened RequestPathTheorems
  import opened ReceivePathProof
  import opened RequestPathRuns
  import opened Resumption
  import opened TwoNodes
  import opened ReliableSender
  import opened ClosedLoop

  // Where a run has got to, the retransmitter aside.
  datatype Stage = Stage(net: Net, reqs: seq<LocalReq>, handed: nat, returned: nat, updated: nat)

  // The run so far; xs is what the retransmitter did in it.
  ghost predicate Reaches(sys: System, acts: seq<Act>, qa: nat, qb: nat, c: Stage, xs: seq<Retransmitter.Action>) {
    && PowerUp(sys, qa, qb) && ActsOk(sys, acts, qb) && Closed(acts)
    && Actions(sys, acts) == xs && Submitted(SenderActs(Moves(sys, acts))) == c.reqs
    && var e := Operate(sys, acts);
       e.net == c.net && e.handed == c.handed && e.returned == c.returned && e.updated == c.updated
  }

  ghost predicate Rests(rt: Retransmitter.State, xs: seq<Retransmitter.Action>, log: seq<Op>) {
    && RT.AllAllowed(xs, |rt.sv.ptrs|) && RR.AtRest(Retransmitter.Run(rt, xs)) && RT.TrackOf(rt, xs).log == log
  }

  lemma Starts(sys: System, qa: nat, qb: nat)
    requires PowerUp(sys, qa, qb)
    ensures Reaches(sys, [], qa, qb, Stage(sys.net, [], 0, 0, 0), []) && Rests(sys.rt, [], [])
  {
  }

  // ---------------------------------------------------------------- one act

  lemma OneAct(sys: System, acts: seq<Act>, x: Act)
    ensures Operate(sys, acts + [x]) == Perform(Operate(sys, acts), x)
    ensures Moves(sys, acts + [x]) == Moves(sys, acts) + MoveBy(Operate(sys, acts), x)
    ensures Actions(sys, acts + [x]) == Actions(sys, acts) + ActionBy(Operate(sys, acts), x)
    ensures forall qb :: ActsOk(sys, acts + [x], qb) <==> ActsOk(sys, acts, qb) && ActOk(Operate(sys, acts), x, qb)
  {
    assert (acts + [x])[..|acts|] == acts;
  }

  lemma SubmittedMore(moves: seq<Move>, more: seq<Move>)
    requires |more| <= 1
    ensures Submitted(SenderActs(moves + more))
            == Submitted(SenderActs(moves))
               + if more != [] && more[0].AtSender? then SubmittedBy(more[0].act) else []
  {
    if more == [] {
      assert moves + more == moves;
    } else {
      assert more == [more[0]] && (moves + more)[..|moves|] == moves;
      if more[0].AtSender? {
        ResentSnoc(SenderActs(moves), more[0].act);
      } else {
        assert SenderActs(moves) + [] == SenderActs(moves);
      }
    }
  }

  function Stepped(c: Stage, m: Move): Stage {
    c.(net := Step(c.net, m), reqs := c.reqs + if m.AtSender? then SubmittedBy(m.act) else [])
  }

  lemma OnNetStep(sys: System, acts: seq<Act>, qa: nat, qb: nat, c: Stage, xs: seq<Retransmitter.Action>, m: Move)
    requires Reaches(sys, acts, qa, qb, c, xs) && MoveOk(c.net, m, qb)
    requires m.AtSender? ==> !m.act.Resend? && RxAllowed(|c.net.a.table|, m.act)
    ensures Reaches(sys, acts + [OnNet(m)], qa, qb, Stepped(c, m), xs)
  {
    hide PowerUp, Operate, Moves, Actions, ActsOk, MoveOk, RxAllowed, Submitted, SenderActs, Step;
    OneAct(sys, acts, OnNet(m));
    SubmittedMore(Moves(sys, acts), [m]);
    assert xs + [] == xs;
  }

  lemma HandEventStep(sys: System, acts: seq<Act>, qa: nat, qb: nat, c: Stage, xs: seq<Retransmitter.Action>)
    requires Reaches(sys, acts, qa, qb, c, xs) && c.returned < |Retransmitter.Run(sys.rt, xs).events|
    ensures
      var ev := Retransmitter.Run(sys.rt, xs).events[c.returned];
      Reaches(sys, acts + [HandEvent], qa, qb,
              c.(net := Step(c.net, AtSender(Resend(ev))), returned := c.returned + 1), xs)
  {
    RetransmitterPart(sys, acts);
    hide PowerUp, Operate, Moves, Actions, ActsOk, Submitted, SenderActs, Step, Retransmitter.Run;
    OneAct(sys, acts, HandEvent);
    var ev := Retransmitter.Run(sys.rt, xs).events[c.returned];
    SubmittedMore(Moves(sys, acts), [AtSender(Resend(ev))]);
    assert xs + [] == xs && c.reqs + [] == c.reqs;
  }

  lemma OnRetransmitterStep(sys: System, acts: seq<Act>, qa: nat, qb: nat, c: Stage, xs: seq<Retransmitter.Action>,
                            a: Retransmitter.Action)
    requires Reaches(sys, acts, qa, qb, c, xs) && Retransmitter.Allowed(a, |sys.rt.sv.ptrs|)
    requires !a.OfferInsert? && !a.OfferUpdate? && !a.OfferNak?
    ensures Reaches(sys, acts + [OnRetransmitter(a)], qa, qb, c, xs + [a])
  {
    RetransmitterPart(sys, acts);
    hide PowerUp, Operate, Moves, Actions, ActsOk, Submitted, SenderActs, Retransmitter.Run, Retransmitter.Allowed,
      Retransmitter.Next;
    OneAct(sys, acts, OnRetransmitter(a));
    SubmittedMore(Moves(sys, acts), []);
    assert c.reqs + [] == c.reqs;
  }

  // What a hand-over offers the retransmitter, and the counter it moves.
  function OfferBy(c: Stage, x: Act): seq<Op> {
    match x
    case HandEntry => if c.handed < |c.net.a.tx.entries| then [Op.Insert(c.net.a.tx.entries[c.handed])] else []
    case HandUpdate =>
      if c.updated < |c.net.a.rx.out.updates| then [Update(c.net.a.rx.out.updates[c.updated])] else []
    case OnRetransmitter(a) => if a.OfferTimeout? then [Timeout(a.t)] else []
    case _ => []
  }

  function HandedOn(c: Stage, x: Act): Stage {
    c.(handed := if x.HandEntry? then c.handed + 1 else c.handed,
       updated := if x.HandUpdate? then c.updated + 1 else c.updated)
  }

  lemma OfferStep(sys: System, acts: seq<Act>, qa: nat, qb: nat, c: Stage, xs: seq<Retransmitter.Action>, x: Act, op: Op)
    requires Reaches(sys, acts, qa, qb, c, xs) && OfferBy(c, x) == [op] && RR.OpAllowed(op, |sys.rt.sv.ptrs|)
    ensures Reaches(sys, acts + [x], qa, qb, HandedOn(c, x), xs + [RR.OfferOf(op)])
  {
    if x.OnRetransmitter? {
      OnRetransmitterStep(sys, acts, qa, qb, c, xs, x.a);
    } else {
      hide Operate, Moves, Actions, ActsOk, Submitted, SenderActs, RR.OpAllowed, Closed, PowerUp, Perform, ActionBy,
        OfferBy;
      HandsOver(Operate(sys, acts), c, x, op, qb);
      OneAct(sys, acts, x);
      SubmittedMore(Moves(sys, acts), []);
      ClosedSnoc(acts, x);
      assert c.reqs + [] == c.reqs;
    }
  }

  lemma ClosedSnoc(acts: seq<Act>, x: Act)
    requires Closed(acts) && !x.OnRetransmitter?
    ensures Closed(acts + [x])
  {
  }

  lemma HandsOver(e: System, c: Stage, x: Act, op: Op, qb: nat)
    requires e.net == c.net && e.handed == c.handed && e.returned == c.returned && e.updated == c.updated
    requires OfferBy(c, x) == [op] && !x.OnRetransmitter?
    ensures ActOk(e, x, qb) && MoveBy(e, x) == [] && ActionBy(e, x) == [RR.OfferOf(op)]
    ensures
      var e', d := Perform(e, x), HandedOn(c, x);
      e'.net == d.net && e'.handed == d.handed && e'.returned == d.returned && e'.updated == d.updated && d.reqs == c.reqs
  {
    hide NaksIn, Retransmitter.Next;
  }

  // ---------------------------------------------------------------- the retransmitter takes one request

  function OnAll(xs: seq<Retransmitter.Action>): seq<Act> {
    seq(|xs|, i requires 0 <= i < |xs| => OnRetransmitter(xs[i]))
  }

  lemma {:induction false} InternalSteps(sys: System, acts: seq<Act>, qa: nat, qb: nat, c: Stage,
                                         xs: seq<Retransmitter.Action>, rest: seq<Retransmitter.Action>)
    requires Reaches(sys, acts, qa, qb, c, xs) && RR.Internal(rest) && RT.AllAllowed(rest, |sys.rt.sv.ptrs|)
    ensures Reaches(sys, acts + OnAll(rest), qa, qb, c, xs + rest)
    decreases |rest|
  {
    hide Reaches, Retransmitter.Allowed;
    if rest == [] {
      assert acts + OnAll(rest) == acts && xs + rest == xs;
    } else {
      var before, a := rest[..|rest| - 1], rest[|rest| - 1];
      InternalSteps(sys, acts, qa, qb, c, xs, before);
      assert RT.OfferedBy(a) == [];
      OnRetransmitterStep(sys, acts + OnAll(before), qa, qb, c, xs + before, a);
      assert acts + OnAll(rest) == acts + OnAll(before) + [OnRetransmitter(a)] && xs + rest == xs + before + [a];
    }
  }

  lemma TakesOp(sys: System, acts: seq<Act>, qa: nat, qb: nat, c: Stage, xs: seq<Retransmitter.Action>,
                log: seq<Op>, x: Act, op: Op)
    returns (acts': seq<Act>, xs': seq<Retransmitter.Action>)
    requires Reaches(sys, acts, qa, qb, c, xs) && Rests(sys.rt, xs, log) && OfferBy(c, x) == [op]
    requires RR.OpAllowed(op, |sys.rt.sv.ptrs|)
    requires RR.Harmless(Replay(EmptyModel(|sys.rt.sv.ptrs|), log), op)
    requires op.Insert? ==> |Inserts(log)| < |sys.rt.sv.nodes|
    ensures Reaches(sys, acts', qa, qb, HandedOn(c, x), xs') && Rests(sys.rt, xs', log + [op])
  {
    assert Retransmitter.Initial(sys.rt);
    var rest;
    hide Reaches, Rests, RR.OpAllowed, RR.Harmless, Replay, Inserts, RR.Internal, RT.AllAllowed, OfferBy, RR.AtRest,
      Retransmitter.Initial;
    xs', rest := Continues(sys.rt, xs, log, op);
    acts' := TakesActs(sys, acts, qa, qb, c, xs, x, op, rest);
  }

  lemma Continues(rt: Retransmitter.State, xs: seq<Retransmitter.Action>, log: seq<Op>, op: Op)
    returns (xs': seq<Retransmitter.Action>, rest: seq<Retransmitter.Action>)
    requires Retransmitter.Initial(rt) && Rests(rt, xs, log) && RR.OpAllowed(op, |rt.sv.ptrs|)
    requires RR.Harmless(Replay(EmptyModel(|rt.sv.ptrs|), log), op)
    requires op.Insert? ==> |Inserts(log)| < |rt.sv.nodes|
    ensures Rests(rt, xs', log + [op]) && xs' == xs + RR.Taking(op, rest)
    ensures RR.Internal(rest) && RT.AllAllowed(rest, |rt.sv.ptrs|)
  {
    hide RR.OpAllowed, RR.Harmless, Replay, Inserts, RT.TrackOf, Retransmitter.Run, Retransmitter.Initial, RR.AtRest,
      RR.Internal;
    rest := RR.PlayOne(rt, xs, op);
    xs' := xs + RR.Taking(op, rest);
    RestAllowed(xs, op, rest, |rt.sv.ptrs|);
  }

  lemma TakesActs(sys: System, acts: seq<Act>, qa: nat, qb: nat, c: Stage, xs: seq<Retransmitter.Action>, x: Act, op: Op,
                  rest: seq<Retransmitter.Action>)
    returns (acts': seq<Act>)
    requires Reaches(sys, acts, qa, qb, c, xs) && OfferBy(c, x) == [op] && RR.OpAllowed(op, |sys.rt.sv.ptrs|)
    requires RR.Internal(rest) && RT.AllAllowed(rest, |sys.rt.sv.ptrs|)
    ensures Reaches(sys, acts', qa, qb, HandedOn(c, x), xs + RR.Taking(op, rest))
  {
    hide Reaches, OfferBy, RR.OpAllowed, RR.Internal, RT.AllAllowed, RR.OfferOf, HandedOn;
    OnRetransmitterStep(sys, acts, qa, qb, c, xs, Retransmitter.FreeListHandler);
    var acts1 := acts + [OnRetransmitter(Retransmitter.FreeListHandler)];
    var xs1 := xs + [Retransmitter.FreeListHandler];
    OfferStep(sys, acts1, qa, qb, c, xs1, x, op);
    OnRetransmitterStep(sys, acts1 + [x], qa, qb, HandedOn(c, x), xs1 + [RR.OfferOf(op)],
                        Retransmitter.ProcessRetransmissions);
    var acts3 := acts1 + [x] + [OnRetransmitter(Retransmitter.ProcessRetransmissions)];
    var xs3 := xs1 + [RR.OfferOf(op)] + [Retransmitter.ProcessRetransmissions];
    InternalSteps(sys, acts3, qa, qb, HandedOn(c, x), xs3, rest);
    acts' := acts3 + OnAll(rest);
    assert xs + RR.Taking(op, rest) == xs3 + rest;
  }

  lemma RestAllowed(xs: seq<Retransmitter.Action>, op: Op, rest: seq<Retransmitter.Action>, queues: nat)
    requires RT.AllAllowed(xs + RR.Taking(op, rest), queues)
    ensures RT.AllAllowed(rest, queues)
  {
    hide Retransmitter.Allowed;
    forall k | 0 <= k < |rest| ensures Retransmitter.Allowed(rest[k], queues) {
      assert (xs + RR.Taking(op, rest))[|xs| + 3 + k] == rest[k];
    }
  }

  // ---------------------------------------------------------------- a round at either node

  predicate IsProcess(x: Action) {
    || x.RunLocalReqHandler? || x.RunMetaMerger? || x.RunConnTable? || x.RunGenerateIbh? || x.RunMergeRetrans?
    || x.RunTransmit? || x.RunRxIbhFsm? || x.RunStateTable?
  }

  // The sender's node, or the receiver's.
  function At(c: Stage, sender: bool): Node { if sender then c.net.a else c.net.b }

  function With(c: Stage, sender: bool, n: Node): Stage {
    if sender then c.(net := c.net.(a := n)) else c.(net := c.net.(b := n))
  }

  lemma OneProcess(sys: System, acts: seq<Act>, qa: nat, qb: nat, c: Stage, xs: seq<Retransmitter.Action>,
                   sender: bool, x: Action) returns (acts': seq<Act>)
    requires Reaches(sys, acts, qa, qb, c, xs) && IsProcess(x)
    ensures Reaches(sys, acts', qa, qb, With(c, sender, Next(At(c, sender), x)), xs)
  {
    hide Reaches, Next;
    var m := if sender then AtSender(x) else AtReceiver(x);
    OnNetStep(sys, acts, qa, qb, c, xs, m);
    assert c.reqs + [] == c.reqs;
    acts' := acts + [OnNet(m)];
  }

  lemma RoundOf(sys: System, acts: seq<Act>, qa: nat, qb: nat, c: Stage, xs: seq<Retransmitter.Action>, sender: bool)
    returns (acts': seq<Act>)
    requires Reaches(sys, acts, qa, qb, c, xs)
    ensures Reaches(sys, acts', qa, qb, With(c, sender, Round(At(c, sender))), xs)
  {
    hide Reaches, Next;
    acts' := Processes(sys, acts, qa, qb, c, xs, sender,
                       [] + [RunLocalReqHandler] + [RunMetaMerger] + [RunConnTable] + [RunGenerateIbh]);
    PrepareIs(At(c, sender));
    var n := Prepare(At(c, sender));
    acts' := Processes(sys, acts', qa, qb, With(c, sender, n), xs, sender,
                       [] + [RunRxIbhFsm] + [RunStateTable] + [RunGenerateIbh] + [RunRxIbhFsm] + [RunStateTable]);
    ConsultIs(n);
    acts' := Processes(sys, acts', qa, qb, With(c, sender, Consult(n)), xs, sender,
                       [] + [RunMergeRetrans] + [RunTransmit]);
    FinishIs(Consult(n));
  }

  lemma {:induction false} Processes(sys: System, acts: seq<Act>, qa: nat, qb: nat, c: Stage,
                                     xs: seq<Retransmitter.Action>, sender: bool, ps: seq<Action>)
    returns (acts': seq<Act>)
    requires Reaches(sys, acts, qa, qb, c, xs) && forall i :: 0 <= i < |ps| ==> IsProcess(ps[i])
    ensures Reaches(sys, acts', qa, qb, With(c, sender, Run(At(c, sender), ps)), xs)
    decreases |ps|
  {
    hide Reaches, Next;
    if ps == [] {
      acts' := acts;
    } else {
      var before := ps[..|ps| - 1];
      var acts1 := Processes(sys, acts, qa, qb, c, xs, sender, before);
      acts' := OneProcess(sys, acts1, qa, qb, With(c, sender, Run(At(c, sender), before)), xs, sender, ps[|ps| - 1]);
    }
  }

  // ---------------------------------------------------------------- requests, packets, retransmissions

  lemma SubmitOne(sys: System, acts: seq<Act>, qa: nat, qb: nat, c: Stage, xs: seq<Retransmitter.Action>, r: LocalReq)
    returns (acts': seq<Act>)
    requires Reaches(sys, acts, qa, qb, c, xs) && Idle(c.net.a) && Supported(r.op) && r.qpn < |c.net.a.table|
    requires TxAllowed(|c.net.a.table|, Submit(r))
    ensures Idle(Sent(c.net.a, r))
    ensures Reaches(sys, acts', qa, qb, With(c, true, Sent(c.net.a, r)).(reqs := c.reqs + [r]), xs)
  {
    SendsOne(c.net.a, r);
    OnNetStep(sys, acts, qa, qb, c, xs, AtSender(Submit(r)));
    hide Reaches, Next, Round;
    acts' := RoundOf(sys, acts + [OnNet(AtSender(Submit(r)))], qa, qb, Stepped(c, AtSender(Submit(r))), xs, true);
  }

  lemma AnswerOne(sys: System, acts: seq<Act>, qa: nat, qb: nat, c: Stage, xs: seq<Retransmitter.Action>, p: Arrival)
    returns (acts': seq<Act>)
    requires Reaches(sys, acts, qa, qb, c, xs) && Idle(c.net.a) && p.qpn < |c.net.a.table| && WellFormed(p)
    ensures Idle(Took(c.net.a, p)) && Reaches(sys, acts', qa, qb, With(c, true, Took(c.net.a, p)), xs)
  {
    hide Reaches, Next, Round, Took, Idle;
    TakesOne(c.net.a, p);
    OnNetStep(sys, acts, qa, qb, c, xs, AtSender(Arrive(p)));
    assert c.reqs + [] == c.reqs;
    acts' := RoundOf(sys, acts + [OnNet(AtSender(Arrive(p)))], qa, qb, Stepped(c, AtSender(Arrive(p))), xs, true);
  }

  lemma DeliverOne(sys: System, acts: seq<Act>, qa: nat, qb: nat, c: Stage, xs: seq<Retransmitter.Action>, i: nat)
    returns (acts': seq<Act>)
    requires Reaches(sys, acts, qa, qb, c, xs) && Idle(c.net.b) && i < |c.net.a.tx.wire|
    requires ArrivalOf(c.net.a.tx.wire[i]).qpn < |c.net.b.table|
    ensures
      var n := Took(c.net.b, ArrivalOf(c.net.a.tx.wire[i]));
      Idle(n) && Reaches(sys, acts', qa, qb, With(c, false, n), xs)
  {
    hide Reaches, Next, Round, Took, Idle;
    TakesOne(c.net.b, ArrivalOf(c.net.a.tx.wire[i]));
    OnNetStep(sys, acts, qa, qb, c, xs, Deliver(i));
    assert c.reqs + [] == c.reqs;
    acts' := RoundOf(sys, acts + [OnNet(Deliver(i))], qa, qb, Stepped(c, Deliver(i)), xs, false);
  }

  lemma ResendOne(sys: System, acts: seq<Act>, qa: nat, qb: nat, c: Stage, xs: seq<Retransmitter.Action>)
    returns (acts': seq<Act>)
    requires Reaches(sys, acts, qa, qb, c, xs) && Idle(c.net.a) && c.returned < |Retransmitter.Run(sys.rt, xs).events|
    ensures
      var n := SentAgain(c.net.a, Retransmitter.Run(sys.rt, xs).events[c.returned]);
      Idle(n) && Reaches(sys, acts', qa, qb, With(c, true, n).(returned := c.returned + 1), xs)
  {
    var ev := Retransmitter.Run(sys.rt, xs).events[c.returned];
    ResendsOne(c.net.a, ev);
    HandEventStep(sys, acts, qa, qb, c, xs);
    hide Reaches, Next, Round;
    acts' := RoundOf(sys, acts + [HandEvent], qa, qb,
                     c.(net := Step(c.net, AtSender(Resend(ev))), returned := c.returned + 1), xs, true);
  }
}
