// The flags that tell drop_ooo_ibh which payloads to drop, and the policies that tell which
// extended headers go on: whether each meets its own packet.
module DropFlags {
  import opened InfiniBand
  import opened RequestPath
  import opened RequestPathRuns
  import opened ReceivePathProof
  import opened ReceivePathTheorems
  import opened PsnWindow
  import opened ReceivePathOutputs

  // Packets whose payload reaches drop_ooo_ibh: of acknowledgements and read requests
  // nothing is left behind the headers.
  predicate CarriesData(op: OpCode) { !op.Ack? && !op.ReadRequest? }

  // For each payload, in order, whether it should be dropped.
  function Fates(start: seq<Row>, judged: seq<Judged>): seq<bool>
    requires forall i :: 0 <= i < |judged| ==> judged[i].packet.qpn < |start|
    decreases |judged|
  {
    if judged == [] then []
    else
      var before, p := judged[..|judged| - 1], judged[|judged| - 1].packet;
      Fates(start, before)
      + if CarriesData(p.op) then [!Passes(p, StandingOf(start[p.qpn], before, p))] else []
  }

  // Read requests that came out of sequence.
  function LateReads(start: seq<Row>, judged: seq<Judged>): nat
    requires forall i :: 0 <= i < |judged| ==> judged[i].packet.qpn < |start|
    decreases |judged|
  {
    if judged == [] then 0
    else
      var before, p := judged[..|judged| - 1], judged[|judged| - 1].packet;
      LateReads(start, before)
      + if p.op.ReadRequest? && StandingOf(start[p.qpn], before, p).OutOfSequence? then 1 else 0
  }

  lemma {:induction false} DropsAre(start: seq<Row>, judged: seq<Judged>)
    requires forall i :: 0 <= i < |judged| ==> judged[i].packet.qpn < |start|
    ensures |Due(start, judged).drops| == |Fates(start, judged)| + LateReads(start, judged)
    ensures LateReads(start, judged) == 0 ==> Due(start, judged).drops == Fates(start, judged)
    decreases |judged|
  {
    if judged != [] {
      DropsAre(start, judged[..|judged| - 1]);
      hide StandingOf, EventsFor, PolicyFor, UpdatesFor, CompletionsFor, ClearsFor, ResponderAfter;
    }
  }

  // In every run every payload meets its own flag iff no read request came out of
  // sequence. One that did leaves a flag over: from then on each payload is dropped or kept
  // as the packet before it deserved.
  lemma FlagsMatchIff(n: Node, actions: seq<Action>)
    requires Initial(n) && AllRxAllowed(actions, |n.table|)
    ensures
      var rx := Run(n, actions).rx;
      && (forall i :: 0 <= i < |rx.judged| ==> rx.judged[i].packet.qpn < |n.table|)
      && (rx.out.drops == Fates(n.table, rx.judged) <==> LateReads(n.table, rx.judged) == 0)
  {
    OutputsInRun(n, actions);
    DropsAre(n.table, Run(n, actions).rx.judged);
  }

  // The packets whose policy lets them pass.
  function LetThrough(packets: seq<Arrival>, policies: seq<Policy>): seq<Arrival>
    requires |policies| == |packets|
    decreases |packets|
  {
    if packets == [] then []
    else
      var n := |packets| - 1;
      LetThrough(packets[..n], policies[..n])
      + if !policies[n].isDrop && !policies[n].ackOnly then [packets[n]] else []
  }

  lemma {:induction false} PoliciesAre(start: seq<Row>, judged: seq<Judged>)
    requires forall i :: 0 <= i < |judged| ==> judged[i].packet.qpn < |start|
    ensures |Due(start, judged).policies| == |judged|
    ensures Due(start, judged).headers == LetThrough(Packets(judged), Due(start, judged).policies)
    decreases |judged|
  {
    if judged != [] {
      hide StandingOf, EventsFor, DropsFor, UpdatesFor, CompletionsFor, ClearsFor, ResponderAfter;
      var n := |judged| - 1;
      var policies := Due(start, judged).policies;
      PoliciesAre(start, judged[..n]);
      assert Packets(judged)[..n] == Packets(judged[..n]) && policies[..n] == Due(start, judged[..n]).policies;
    }
  }

  // In every run there is one policy for each packet, and the headers passed on are those
  // of the packets whose policy lets them pass: these two never slip.
  lemma PoliciesMatch(n: Node, actions: seq<Action>)
    requires Initial(n) && AllRxAllowed(actions, |n.table|)
    ensures
      var rx := Run(n, actions).rx;
      && |rx.out.policies| == |rx.judged| && rx.out.headers == LetThrough(Packets(rx.judged), rx.out.policies)
  {
    OutputsInRun(n, actions);
    PoliciesAre(n.table, Run(n, actions).rx.judged);
  }

  // ---------------------------------------------------------------- a flag that is left over

  function Taking(p: Arrival): seq<Action> { [Arrive(p)] + RoundSteps() }

  lemma TakesInRun(n: Node, p: Arrival)
    requires Idle(n) && p.qpn < |n.table|
    ensures Run(n, Taking(p)) == Took(n, p) && Idle(Took(n, p))
  {
    TakesOne(n, p);
    RunRound(Next(n, Arrive(p)));
    hide Next, Run, Took, Round;
    RunConcat(n, [Arrive(p)], RoundSteps());
    FirstAction(n, Arrive(p));
  }

  lemma FirstAction(n: Node, a: Action)
    ensures Run(n, [a]) == Next(n, a)
  {
    hide Next;
    assert [a][..0] == [];
    assert Run(n, [a][..0]) == n;
  }

  // A read request one PSN too early, then the write that was expected: the write is
  // accepted and passed on, and the flag its payload meets says drop.
  lemma WriteIsDropped(n: Node, q: nat, length: nat) returns (actions: seq<Action>)
    requires Initial(n) && q < |n.table|
    ensures AllRxAllowed(actions, |n.table|)
    ensures
      var rx, psn := Run(n, actions).rx, n.table[q].respEpsn;
      var early, write := Arrival(ReadRequest, q, (psn + 1) % PSN_MOD, false, 1), Arrival(WriteOnly, q, psn, false, 1);
      && Packets(rx.judged) == [early, write] && Accepts(rx.judged[1], q)
      && rx.out.headers == [write] && rx.out.drops == [true, false]
  {
    var psn := n.table[q].respEpsn;
    var early, write := Arrival(ReadRequest, q, (psn + 1) % PSN_MOD, false, 1), Arrival(WriteOnly, q, psn, false, 1);
    hide Run, Next, Took, Idle, Taking, IsSetup, Accepts, Initial, QuietRx, AllRxAllowed, Packets;
    AtStart(n, q);
    TakesInRun(n, early);
    var n1 := Took(n, early);
    EarlyIsRefused(n, q, early);
    TakesInRun(n1, write);
    WritePasses(n, n1, q, write);
    actions := Taking(early) + Taking(write);
    RunConcat(n, Taking(early), Taking(write));
    TakingAllowed(early, |n.table|);
    TakingAllowed(write, |n.table|);
    AllowedJoins(Taking(early), Taking(write), |n.table|);
  }

  lemma AtStart(n: Node, q: nat)
    requires Initial(n) && q < |n.table|
    ensures Idle(n) && IsSetup(n.table[q]) && QuietRx(n.rx) && n.table[q].respEpsn < PSN_MOD
  {
  }

  lemma AllowedJoins(a: seq<Action>, b: seq<Action>, queues: nat)
    requires AllRxAllowed(a, queues) && AllRxAllowed(b, queues)
    ensures AllRxAllowed(a + b, queues)
  {
    hide RxAllowed;
  }

  lemma TakingAllowed(p: Arrival, queues: nat)
    requires p.qpn < queues && WellFormed(p)
    ensures AllRxAllowed(Taking(p), queues)
  {
  }

  lemma EarlyIsRefused(n: Node, q: nat, early: Arrival)
    requires q < |n.table| && IsSetup(n.table[q]) && QuietRx(n.rx)
    requires early == Arrival(ReadRequest, q, (n.table[q].respEpsn + 1) % PSN_MOD, false, 1)
    ensures
      var n1 := Took(n, early);
      && |n1.table| == |n.table| && n1.table[q].respEpsn == n.table[q].respEpsn && |n1.rx.judged| == 1 && n1.rx.judged[0].packet == early
      && n1.rx.out.headers == [] && n1.rx.out.drops == [true]
  {
    var row, seen := n.table[q], SeenBy(n, early);
    DuplicateTestExact(row.respOld, row.respEpsn, early.psn);
    AheadIs(row.respOld, row.respEpsn);
    OneWrite(row, early, seen);
    assert n.rx.judged + [Judged(early, seen)] == [Judged(early, seen)];
  }

  lemma WritePasses(n: Node, n1: Node, q: nat, write: Arrival)
    requires q < |n1.table| && write == Arrival(WriteOnly, q, n1.table[q].respEpsn, false, 1)
    requires |n1.rx.judged| == 1 && n1.rx.out.headers == [] && n1.rx.out.drops == [true]
    ensures
      var rx := Took(n1, write).rx;
      && |rx.judged| == 2 && Packets(rx.judged) == [n1.rx.judged[0].packet, write] && Accepts(rx.judged[1], q)
      && rx.out.headers == [write] && rx.out.drops == [true, false]
  {
  }
}
