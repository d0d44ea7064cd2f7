// Does the retransmitter finish what it starts? Under any fair schedule it does, except
// for one request: a NAK whose PSN is not on its non-empty list. The traversal then stops
// at the tail and the process waits for an answer nobody was asked for.
module RetransmitterProgress {
  import opened Wrappers
  import opened InfiniBand
  import opened LinkedPool
  import opened Retransmitter
  import opened RetransmitterProof
  import opened RetransmitterTheorems

  // ---------------------------------------------------------------- what is left to do

  // Steps the client still has to take for the request in progress.
  ghost function Work(s: State, pos: nat, m: Model): nat {
    var length := if s.retrans.qpn < |m.lists| then |m.lists[s.retrans.qpn]| else 0;
    match s.ctl
    case Main => 0
    case Insert0 => 2
    case Insert1 => 1
    case Update0 => 2
    case Update1 => 1
    case Retrans0 => length + 1
    case TimerRetrans0 => length + 1
    case _ => if pos < length then length - pos else 0
  }

  function Backlog(sv: Servers<Entry>): nat { |sv.ptrUpd| + |sv.ptrReq| + |sv.nodeReq| }

  // The answer the client's state waits for has arrived.
  predicate Answered(s: State) {
    match s.ctl
    case Insert0 => s.sv.ptrRsp != []
    case Update0 => s.sv.ptrRsp != []
    case Retrans0 => s.sv.ptrRsp != []
    case TimerRetrans0 => s.sv.ptrRsp != []
    case Update1 => s.sv.nodeRsp != []
    case Retrans1 => s.sv.nodeRsp != []
    case Retrans2 => s.sv.nodeRsp != []
    case _ => true
  }

  ghost predicate AtEnd(s: State, pos: nat, m: Model) {
    s.ctl == Retrans1 && s.retrans.qpn < |m.lists| && pos == |m.lists[s.retrans.qpn]|
  }

  lemma WorkDrops(s: State, pos: nat, pos': nat, m: Model)
    requires s.ctl != Main && Answered(s) && Answers(s, pos, m) && !AtEnd(s, pos, m)
    requires
      match s.ctl
      case Retrans0 => pos' == 0
      case TimerRetrans0 => pos' == 0
      case Retrans1 => pos' == pos + 1
      case Retrans2 => pos' == pos + 1
      case _ => true
    ensures Work(ProcessStep(s), pos', Effect(s, m)) < Work(s, pos, m)
  {
  }

  // ---------------------------------------------------------------- the request that never ends

  ghost predicate Absent(list: seq<Entry>, psn: nat) {
    forall k :: 0 <= k < |list| ==> list[k].psn != psn
  }

  ghost predicate Doomed(s: State, pos: nat, m: Model) {
    && s.retrans.qpn < |m.lists|
    && var list := m.lists[s.retrans.qpn];
       || (s.ctl == Retrans0 && list != [] && Absent(list, s.retrans.psn))
       || (s.ctl == Retrans1 && pos <= |list| && Absent(list[pos..], s.retrans.psn))
  }

  lemma DoomKept(s: State, pos: nat, pos': nat, m: Model)
    requires s.ctl != Main && Answers(s, pos, m)
    requires
      match s.ctl
      case Retrans0 => pos' == 0
      case Retrans1 => pos' == if s.sv.nodeRsp != [] then pos + 1 else pos
      case _ => true
    ensures Doomed(ProcessStep(s), pos', Effect(s, m)) <==> Doomed(s, pos, m)
  {
    if s.ctl == Retrans0 {
      assert m.lists[s.retrans.qpn][0..] == m.lists[s.retrans.qpn];
    } else if s.ctl == Retrans1 && s.sv.nodeRsp != [] {
      var list := m.lists[s.retrans.qpn];
      assert list[pos..][0] == list[pos];
      assert list[pos..] == [list[pos]] + list[pos + 1..];
      if Absent(list[pos + 1..], s.retrans.psn) && list[pos].psn != s.retrans.psn {
        forall k | 0 <= k < |list[pos..]| ensures list[pos..][k].psn != s.retrans.psn {
          if k > 0 { assert list[pos..][k] == list[pos + 1..][k - 1]; }
        }
      }
    }
  }

  lemma ClientStep(s: State, t: Track)
    requires PoolInv(s, t) && s.ctl != Main
    ensures
      var s', t', m := ProcessStep(s), ProcessTrack(s, t), Current(s, t);
      && PoolInv(s', t') && Current(s', t') == Effect(s, m)
      && (Doomed(s', t'.pos, Effect(s, m)) <==> Doomed(s, t.pos, m))
  {
    ProcessMoves(s, t);
    ClientDoom(s, t);
  }

  lemma ClientDoom(s: State, t: Track)
    requires PoolInv(s, t) && s.ctl != Main
    ensures
      var m := Current(s, t);
      Doomed(ProcessStep(s), ProcessTrack(s, t).pos, Effect(s, m)) <==> Doomed(s, t.pos, m)
  {
    AnswersHold(s, t);
    DoomKept(s, t.pos, ProcessTrack(s, t).pos, Current(s, t));
  }

  lemma ClientAdvances(s: State, t: Track)
    requires PoolInv(s, t) && s.ctl != Main && !AtEnd(s, t.pos, Current(s, t))
    ensures
      var s', t', m := ProcessStep(s), ProcessTrack(s, t), Current(s, t);
      if Answered(s) then Work(s', t'.pos, Effect(s, m)) < Work(s, t.pos, m)
      else s' == s && Effect(s, m) == m && Work(s, t'.pos, m) == Work(s, t.pos, m)
  {
    AnswersHold(s, t);
    if Answered(s) {
      WorkDrops(s, t.pos, ProcessTrack(s, t).pos, Current(s, t));
    }
  }

  ghost predicate Stuck(s: State, t: Track)
    requires PoolInv(s, t)
  {
    Doomed(s, t.pos, Current(s, t))
  }

  ghost function WorkLeft(s: State, t: Track): nat
    requires PoolInv(s, t)
  {
    Work(s, t.pos, Current(s, t))
  }

  lemma SameDoom(s: State, s': State, pos: nat, m: Model)
    requires s'.ctl == s.ctl && s'.retrans == s.retrans
    ensures Doomed(s', pos, m) == Doomed(s, pos, m) && Work(s', pos, m) == Work(s, pos, m)
    ensures AtEnd(s', pos, m) == AtEnd(s, pos, m)
  {
  }

  lemma EndIsDoom(s: State, pos: nat, m: Model)
    requires AtEnd(s, pos, m)
    ensures Doomed(s, pos, m)
  {
    assert m.lists[s.retrans.qpn][pos..] == [];
  }

  // ---------------------------------------------------------------- one step of anybody

  // The process whose turn brings the request in progress closer to its end.
  function Need(s: State): Action {
    if Answered(s) then ProcessRetransmissions
    else if s.ctl == Update1 || s.ctl == Retrans1 || s.ctl == Retrans2 then MetaTable
    else PointerTable
  }

  ghost function Weight(s: State, t: Track): nat
    requires PoolInv(s, t)
  {
    3 * WorkLeft(s, t) + Backlog(s.sv)
  }

  // The request is over, nearer to its end, or as it was because it was not the turn of
  // the process it needs.
  ghost predicate Advances(s: State, t: Track, s': State, t': Track, a: Action)
    requires PoolInv(s, t) && PoolInv(s', t')
  {
    || s'.ctl == Main
    || (t'.log == t.log
        && (Weight(s', t') < Weight(s, t)
            || (Weight(s', t') == Weight(s, t) && a != Need(s) && Need(s') == Need(s))))
  }

  lemma PointerTableMoves(sv: Servers<Entry>)
    requires !sv.waiting
    ensures
      var sv' := PointerTableStep(sv);
      if sv.ptrUpd != [] || sv.ptrReq != [] then Backlog(sv') < Backlog(sv) else sv' == sv
  {
  }

  lemma NodeTableMoves(sv: Servers<Entry>)
    ensures
      var sv' := NodeTableStep(sv);
      if sv.nodeReq != [] then Backlog(sv') < Backlog(sv) else sv' == sv
  {
  }

  lemma PointerQueued(sv: Servers<Entry>, q: nat, locking: bool, ptrs: seq<Pointer>, nodes: seq<Node<Entry>>)
    requires Protocol(sv, AwaitPointer(q, locking), ptrs, nodes) && sv.ptrRsp == []
    ensures sv.ptrReq != []
  {
  }

  lemma NodeQueued(sv: Servers<Entry>, i: nat, lock: Option<nat>, ptrs: seq<Pointer>, nodes: seq<Node<Entry>>)
    requires Protocol(sv, AwaitNode(i, lock), ptrs, nodes) && sv.nodeRsp == []
    ensures sv.nodeReq != []
  {
  }

  // While an answer is missing, the request for it is queued.
  lemma Queued(s: State, t: Track)
    requires PoolInv(s, t) && s.ctl != Main && !Answered(s) && !AtEnd(s, t.pos, Current(s, t))
    ensures Need(s) == PointerTable ==> s.sv.ptrReq != []
    ensures Need(s) == MetaTable ==> s.sv.nodeReq != []
  {
    hide Protocol, Owned, ChainOk, PointerView, NodeView;
    match PhaseOf(s, t) {
      case AwaitPointer(q, locking) => PointerQueued(s.sv, q, locking, PointerView(s.sv, Hand(s)), NodeView(s.sv, Hand(s)));
      case AwaitNode(i, lock) => NodeQueued(s.sv, i, lock, PointerView(s.sv, Hand(s)), NodeView(s.sv, Hand(s)));
      case _ =>
    }
  }

  lemma NotWaiting(s: State, t: Track)
    requires PoolInv(s, t)
    ensures !s.sv.waiting
  {
  }

  // Anybody but the client leaves the work to do and the request's fate alone.
  lemma WorkKept(s: State, t: Track, s': State, t': Track)
    requires PoolInv(s, t) && PoolInv(s', t') && Current(s', t') == Current(s, t)
    requires s'.ctl == s.ctl && s'.retrans == s.retrans && t'.pos == t.pos
    ensures WorkLeft(s', t') == WorkLeft(s, t) && (Stuck(s', t') <==> Stuck(s, t))
  {
    hide PoolInv, Current;
    SameDoom(s, s', t.pos, Current(s, t));
  }

  lemma NotAtEnd(s: State, t: Track)
    requires PoolInv(s, t) && !Stuck(s, t)
    ensures !AtEnd(s, t.pos, Current(s, t))
  {
    hide PoolInv, Current;
    if AtEnd(s, t.pos, Current(s, t)) { EndIsDoom(s, t.pos, Current(s, t)); }
  }

  // What a server's step does to the backlog and to the process needed next.
  ghost predicate TurnTaken(s: State, s': State, a: Action) {
    || Backlog(s'.sv) < Backlog(s.sv)
    || (Backlog(s'.sv) == Backlog(s.sv) && a != Need(s) && Need(s') == Need(s))
  }

  lemma TakesTurn(s: State, a: Action)
    requires s.ctl != Main && !s.sv.waiting
    requires Need(s) == PointerTable ==> s.sv.ptrReq != []
    requires Need(s) == MetaTable ==> s.sv.nodeReq != []
    requires a.FreeListHandler? || a.PointerTable? || a.MetaTable?
    ensures TurnTaken(s, Next(s, a), a)
  {
    hide PointerTableStep, NodeTableStep;
    if a.PointerTable? {
      PointerTableMoves(s.sv);
    } else if a.MetaTable? {
      NodeTableMoves(s.sv);
    }
  }

  lemma Waits(s: State, t: Track)
    requires PoolInv(s, t) && s.ctl != Main && !Stuck(s, t)
    ensures !s.sv.waiting
    ensures Need(s) == PointerTable ==> s.sv.ptrReq != []
    ensures Need(s) == MetaTable ==> s.sv.nodeReq != []
  {
    NotAtEnd(s, t);
    NotWaiting(s, t);
    hide PoolInv, Current, Stuck;
    if !Answered(s) { Queued(s, t); }
  }

  lemma ServerAdvances(s: State, t: Track, a: Action)
    requires PoolInv(s, t) && s.ctl != Main && !Stuck(s, t)
    requires a.FreeListHandler? || a.PointerTable? || a.MetaTable?
    ensures
      var s', t' := Next(s, a), NextTrack(s, t, a);
      PoolInv(s', t') && !Stuck(s', t') && Advances(s, t, s', t', a)
  {
    ServerStep(s, t, a);
    Waits(s, t);
    hide PoolInv, Current, Stuck, WorkLeft, Need, PointerTableStep, NodeTableStep, FreeListStep, FreeListGhost, Backlog;
    TakesTurn(s, a);
    WorkKept(s, t, Next(s, a), NextTrack(s, t, a));
  }

  lemma NewInputs(s: State, t: Track, a: Action)
    requires PoolInv(s, t) && Allowed(a, |s.sv.ptrs|)
    requires a.OfferUpdate? || a.OfferNak? || a.OfferTimeout? || a.OfferInsert?
    ensures PoolInv(Next(s, a), t) && Current(Next(s, a), t) == Current(s, t)
  {
    InputsChange(s, t, Next(s, a));
  }

  lemma OfferAdvances(s: State, t: Track, a: Action)
    requires PoolInv(s, t) && s.ctl != Main && !Stuck(s, t) && Allowed(a, |s.sv.ptrs|)
    requires a.OfferUpdate? || a.OfferNak? || a.OfferTimeout? || a.OfferInsert?
    ensures
      var s', t' := Next(s, a), NextTrack(s, t, a);
      PoolInv(s', t') && !Stuck(s', t') && Advances(s, t, s', t', a)
  {
    NewInputs(s, t, a);
    var s' := Next(s, a);
    assert s'.sv == s.sv && s'.ctl == s.ctl && s'.retrans == s.retrans && NextTrack(s, t, a) == t;
    OnlyInputs(s, t, s', a);
  }

  lemma OnlyInputs(s: State, t: Track, s': State, a: Action)
    requires PoolInv(s, t) && PoolInv(s', t) && Current(s', t) == Current(s, t) && !Stuck(s, t)
    requires s'.sv == s.sv && s'.ctl == s.ctl && s'.retrans == s.retrans
    requires a.OfferUpdate? || a.OfferNak? || a.OfferTimeout? || a.OfferInsert?
    ensures !Stuck(s', t) && Advances(s, t, s', t, a)
  {
    hide PoolInv, Current, Stuck, WorkLeft;
    WorkKept(s, t, s', t);
  }

  lemma BacklogGrows(s: State)
    requires s.ctl != Main
    ensures Backlog(ProcessStep(s).sv) <= Backlog(s.sv) + 2
  {
  }

  lemma ClientLogs(s: State, t: Track)
    requires s.ctl != Main
    ensures ProcessTrack(s, t).log == t.log
  {
  }

  lemma ProcessAdvances(s: State, t: Track)
    requires PoolInv(s, t) && s.ctl != Main && !Stuck(s, t)
    ensures
      var s', t' := ProcessStep(s), ProcessTrack(s, t);
      PoolInv(s', t') && !Stuck(s', t') && Advances(s, t, s', t', ProcessRetransmissions)
  {
    if AtEnd(s, t.pos, Current(s, t)) { EndIsDoom(s, t.pos, Current(s, t)); }
    ClientStep(s, t);
    ClientAdvances(s, t);
    BacklogGrows(s);
    ClientLogs(s, t);
  }

  lemma StepAdvances(s: State, t: Track, a: Action)
    requires PoolInv(s, t) && s.ctl != Main && !Stuck(s, t) && Allowed(a, |s.sv.ptrs|)
    ensures
      var s', t' := Next(s, a), NextTrack(s, t, a);
      PoolInv(s', t') && !Stuck(s', t') && Advances(s, t, s', t', a)
  {
    match a {
      case ProcessRetransmissions => ProcessAdvances(s, t);
      case FreeListHandler => ServerAdvances(s, t, a);
      case PointerTable => ServerAdvances(s, t, a);
      case MetaTable => ServerAdvances(s, t, a);
      case _ => OfferAdvances(s, t, a);
    }
  }

  // ---------------------------------------------------------------- fair schedules finish

  ghost function TrackFrom(s: State, t: Track, actions: seq<Action>): Track
    decreases |actions|
  {
    if actions == [] then t else TrackFrom(Next(s, actions[0]), NextTrack(s, t, actions[0]), actions[1..])
  }

  lemma {:induction false} RunConcat(s: State, a: seq<Action>, b: seq<Action>)
    ensures Run(s, a + b) == Run(Run(s, a), b)
    decreases |b|
  {
    if b == [] {
      assert a + b == a;
    } else {
      assert (a + b)[..|a + b| - 1] == a + b[..|b| - 1];
      RunConcat(s, a, b[..|b| - 1]);
    }
  }

  lemma RunFirst(s: State, actions: seq<Action>)
    requires actions != []
    ensures Run(s, actions) == Run(Next(s, actions[0]), actions[1..])
  {
    assert [actions[0]] + actions[1..] == actions;
    RunConcat(s, [actions[0]], actions[1..]);
    RunOne(s, actions[0]);
  }

  lemma RunOne(s: State, a: Action)
    ensures Run(s, [a]) == Next(s, a)
  {
    assert [a][..0] == [];
  }

  // Somewhere along the schedule the client is idle.
  ghost predicate Passes(s: State, actions: seq<Action>) {
    exists k: nat :: k <= |actions| && Run(s, actions[..k]).ctl == Main
  }

  lemma PassesFirst(s: State, actions: seq<Action>)
    requires actions != [] && Passes(Next(s, actions[0]), actions[1..])
    ensures Passes(s, actions)
  {
    var k: nat :| k <= |actions[1..]| && Run(Next(s, actions[0]), actions[1..][..k]).ctl == Main;
    assert actions[..k + 1][0] == actions[0] && actions[..k + 1][1..] == actions[1..][..k];
    RunFirst(s, actions[..k + 1]);
  }

  // Over any schedule: the request ends on the way, comes closer to its end, or the
  // process it needs never had its turn.
  lemma {:induction false} BlockAdvances(s: State, t: Track, actions: seq<Action>)
    requires PoolInv(s, t) && s.ctl != Main && !Stuck(s, t) && AllAllowed(actions, |s.sv.ptrs|)
    ensures
      || Passes(s, actions)
      || (var e, t' := Run(s, actions), TrackFrom(s, t, actions);
          && PoolInv(e, t') && e.ctl != Main && !Stuck(e, t')
          && (Weight(e, t') < Weight(s, t)
              || (Weight(e, t') == Weight(s, t) && Need(e) == Need(s) && Need(s) !in actions)))
    decreases |actions|
  {
    hide PoolInv, Stuck, Weight, Need;
    if actions != [] {
      var a := actions[0];
      assert Allowed(a, |s.sv.ptrs|);
      StepAdvances(s, t, a);
      var s1, t1 := Next(s, a), NextTrack(s, t, a);
      RunFirst(s, actions);
      if s1.ctl == Main {
        assert actions[..1] == [a];
        RunOne(s, a);
        assert Run(s, actions[..1]).ctl == Main;
      } else {
        BlockAdvances(s1, t1, actions[1..]);
        if Passes(s1, actions[1..]) {
          PassesFirst(s, actions);
        } else {
          assert forall x :: x in actions ==> x == a || x in actions[1..];
        }
      }
    }
  }

  // A stretch of the schedule in which each of these has its turn, in any order, with
  // anything else in between.
  predicate Fair(actions: seq<Action>, queues: nat) {
    && PointerTable in actions && MetaTable in actions && ProcessRetransmissions in actions
    && forall k :: 0 <= k < |actions| ==> Allowed(actions[k], queues)
  }

  predicate AllFair(blocks: seq<seq<Action>>, queues: nat) {
    forall i :: 0 <= i < |blocks| ==> Fair(blocks[i], queues)
  }

  function Join(blocks: seq<seq<Action>>): seq<Action>
    decreases |blocks|
  {
    if blocks == [] then [] else blocks[0] + Join(blocks[1..])
  }

  lemma PassesJoin(s: State, a: seq<Action>, b: seq<Action>)
    requires Passes(s, a) || Passes(Run(s, a), b)
    ensures Passes(s, a + b)
  {
    hide Run;
    if Passes(s, a) {
      var k: nat :| k <= |a| && Run(s, a[..k]).ctl == Main;
      assert (a + b)[..k] == a[..k];
    } else {
      var k: nat :| k <= |b| && Run(Run(s, a), b[..k]).ctl == Main;
      assert (a + b)[..|a| + k] == a + b[..k];
      RunConcat(s, a, b[..k]);
    }
  }

  lemma BlockWeighs(s: State, t: Track, block: seq<Action>)
    requires PoolInv(s, t) && s.ctl != Main && !Stuck(s, t) && Fair(block, |s.sv.ptrs|)
    ensures
      || Passes(s, block)
      || (var e, t' := Run(s, block), TrackFrom(s, t, block);
          PoolInv(e, t') && !Stuck(e, t') && Weight(e, t') < Weight(s, t))
  {
    hide PoolInv, Stuck, Weight, Passes, Need, Run, TrackFrom, Allowed;
    BlockAdvances(s, t, block);
    NeedIsServed(s, block);
  }

  // A request that is not doomed is over after at most so many fair stretches, whatever
  // else is scheduled or offered meanwhile.
  lemma {:induction false} Finishes(s: State, t: Track, blocks: seq<seq<Action>>)
    requires PoolInv(s, t) && !Stuck(s, t) && AllFair(blocks, |s.sv.ptrs|)
    requires s.ctl == Main || |blocks| > Weight(s, t)
    ensures Passes(s, Join(blocks))
    decreases |blocks|
  {
    hide PoolInv, Stuck, Weight, Passes, Need, Run, TrackFrom, Allowed, Fair, Join;
    if s.ctl == Main {
      PassesNow(s, Join(blocks));
    } else {
      var b := blocks[0];
      assert Fair(b, |s.sv.ptrs|);
      BlockWeighs(s, t, b);
      JoinFirst(blocks);
      if !Passes(s, b) {
        assert |Run(s, b).sv.ptrs| == |s.sv.ptrs|;
        Finishes(Run(s, b), TrackFrom(s, t, b), blocks[1..]);
      }
      PassesJoin(s, b, Join(blocks[1..]));
    }
  }

  lemma PassesNow(s: State, actions: seq<Action>)
    requires s.ctl == Main
    ensures Passes(s, actions)
  {
    assert Run(s, actions[..0]).ctl == Main;
  }

  lemma JoinFirst(blocks: seq<seq<Action>>)
    requires blocks != []
    ensures Join(blocks) == blocks[0] + Join(blocks[1..])
  {
  }

  lemma NeedIsServed(s: State, block: seq<Action>)
    requires Fair(block, |s.sv.ptrs|)
    ensures Need(s) in block
  {
  }

  // ---------------------------------------------------------------- a doomed request never finishes

  lemma StepStuck(s: State, t: Track, a: Action)
    requires PoolInv(s, t) && Stuck(s, t) && Allowed(a, |s.sv.ptrs|)
    ensures PoolInv(Next(s, a), NextTrack(s, t, a)) && Stuck(Next(s, a), NextTrack(s, t, a))
  {
    if a.ProcessRetransmissions? {
      ClientStep(s, t);
    } else {
      if a.FreeListHandler? || a.PointerTable? || a.MetaTable? {
        ServerStep(s, t, a);
      } else {
        NewInputs(s, t, a);
      }
      hide PoolInv, Current, Stuck, WorkLeft, PointerTableStep, NodeTableStep, FreeListStep;
      WorkKept(s, t, Next(s, a), NextTrack(s, t, a));
    }
  }

  lemma StuckIsBusy(s: State, t: Track)
    requires PoolInv(s, t) && Stuck(s, t)
    ensures s.ctl != Main
  {
  }

  lemma {:induction false} StaysStuck(s: State, t: Track, actions: seq<Action>)
    requires PoolInv(s, t) && Stuck(s, t) && AllAllowed(actions, |s.sv.ptrs|)
    ensures Run(s, actions).ctl != Main
    decreases |actions|
  {
    StuckIsBusy(s, t);
    hide PoolInv, Stuck, Next;
    if actions != [] {
      assert Allowed(actions[0], |s.sv.ptrs|);
      StepStuck(s, t, actions[0]);
      RunFirst(s, actions);
      StaysStuck(Next(s, actions[0]), NextTrack(s, t, actions[0]), actions[1..]);
    }
  }

  // ---------------------------------------------------------------- exactly when it finishes

  function RoundRobin(n: nat): seq<seq<Action>> { seq(n, _ => [FreeListHandler, PointerTable, MetaTable, ProcessRetransmissions]) }

  // Long enough fair schedules end the request in progress.
  ghost predicate Ends(s: State) {
    exists n: nat :: EndsWithin(s, n)
  }

  ghost predicate EndsWithin(s: State, n: nat) {
    forall blocks :: AllFair(blocks, |s.sv.ptrs|) && |blocks| >= n ==> Passes(s, Join(blocks))
  }

  // No schedule, fair or not, ends it.
  ghost predicate Blocked(s: State) {
    forall actions :: AllAllowed(actions, |s.sv.ptrs|) ==> Run(s, actions).ctl != Main
  }

  lemma {:induction false} JoinAllowed(blocks: seq<seq<Action>>, queues: nat)
    requires AllFair(blocks, queues)
    ensures AllAllowed(Join(blocks), queues)
    decreases |blocks|
  {
    if blocks != [] {
      assert Fair(blocks[0], queues);
      JoinAllowed(blocks[1..], queues);
    }
  }

  // A request in progress ends under every fair schedule iff it is not a NAK for a PSN
  // that is missing from the rest of its list; in that case no schedule ends it.
  lemma FinishesIff(s: State, t: Track)
    requires PoolInv(s, t)
    ensures Ends(s) <==> !Stuck(s, t)
    ensures Blocked(s) <==> Stuck(s, t)
  {
    if Stuck(s, t) {
      forall actions | AllAllowed(actions, |s.sv.ptrs|) ensures Run(s, actions).ctl != Main {
        StaysStuck(s, t, actions);
      }
      forall n: nat ensures !EndsWithin(s, n) {
        NoEnd(s, n);
      }
    } else {
      var n := Weight(s, t) + 1;
      forall blocks | AllFair(blocks, |s.sv.ptrs|) && |blocks| >= n ensures Passes(s, Join(blocks)) {
        Finishes(s, t, blocks);
      }
      assert EndsWithin(s, n);
      NotBlocked(s, n);
    }
  }

  lemma RoundRobinIsFair(n: nat, queues: nat)
    ensures AllFair(RoundRobin(n), queues) && |RoundRobin(n)| == n
  {
    var round := [FreeListHandler, PointerTable, MetaTable, ProcessRetransmissions];
    assert round[1] == PointerTable && round[2] == MetaTable && round[3] == ProcessRetransmissions;
  }

  lemma PrefixAllowed(actions: seq<Action>, queues: nat, k: nat)
    requires AllAllowed(actions, queues) && k <= |actions|
    ensures AllAllowed(actions[..k], queues)
  {
  }

  lemma NoEnd(s: State, n: nat)
    requires Blocked(s)
    ensures !EndsWithin(s, n)
  {
    RoundRobinIsFair(n, |s.sv.ptrs|);
    JoinAllowed(RoundRobin(n), |s.sv.ptrs|);
    var actions := Join(RoundRobin(n));
    if Passes(s, actions) {
      var k: nat :| k <= |actions| && Run(s, actions[..k]).ctl == Main;
      PrefixAllowed(actions, |s.sv.ptrs|, k);
    }
  }

  lemma NotBlocked(s: State, n: nat)
    requires EndsWithin(s, n)
    ensures !Blocked(s)
  {
    if Blocked(s) { NoEnd(s, n); }
  }

  // In terms of what can be seen before the NAK is taken, in every reachable state: it
  // blocks the retransmitter, under every schedule and whatever is offered later, if and
  // only if the queue pair's list is not empty and does not hold the PSN.
  lemma NakBlocksIff(s: State, actions: seq<Action>)
    requires Initial(s) && AllAllowed(actions, |s.sv.ptrs|)
    requires var e := Run(s, actions); e.ctl == Main && e.updates == [] && e.naks != []
    ensures
      var e, t := Run(s, actions), TrackOf(s, actions);
      && PoolInv(e, t) && e.naks[0].qpn < |Current(e, t).lists|
      && var list := Current(e, t).lists[e.naks[0].qpn];
         && (Blocked(ProcessStep(e)) <==> list != [] && Absent(list, e.naks[0].psn))
         && (Ends(ProcessStep(e)) <==> list == [] || !Absent(list, e.naks[0].psn))
  {
    RunRefines(s, actions);
    var e, t := Run(s, actions), TrackOf(s, actions);
    ProcessMoves(e, t);
    FinishesIff(ProcessStep(e), ProcessTrack(e, t));
  }
}
