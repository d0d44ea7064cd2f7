// Why a receiver that compares 24-bit PSNs accepts the sender's requests in order, each
// once: the argument on unbounded sequence numbers.
module AcceptedPrefix {
  import opened InfiniBand
  import Retransmitter
  import opened RequestPath
  import opened RequestPathProof
  import opened RequestPathTheorems
  import opened ReceivePathProof
  import opened ReceivePathTheorems
  import opened PsnWindow

  // What a packet stands for: request k from its j-th PSN on, or no request.
  datatype Part = Part(k: nat, j: nat) | Nothing

  function First(part: Part): nat { if part.Part? then part.k else 0 }

  function Offset(part: Part): nat { if part.Part? then part.j else 0 }

  // The packet stands for request First(part) of QP q, from its Offset(part)-th PSN on.
  ghost predicate Stands(base: seq<nat>, reqs: seq<LocalReq>, q: nat, p: Arrival, part: Part) {
    var k, j := First(part), Offset(part);
    && !part.Nothing? && k < |reqs| && reqs[k].qpn == q < |base| && j < Pages(reqs[k])
    && p.op == reqs[k].op && p.psn == (NumberOf(base, reqs, k) + j) % PSN_MOD
    && (j == 0 ==> p.numPkg == Pages(reqs[k]))
  }

  // The unbounded number of the packet's first PSN.
  function Number(base: seq<nat>, reqs: seq<LocalReq>, part: Part): nat
    requires First(part) < |reqs| && reqs[First(part)].qpn < |base|
  {
    NumberOf(base, reqs, First(part)) + Offset(part)
  }

  // The unbounded number expected next on q.
  function Expected(from: nat, judged: seq<Judged>, q: nat): nat
    decreases |judged|
  {
    if judged == [] then from
    else
      var j := judged[|judged| - 1];
      Expected(from, judged[..|judged| - 1], q) + if Accepts(j, q) then j.packet.numPkg else 0
  }

  // Which requests the packets accepted as new stand for.
  function Accepted(judged: seq<Judged>, parts: seq<Part>, q: nat): seq<nat>
    requires |parts| == |judged|
    decreases |judged|
  {
    if judged == [] then []
    else
      var n := |judged| - 1;
      Accepted(judged[..n], parts[..n], q) + if Accepts(judged[n], q) then [First(parts[n])] else []
  }

  // The requests of QP q among the first k, in order.
  function IndexesOn(reqs: seq<LocalReq>, k: nat, q: nat): seq<nat>
    requires k <= |reqs|
    decreases k
  {
    if k == 0 then [] else IndexesOn(reqs, k - 1, q) + if reqs[k - 1].qpn == q then [k - 1] else []
  }

  // The event describes request k from its j-th PSN on.
  ghost predicate Resumes(base: seq<nat>, reqs: seq<LocalReq>, ev: Retransmitter.Event, k: nat, j: nat) {
    && k < |reqs| && reqs[k].qpn == ev.qpn < |base| && j < Pages(reqs[k])
    && ev.entry.opCode == reqs[k].op && ev.entry.psn == (NumberOf(base, reqs, k) + j) % PSN_MOD
    && ev.entry.remoteAddr == (reqs[k].raddr + j * PMTU) % ADDR_MOD
    && ev.entry.length == (reqs[k].length - j * PMTU) % LEN_MOD
  }

  ghost predicate Resumed(base: seq<nat>, reqs: seq<LocalReq>, ev: Retransmitter.Event) {
    exists k: nat, j: nat :: Resumes(base, reqs, ev, k, j)
  }

  // Every retransmission on QP q resumes one of its requests.
  ghost predicate AllResumed(base: seq<nat>, reqs: seq<LocalReq>, q: nat, resent: seq<Retransmitter.Event>) {
    forall i :: 0 <= i < |resent| && resent[i].qpn == q ==> Resumed(base, reqs, resent[i])
  }

  ghost function PartOf(base: seq<nat>, reqs: seq<LocalReq>, resent: seq<Retransmitter.Event>, tag: Tag): (part: Part)
    ensures tag.Again? && tag.i < |resent| && Resumed(base, reqs, resent[tag.i]) ==>
              part.Part? && Resumes(base, reqs, resent[tag.i], part.k, part.j)
  {
    match tag
    case New(k) => Part(k, 0)
    case Again(i) =>
      if i < |resent| && Resumed(base, reqs, resent[i]) then
        var k: nat, j: nat :| Resumes(base, reqs, resent[i], k, j);
        Part(k, j)
      else Nothing
    case _ => Nothing
  }

  ghost predicate AllStand(base: seq<nat>, reqs: seq<LocalReq>, qa: nat, judged: seq<Judged>, parts: seq<Part>, qb: nat) {
    && |parts| == |judged|
    && forall i :: 0 <= i < |judged| && IsRequestOn(judged[i], qb) ==>
         Stands(base, reqs, qa, judged[i].packet, parts[i])
  }

  predicate Congruent(x: nat, y: nat) { (x - y) % PSN_MOD == 0 }

  predicate Near(x: nat, y: nat) { x < y + PSN_MOD && y < x + PSN_MOD }

  // No request judged was 2^24 or more PSNs away from the one expected.
  ghost predicate InWindow(base: seq<nat>, reqs: seq<LocalReq>, qa: nat, judged: seq<Judged>, parts: seq<Part>, qb: nat)
    requires qa < |base|
  {
    && |parts| == |judged|
    && forall i :: 0 <= i < |judged| && IsRequestOn(judged[i], qb) ==>
         && First(parts[i]) < |reqs| && reqs[First(parts[i])].qpn < |base|
         && Near(Number(base, reqs, parts[i]), Expected(base[qa], judged[..i], qb))
  }

  // ---------------------------------------------------------------- expectation, modulo 2^24

  lemma SameMod(a: nat, b: nat)
    ensures a % PSN_MOD == b % PSN_MOD <==> Congruent(a, b)
  {
  }

  // A request is accepted exactly when its PSN is the one expected, and moves it on.
  lemma AcceptMoves(start: seq<Row>, judged: seq<Judged>, q: nat)
    requires Sequential(start, judged) && q < |start| && judged != []
    ensures
      var j := judged[|judged| - 1];
      var before := RowAfter(start[q], judged[..|judged| - 1], q).respEpsn;
      && (IsRequestOn(j, q) ==> (Accepts(j, q) <==> j.packet.psn == before))
      && RowAfter(start[q], judged, q).respEpsn
         == if Accepts(j, q) then (before + j.packet.numPkg) % PSN_MOD else before
  {
    StateAfter(start, judged, q);
    if IsRequestOn(judged[|judged| - 1], q) {
      AcceptsWhen(judged[|judged| - 1], q);
    }
  }

  lemma {:induction false} ExpectedModulo(start: seq<Row>, judged: seq<Judged>, q: nat)
    requires Sequential(start, judged) && q < |start|
    ensures RowAfter(start[q], judged, q).respEpsn == Expected(start[q].respEpsn, judged, q) % PSN_MOD
    decreases |judged|
  {
    if judged == [] {
      assert IsSetup(start[q]);
    } else {
      var n := |judged| - 1;
      PrefixSequential(start, judged, n);
      ExpectedModulo(start, judged[..n], q);
      AcceptMoves(start, judged, q);
      AddMod(Expected(start[q].respEpsn, judged[..n], q), judged[n].packet.numPkg);
    }
  }

  // Exactly when a request is accepted as new: its PSN and the number expected agree
  // modulo 2^24.
  lemma AcceptsIffPsn(start: seq<Row>, judged: seq<Judged>, qb: nat, i: nat)
    requires Sequential(start, judged) && qb < |start| && i < |judged| && IsRequestOn(judged[i], qb)
    ensures Accepts(judged[i], qb)
            <==> judged[i].packet.psn == Expected(start[qb].respEpsn, judged[..i], qb) % PSN_MOD
    ensures Accepts(judged[i], qb)
            <==> Congruent(judged[i].packet.psn, Expected(start[qb].respEpsn, judged[..i], qb))
  {
    PrefixSequential(start, judged, i);
    PrefixSequential(start, judged, i + 1);
    assert judged[..i + 1][..i] == judged[..i];
    ExpectedModulo(start, judged[..i], qb);
    AcceptMoves(start, judged[..i + 1], qb);
    SameMod(judged[i].packet.psn, Expected(start[qb].respEpsn, judged[..i], qb));
  }

  // The same in terms of the unbounded number of what the packet stands for.
  lemma AcceptsIff(start: seq<Row>, base: seq<nat>, reqs: seq<LocalReq>, qa: nat,
                   judged: seq<Judged>, part: Part, qb: nat, i: nat)
    requires Sequential(start, judged) && qb < |start| && i < |judged| && IsRequestOn(judged[i], qb)
    requires Stands(base, reqs, qa, judged[i].packet, part)
    ensures Accepts(judged[i], qb)
            <==> Congruent(Number(base, reqs, part), Expected(start[qb].respEpsn, judged[..i], qb))
  {
    AcceptsIffPsn(start, judged, qb, i);
    SameMod(Number(base, reqs, part), Expected(start[qb].respEpsn, judged[..i], qb));
  }

  // ---------------------------------------------------------------- numbers of requests on one QP

  // Every request of the QP takes up at least one PSN.
  predicate AllPaged(reqs: seq<LocalReq>, q: nat) {
    forall i :: 0 <= i < |reqs| && reqs[i].qpn == q ==> Pages(reqs[i]) > 0
  }

  lemma {:induction false} PagesGrow(reqs: seq<LocalReq>, k: nat, m: nat, q: nat)
    requires k <= m <= |reqs|
    ensures PagesBefore(reqs, k, q) <= PagesBefore(reqs, m, q)
    decreases m
  {
    if k < m {
      PagesGrow(reqs, k, m - 1, q);
    }
  }

  // No PSNs between k and m: no requests on q between k and m.
  lemma {:induction false} NoPagesNoRequests(reqs: seq<LocalReq>, k: nat, m: nat, q: nat)
    requires k <= m <= |reqs| && PagesBefore(reqs, k, q) == PagesBefore(reqs, m, q)
    requires AllPaged(reqs, q)
    ensures IndexesOn(reqs, k, q) == IndexesOn(reqs, m, q)
    decreases m
  {
    if k < m {
      PagesGrow(reqs, k, m - 1, q);
      NoPagesNoRequests(reqs, k, m - 1, q);
    }
  }

  // The only packet that can carry the expected number is a whole, next request.
  lemma ExpectedIsNext(reqs: seq<LocalReq>, q: nat, next: nat, k: nat, j: nat)
    requires next <= |reqs| && k < |reqs| && reqs[k].qpn == q && j < Pages(reqs[k])
    requires AllPaged(reqs, q)
    requires PagesBefore(reqs, k, q) + j == PagesBefore(reqs, next, q)
    ensures j == 0 && next <= k && IndexesOn(reqs, k + 1, q) == IndexesOn(reqs, next, q) + [k]
  {
    if k < next {
      PagesGrow(reqs, k + 1, next, q);
      assert false;
    }
    PagesGrow(reqs, next, k, q);
    NoPagesNoRequests(reqs, next, k, q);
  }

  lemma NearAndCongruent(x: nat, y: nat)
    requires Near(x, y) && Congruent(x, y)
    ensures x == y
  {
  }

  // ---------------------------------------------------------------- the prefix

  // If packet i was accepted, it carried exactly the number expected.
  ghost predicate ExactAt(base: seq<nat>, reqs: seq<LocalReq>, qa: nat, judged: seq<Judged>, parts: seq<Part>, qb: nat, i: nat)
    requires qa < |base| && i < |judged| == |parts|
  {
    Accepts(judged[i], qb) ==>
      && Stands(base, reqs, qa, judged[i].packet, parts[i])
      && Number(base, reqs, parts[i]) == Expected(base[qa], judged[..i], qb)
  }

  lemma AcceptedExactly(start: seq<Row>, base: seq<nat>, reqs: seq<LocalReq>, qa: nat,
                        judged: seq<Judged>, parts: seq<Part>, qb: nat, i: nat)
    requires Sequential(start, judged) && qb < |start| && qa < |base| && start[qb].respEpsn == base[qa]
    requires AllStand(base, reqs, qa, judged, parts, qb) && InWindow(base, reqs, qa, judged, parts, qb)
    requires i < |judged|
    ensures ExactAt(base, reqs, qa, judged, parts, qb, i)
  {
    if Accepts(judged[i], qb) {
      assert Stands(base, reqs, qa, judged[i].packet, parts[i]);
      AcceptsIff(start, base, reqs, qa, judged, parts[i], qb, i);
      NearAndCongruent(Number(base, reqs, parts[i]), Expected(base[qa], judged[..i], qb));
    }
  }

  // Packet n after the requests below next: if accepted, it is the whole of the next
  // request on the QP.
  lemma AcceptsNext(base: seq<nat>, reqs: seq<LocalReq>, qa: nat, judged: seq<Judged>, parts: seq<Part>, qb: nat,
                    n: nat, next: nat) returns (next': nat)
    requires qa < |base| && n < |judged| == |parts| && next <= |reqs| && AllPaged(reqs, qa)
    requires ExactAt(base, reqs, qa, judged, parts, qb, n)
    requires Expected(base[qa], judged[..n], qb) == base[qa] + PagesBefore(reqs, next, qa)
    ensures next <= next' <= |reqs|
    ensures Expected(base[qa], judged[..n + 1], qb) == base[qa] + PagesBefore(reqs, next', qa)
    ensures IndexesOn(reqs, next', qa)
            == IndexesOn(reqs, next, qa) + if Accepts(judged[n], qb) then [First(parts[n])] else []
  {
    assert judged[..n + 1][..n] == judged[..n];
    if Accepts(judged[n], qb) {
      var k := First(parts[n]);
      ExpectedIsNext(reqs, qa, next, k, Offset(parts[n]));
      next' := k + 1;
    } else {
      next' := next;
    }
  }

  // The packets accepted among the first n are the requests of the QP below some index,
  // each once and in order.
  lemma {:induction false} AcceptsPrefix(base: seq<nat>, reqs: seq<LocalReq>, qa: nat,
                                         judged: seq<Judged>, parts: seq<Part>, qb: nat, n: nat) returns (next: nat)
    requires qa < |base| && n <= |judged| == |parts| && AllPaged(reqs, qa)
    requires forall i :: 0 <= i < |judged| ==> ExactAt(base, reqs, qa, judged, parts, qb, i)
    ensures next <= |reqs| && Accepted(judged[..n], parts[..n], qb) == IndexesOn(reqs, next, qa)
    ensures Expected(base[qa], judged[..n], qb) == base[qa] + PagesBefore(reqs, next, qa)
    decreases n
  {
    if n == 0 {
      next := 0;
    } else {
      var before := AcceptsPrefix(base, reqs, qa, judged, parts, qb, n - 1);
      next := AcceptsNext(base, reqs, qa, judged, parts, qb, n - 1, before);
      assert judged[..n][..n - 1] == judged[..n - 1] && parts[..n][..n - 1] == parts[..n - 1];
    }
  }

  // A packet of a request of the QP carries one of the PSNs submitted on it.
  lemma NumberInside(base: seq<nat>, reqs: seq<LocalReq>, q: nat, p: Arrival, part: Part)
    requires Stands(base, reqs, q, p, part)
    ensures base[q] <= Number(base, reqs, part) < base[q] + PagesBefore(reqs, |reqs|, q)
  {
    PagesGrow(reqs, First(part) + 1, |reqs|, q);
  }

  lemma StandPrefix(base: seq<nat>, reqs: seq<LocalReq>, qa: nat, judged: seq<Judged>, parts: seq<Part>, qb: nat, n: nat)
    requires AllStand(base, reqs, qa, judged, parts, qb) && n <= |judged|
    ensures AllStand(base, reqs, qa, judged[..n], parts[..n], qb)
  {
  }

  lemma WindowSnoc(base: seq<nat>, reqs: seq<LocalReq>, qa: nat, judged: seq<Judged>, parts: seq<Part>, qb: nat, n: nat)
    requires qa < |base| && n + 1 == |judged| == |parts|
    requires InWindow(base, reqs, qa, judged[..n], parts[..n], qb)
    requires IsRequestOn(judged[n], qb) ==>
               && First(parts[n]) < |reqs| && reqs[First(parts[n])].qpn < |base|
               && Near(Number(base, reqs, parts[n]), Expected(base[qa], judged[..n], qb))
    ensures InWindow(base, reqs, qa, judged, parts, qb)
  {
    forall i | 0 <= i < |judged| && IsRequestOn(judged[i], qb)
      ensures First(parts[i]) < |reqs| && reqs[First(parts[i])].qpn < |base|
      ensures Near(Number(base, reqs, parts[i]), Expected(base[qa], judged[..i], qb))
    {
      if i < n {
        assert judged[..n][i] == judged[i] && parts[..n][i] == parts[i] && judged[..n][..i] == judged[..i];
      }
    }
  }

  // Fewer than 2^24 PSNs submitted: no request is ever too far from the one expected.
  lemma {:induction false} FewStayNear(start: seq<Row>, base: seq<nat>, reqs: seq<LocalReq>, qa: nat,
                                       judged: seq<Judged>, parts: seq<Part>, qb: nat)
    requires Sequential(start, judged) && qb < |start| && qa < |base| && start[qb].respEpsn == base[qa]
    requires AllStand(base, reqs, qa, judged, parts, qb) && AllPaged(reqs, qa)
    requires PagesBefore(reqs, |reqs|, qa) < PSN_MOD
    ensures InWindow(base, reqs, qa, judged, parts, qb)
    decreases |judged|
  {
    if judged != [] {
      var n := |judged| - 1;
      var js, ts := judged[..n], parts[..n];
      PrefixSequential(start, judged, n);
      StandPrefix(base, reqs, qa, judged, parts, qb, n);
      FewStayNear(start, base, reqs, qa, js, ts, qb);
      forall i | 0 <= i < n ensures ExactAt(base, reqs, qa, js, ts, qb, i) {
        AcceptedExactly(start, base, reqs, qa, js, ts, qb, i);
      }
      var next := AcceptsPrefix(base, reqs, qa, js, ts, qb, n);
      assert js[..n] == js;
      PagesGrow(reqs, next, |reqs|, qa);
      if IsRequestOn(judged[n], qb) {
        NumberInside(base, reqs, qa, judged[n].packet, parts[n]);
      }
      WindowSnoc(base, reqs, qa, judged, parts, qb, n);
    }
  }

  lemma {:induction false} IndexesArePrefix(reqs: seq<LocalReq>, k: nat, m: nat, q: nat)
    requires k <= m <= |reqs|
    ensures IndexesOn(reqs, k, q) <= IndexesOn(reqs, m, q)
    decreases m
  {
    if k < m {
      IndexesArePrefix(reqs, k, m - 1, q);
    }
  }
}
