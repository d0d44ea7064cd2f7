// The whole path: payload shifted up, header put in front, header taken off, payload
// shifted down again. For UDP and for the base transport header.
module Encapsulation {
  import opened OnesComplement
  import opened AxiStream
  import opened Realign
  import opened Shifters
  import opened Headers

  const UDP_HEADER_SIZE: nat := 8
  const BTH_SIZE: nat := 12

  // ---------------------------------------------------------------- one packet

  // The header and payload of an encapsulated packet.
  lemma ComesApart(h: seq<Byte>, p: seq<Word>, n: nat, early: bool)
    requires n > 0 && WellFormed(p, n) && AllSized(p, n) && 0 < |h| && Offset(|h|, n) <= 32
    requires early <==> Offset(|h|, n) != 0
    ensures
      var x, o := Encapsulated(h, p, n), Offset(|h|, n);
      && WellFormed(x, n) && AllSized(x, n) && |BytesOf(x)| > |h| && BytesOf(x)[..|h|] == h
      && var y := AfterHeader(x, n, |h|, early);
         AllSized(y, n) && WellFormed(y, n) && |BytesOf(y)| > o && Finished(RightOf(o, n, y), BytesOf(p), n)
  {
    hide AxiStream.BytesOf, AxiStream.Kept, Headers.Encapsulated, Headers.AfterHeader, Shifters.RightOf;
    var x, o := Encapsulated(h, p, n), Offset(|h|, n);
    EncapsulatedIs(h, p, n);
    PayloadNotEmpty(p, n);
    assert AllSized(x, n) by { assert forall i :: 0 <= i < |x| ==> WellFormedWord(x[i], n); }
    AfterHeaderBytes(x, n, |h|, early);
    PassedOnIff(x, n, |h|, early);
    var y := AfterHeader(x, n, |h|, early);
    assert BytesOf(y) == (h + BytesOf(p))[|h| - o..];
    NoWordsNoBytes(y);
    RightShifts(o, n, Right(false, o != 0, Word(Blank(n), LenToKeep(0, n), false), []), y);
    assert (h + BytesOf(p))[|h| - o..][o..] == BytesOf(p);
  }

  lemma PayloadNotEmpty(p: seq<Word>, n: nat)
    requires WellFormed(p, n) && AllSized(p, n)
    ensures |BytesOf(p)| > 0
  {
    hide AxiStream.BytesOf, AxiStream.Kept;
    SplitPacket(p, n);
    assert WellFormedWord(p[0], n);
  }

  lemma NoWordsNoBytes(y: seq<Word>)
    requires Even(y) && |BytesOf(y)| > 0
    ensures y != []
  {
  }

  // ---------------------------------------------------------------- stage by stage

  // All packets of one width, each with its header.
  predicate Suitable(hs: seq<seq<Byte>>, ps: seq<seq<Word>>, n: nat, size: nat) {
    && |hs| == |ps| && n > 0 && size > 0
    && (forall i :: 0 <= i < |hs| ==> |hs[i]| == size)
    && (forall i :: 0 <= i < |ps| ==> WellFormed(ps[i], n) && AllSized(ps[i], n))
  }

  function EncapsulatedAll(hs: seq<seq<Byte>>, ps: seq<seq<Word>>, n: nat): seq<seq<Word>>
    requires n > 0 && |hs| == |ps| && forall i :: 0 <= i < |ps| ==> WellFormed(ps[i], n) && AllSized(ps[i], n)
  {
    seq(|ps|, i requires 0 <= i < |ps| => Encapsulated(hs[i], ps[i], n))
  }

  function LeftAll(o: nat, n: nat, ps: seq<seq<Word>>): seq<seq<Word>>
    requires o < n && forall i :: 0 <= i < |ps| ==> AllSized(ps[i], n)
  {
    seq(|ps|, i requires 0 <= i < |ps| => LeftOf(o, n, ps[i]))
  }

  lemma {:induction false} ShiftsUpAll(o: nat, n: nat, s: Left, ps: seq<seq<Word>>)
    requires o < n && o <= 32 && LeftIdle(s, n)
    requires forall i :: 0 <= i < |ps| ==> WellFormed(ps[i], n) && AllSized(ps[i], n)
    ensures
      var e := Feed(LeftStep(o, n), s, Flatten(ps));
      LeftIdle(e, n) && e.out == s.out + Flatten(LeftAll(o, n, ps))
  {
    var f := (p: seq<Word>) => if AllSized(p, n) then LeftOf(o, n, p) else p;
    var idle, out := (x: Left) => LeftIdle(x, n), (x: Left) => x.out;
    forall i | 0 <= i < |ps| ensures Turns(LeftStep(o, n), idle, out, f, ps[i]) {
      forall x | idle(x)
        ensures idle(Feed(LeftStep(o, n), x, ps[i])) && out(Feed(LeftStep(o, n), x, ps[i])) == out(x) + f(ps[i])
      {
        LeftShifts(o, n, x, ps[i]);
      }
    }
    BackToBack(LeftStep(o, n), s, ps, idle, out, f);
    assert Each(ps, f) == LeftAll(o, n, ps);
  }

  lemma GeneratesOne(g: Generator, p: seq<Word>, n: nat)
    requires n > 0 && g.phase == Meta && g.headers != [] && WellFormed(p, n) && AllSized(p, n)
    requires Offset(|g.headers[0]|, n) <= 32
    ensures
      var q := LeftOf(Offset(|g.headers[0]|, n), n, p);
      var e := Feed(GenerateStep(n), g, q);
      e.phase == Meta && e.headers == g.headers[1..] && e.out == g.out + Encapsulated(g.headers[0], p, n)
  {
    hide AxiStream.BytesOf, AxiStream.Kept, Realign.Feed, Shifters.LeftOf;
    var o := Offset(|g.headers[0]|, n);
    LeftShifts(o, n, Left(true, false, Word(Blank(n), LenToKeep(0, n), false), []), p);
    var q := LeftOf(o, n, p);
    assert AllSized(q, n) by { assert forall i :: 0 <= i < |q| ==> WellFormedWord(q[i], n); }
    Generates(g, q, n);
  }

  lemma {:induction false} GeneratesAll(g: Generator, hs: seq<seq<Byte>>, ps: seq<seq<Word>>, n: nat, size: nat)
    requires Suitable(hs, ps, n, size) && g.phase == Meta && hs <= g.headers && Offset(size, n) <= 32
    ensures
      var e := Feed(GenerateStep(n), g, Flatten(LeftAll(Offset(size, n), n, ps)));
      && e.phase == Meta && e.headers == g.headers[|hs|..]
      && e.out == g.out + Flatten(EncapsulatedAll(hs, ps, n))
    decreases |ps|
  {
    hide AxiStream.BytesOf, AxiStream.Kept, Realign.Feed, Shifters.LeftOf, Headers.Encapsulated;
    var o := Offset(size, n);
    if ps == [] {
      FeedNone(GenerateStep(n), g);
      assert g.out + [] == g.out;
    } else {
      var k := |ps| - 1;
      GeneratesAll(g, hs[..k], ps[..k], n, size);
      assert LeftAll(o, n, ps)[..k] == LeftAll(o, n, ps[..k]);
      assert EncapsulatedAll(hs, ps, n)[..k] == EncapsulatedAll(hs[..k], ps[..k], n);
      var qs := Flatten(LeftAll(o, n, ps[..k]));
      FeedConcat(GenerateStep(n), g, qs, LeftOf(o, n, ps[k]));
      var mid := Feed(GenerateStep(n), g, qs);
      assert mid.headers[0] == hs[k];
      GeneratesOne(mid, ps[k], n);
      assert g.out + Flatten(EncapsulatedAll(hs[..k], ps[..k], n)) + Encapsulated(hs[k], ps[k], n)
          == g.out + Flatten(EncapsulatedAll(hs, ps, n));
    }
  }

  function PassedAll(xs: seq<seq<Word>>, n: nat, size: nat, early: bool): seq<seq<Word>>
    requires n > 0 && forall i :: 0 <= i < |xs| ==> xs[i] != []
  {
    seq(|xs|, i requires 0 <= i < |xs| => AfterHeader(xs[i], n, size, early))
  }

  // Packets that open with an accepted header.
  predicate Opens(hs: seq<seq<Byte>>, xs: seq<seq<Word>>, n: nat, size: nat, accept: seq<Byte> -> bool) {
    && |xs| == |hs|
    && forall i :: 0 <= i < |xs| ==>
         && WellFormed(xs[i], n) && AllSized(xs[i], n) && |BytesOf(xs[i])| > size
         && BytesOf(xs[i])[..size] == hs[i] && accept(hs[i])
  }

  lemma {:induction false} StripsAll(s: Stripper, hs: seq<seq<Byte>>, xs: seq<seq<Word>>, n: nat, size: nat,
                                     early: bool, accept: seq<Byte> -> bool)
    requires n > 0 && size > 0 && Blanked(s) && Opens(hs, xs, n, size, accept)
    ensures
      var e := Feed(StripStep(size, early, accept), s, Flatten(xs));
      Blanked(e) && e.metas == s.metas + hs && e.out == s.out + Flatten(PassedAll(xs, n, size, early))
    decreases |xs|
  {
    hide AxiStream.BytesOf, AxiStream.Kept, Realign.Feed, Headers.AfterHeader, Headers.StripWord;
    var step := StripStep(size, early, accept);
    if xs == [] {
      FeedNone(step, s);
      assert s.metas + hs == s.metas && s.out + [] == s.out;
    } else {
      var k := |xs| - 1;
      StripsAll(s, hs[..k], xs[..k], n, size, early, accept);
      assert PassedAll(xs, n, size, early)[..k] == PassedAll(xs[..k], n, size, early);
      FeedConcat(step, s, Flatten(xs[..k]), xs[k]);
      var mid := Feed(step, s, Flatten(xs[..k]));
      Strips(mid, xs[k], n, size, early, accept);
      assert [] + hs[k] == hs[k];
      assert s.metas + hs[..k] + [hs[k]] == s.metas + hs;
      assert s.out + Flatten(PassedAll(xs[..k], n, size, early)) + AfterHeader(xs[k], n, size, early)
          == s.out + Flatten(PassedAll(xs, n, size, early));
    }
  }

  function RightAll(o: nat, n: nat, ys: seq<seq<Word>>): seq<seq<Word>>
    requires o < n && forall i :: 0 <= i < |ys| ==> AllSized(ys[i], n) && ys[i] != []
  {
    seq(|ys|, i requires 0 <= i < |ys| => RightOf(o, n, ys[i]))
  }

  lemma ShiftsDownAll(o: nat, n: nat, s: Right, ys: seq<seq<Word>>)
    requires o < n && RightIdle(o, n, s)
    requires forall i :: 0 <= i < |ys| ==> ys[i] != [] && WellFormed(ys[i], n) && AllSized(ys[i], n) && |BytesOf(ys[i])| > o
    ensures
      var e := Feed(RightStep(o, n), s, Flatten(ys));
      RightIdle(o, n, e) && e.out == s.out + Flatten(RightAll(o, n, ys))
  {
    hide AxiStream.BytesOf, AxiStream.Kept;
    var f := (p: seq<Word>) => if AllSized(p, n) && p != [] then RightOf(o, n, p) else p;
    var idle, out := (x: Right) => RightIdle(o, n, x), (x: Right) => x.out;
    forall i | 0 <= i < |ys| ensures Turns(RightStep(o, n), idle, out, f, ys[i]) {
      forall x | idle(x)
        ensures idle(Feed(RightStep(o, n), x, ys[i])) && out(Feed(RightStep(o, n), x, ys[i])) == out(x) + f(ys[i])
      {
        RightShifts(o, n, x, ys[i]);
      }
    }
    BackToBack(RightStep(o, n), s, ys, idle, out, f);
    assert Each(ys, f) == RightAll(o, n, ys);
  }

  // ---------------------------------------------------------------- end to end

  // What the sender puts on the wire for these packets.
  function Sent(hs: seq<seq<Byte>>, ps: seq<seq<Word>>, n: nat, size: nat): seq<Word>
    requires n > 0
  {
    var o := Offset(size, n);
    var up := Feed(LeftStep(o, n), Left(true, false, Word(Blank(n), LenToKeep(0, n), false), []), Flatten(ps));
    Feed(GenerateStep(n), Generator(Meta, [], 0, hs, []), up.out).out
  }

  // What the receiver makes of it: headers, and words of payload.
  function Received(wire: seq<Word>, n: nat, size: nat, early: bool, accept: seq<Byte> -> bool): (seq<seq<Byte>>, seq<Word>)
    requires n > 0
  {
    var o := Offset(size, n);
    var s := Feed(StripStep(size, early, accept), Stripper([], 0, false, false, [], []), wire);
    (s.metas, Feed(RightStep(o, n), Right(false, o != 0, Word(Blank(n), LenToKeep(0, n), false), []), s.out).out)
  }

  lemma SentIs(hs: seq<seq<Byte>>, ps: seq<seq<Word>>, n: nat, size: nat)
    requires Suitable(hs, ps, n, size) && Offset(size, n) <= 32
    ensures Sent(hs, ps, n, size) == Flatten(EncapsulatedAll(hs, ps, n))
  {
    hide Realign.Feed;
    var o := Offset(size, n);
    var s := Left(true, false, Word(Blank(n), LenToKeep(0, n), false), []);
    ShiftsUpAll(o, n, s, ps);
    assert [] + Flatten(LeftAll(o, n, ps)) == Flatten(LeftAll(o, n, ps));
    GeneratesAll(Generator(Meta, [], 0, hs, []), hs, ps, n, size);
    assert [] + Flatten(EncapsulatedAll(hs, ps, n)) == Flatten(EncapsulatedAll(hs, ps, n));
  }

  // What is passed on of a packet can be shifted down.
  predicate CanShift(x: seq<Word>, n: nat, size: nat, early: bool)
    requires n > 0 && x != []
  {
    var y := AfterHeader(x, n, size, early);
    y != [] && WellFormed(y, n) && AllSized(y, n) && |BytesOf(y)| > Offset(size, n)
  }

  lemma ReceivedIs(hs: seq<seq<Byte>>, xs: seq<seq<Word>>, n: nat, size: nat, early: bool, accept: seq<Byte> -> bool)
    requires n > 0 && size > 0 && Opens(hs, xs, n, size, accept)
    requires forall i :: 0 <= i < |xs| ==> xs[i] != [] && CanShift(xs[i], n, size, early)
    ensures forall i {:trigger PassedAll(xs, n, size, early)[i]} :: 0 <= i < |xs| ==>
              PassedAll(xs, n, size, early)[i] != [] && AllSized(PassedAll(xs, n, size, early)[i], n)
    ensures Received(Flatten(xs), n, size, early, accept)
            == (hs, Flatten(RightAll(Offset(size, n), n, PassedAll(xs, n, size, early))))
  {
    hide AxiStream.BytesOf, AxiStream.Flatten, AxiStream.WellFormed, Realign.Feed, Shifters.RightOf,
      RightAll, Headers.AfterHeader, Headers.StripStep, Shifters.RightStep, Headers.Offset, Opens;
    var o, ys := Offset(size, n), PassedAll(xs, n, size, early);
    StripsAll(Stripper([], 0, false, false, [], []), hs, xs, n, size, early, accept);
    assert [] + hs == hs && [] + Flatten(ys) == Flatten(ys);
    forall i | 0 <= i < |ys|
      ensures ys[i] != [] && WellFormed(ys[i], n) && AllSized(ys[i], n) && |BytesOf(ys[i])| > o
    {
      assert CanShift(xs[i], n, size, early);
    }
    ShiftsDownAll(o, n, Right(false, o != 0, Word(Blank(n), LenToKeep(0, n), false), []), ys);
    assert [] + Flatten(RightAll(o, n, ys)) == Flatten(RightAll(o, n, ys));
  }

  // Any number of packets back to back: the receiver gets every header, and every
  // payload as a well-formed packet of the same bytes.
  lemma RoundTrip(hs: seq<seq<Byte>>, ps: seq<seq<Word>>, n: nat, size: nat, early: bool, accept: seq<Byte> -> bool)
    returns (rs: seq<seq<Word>>)
    requires Suitable(hs, ps, n, size) && Offset(size, n) <= 32 && (early <==> Offset(size, n) != 0)
    requires forall i :: 0 <= i < |hs| ==> accept(hs[i])
    ensures Received(Sent(hs, ps, n, size), n, size, early, accept) == (hs, Flatten(rs))
    ensures |rs| == |ps| && forall i :: 0 <= i < |ps| ==> Finished(rs[i], BytesOf(ps[i]), n)
  {
    hide AxiStream.BytesOf, AxiStream.Kept, Shifters.RightOf, Headers.AfterHeader, Headers.Encapsulated, Sent, Received, Realign.Finished;
    var o, xs := Offset(size, n), EncapsulatedAll(hs, ps, n);
    SentIs(hs, ps, n, size);
    forall i | 0 <= i < |ps|
      ensures WellFormed(xs[i], n) && AllSized(xs[i], n) && |BytesOf(xs[i])| > size && BytesOf(xs[i])[..size] == hs[i]
      ensures xs[i] != [] && CanShift(xs[i], n, size, early)
      ensures Finished(RightOf(o, n, AfterHeader(xs[i], n, size, early)), BytesOf(ps[i]), n)
    {
      ComesApart(hs[i], ps[i], n, early);
    }
    ReceivedIs(hs, xs, n, size, early, accept);
    rs := RightAll(o, n, PassedAll(xs, n, size, early));
  }

  // ---------------------------------------------------------------- UDP

  datatype UdpFields = UdpFields(srcPort: nat, dstPort: nat, length: nat)

  function Half(x: nat): seq<Byte> { [x / 0x100 % 0x100, x % 0x100] }

  // Big-endian fields; the checksum stays zero.
  function UdpHeader(f: UdpFields): (h: seq<Byte>)
    ensures |h| == UDP_HEADER_SIZE
  {
    Half(f.srcPort) + Half(f.dstPort) + Half(f.length) + [0, 0]
  }

  function At(h: seq<Byte>, i: nat): nat { if i + 1 < |h| then h[i] as int * 0x100 + h[i + 1] as int else 0 }

  function UdpFieldsOf(h: seq<Byte>): UdpFields { UdpFields(At(h, 0), At(h, 2), At(h, 4)) }

  // Where each field lies, and that the checksum is left out.
  lemma UdpLayout(f: UdpFields)
    requires f.srcPort < 0x1_0000 && f.dstPort < 0x1_0000 && f.length < 0x1_0000
    ensures
      var h := UdpHeader(f);
      && h[0] as int * 256 + h[1] as int == f.srcPort && h[2] as int * 256 + h[3] as int == f.dstPort
      && h[4] as int * 256 + h[5] as int == f.length && h[6..] == [0, 0]
  {
    UdpFieldsBack(f);
  }

  lemma UdpFieldsBack(f: UdpFields)
    requires f.srcPort < 0x1_0000 && f.dstPort < 0x1_0000 && f.length < 0x1_0000
    ensures UdpFieldsOf(UdpHeader(f)) == f
  {
    var h := UdpHeader(f);
    assert h[0] == f.srcPort / 0x100 % 0x100 && h[1] == f.srcPort % 0x100;
    assert h[2] == f.dstPort / 0x100 % 0x100 && h[3] == f.dstPort % 0x100;
    assert h[4] == f.length / 0x100 % 0x100 && h[5] == f.length % 0x100;
  }

  function UdpHeaders(fs: seq<UdpFields>): seq<seq<Byte>> {
    seq(|fs|, i requires 0 <= i < |fs| => UdpHeader(fs[i]))
  }

  // Datagrams to the listen port come back with their fields and payload, for every bus
  // wider than the header or dividing it.
  lemma UdpRoundTrip(fs: seq<UdpFields>, ps: seq<seq<Word>>, n: nat, port: nat) returns (rs: seq<seq<Word>>)
    requires Suitable(UdpHeaders(fs), ps, n, UDP_HEADER_SIZE) && (n > UDP_HEADER_SIZE || Offset(UDP_HEADER_SIZE, n) == 0)
    requires forall i :: 0 <= i < |fs| ==>
               fs[i].dstPort == port && fs[i].srcPort < 0x1_0000 && fs[i].dstPort < 0x1_0000 && fs[i].length < 0x1_0000
    ensures
      var accept := (h: seq<Byte>) => UdpFieldsOf(h).dstPort == port;
      var (metas, words) := Received(Sent(UdpHeaders(fs), ps, n, UDP_HEADER_SIZE), n, UDP_HEADER_SIZE,
                                     n > UDP_HEADER_SIZE, accept);
      && words == Flatten(rs) && |metas| == |fs| && forall i :: 0 <= i < |fs| ==> UdpFieldsOf(metas[i]) == fs[i]
    ensures |rs| == |ps| && forall i :: 0 <= i < |ps| ==> Finished(rs[i], BytesOf(ps[i]), n)
  {
    hide Sent, Received, AxiStream.BytesOf, UdpHeader, UdpFieldsOf;
    var accept := (h: seq<Byte>) => UdpFieldsOf(h).dstPort == port;
    forall i | 0 <= i < |fs| ensures UdpFieldsOf(UdpHeaders(fs)[i]) == fs[i] {
      UdpFieldsBack(fs[i]);
    }
    rs := RoundTrip(UdpHeaders(fs), ps, n, UDP_HEADER_SIZE, n > UDP_HEADER_SIZE, accept);
  }

  // On any other width the receiver loses the word the header ends in.
  lemma UdpWidthIff(x: seq<Word>, n: nat)
    requires n > 0 && WellFormed(x, n) && AllSized(x, n) && |BytesOf(x)| > UDP_HEADER_SIZE
    ensures AllSized(AfterHeader(x, n, UDP_HEADER_SIZE, n > UDP_HEADER_SIZE), n)
    ensures BytesOf(AfterHeader(x, n, UDP_HEADER_SIZE, n > UDP_HEADER_SIZE))
            == BytesOf(x)[UDP_HEADER_SIZE - Offset(UDP_HEADER_SIZE, n)..]
            <==> n > UDP_HEADER_SIZE || Offset(UDP_HEADER_SIZE, n) == 0
  {
    PassedOnIff(x, n, UDP_HEADER_SIZE, n > UDP_HEADER_SIZE);
  }

  // ---------------------------------------------------------------- the base transport header

  // The same for the 12 bytes of the BTH, whenever they end inside a word, as on every
  // bus of 64 bits or more.
  lemma BthRoundTrip(hs: seq<seq<Byte>>, ps: seq<seq<Word>>, n: nat) returns (rs: seq<seq<Word>>)
    requires Suitable(hs, ps, n, BTH_SIZE) && Offset(BTH_SIZE, n) != 0
    ensures Received(Sent(hs, ps, n, BTH_SIZE), n, BTH_SIZE, true, h => true) == (hs, Flatten(rs))
    ensures |rs| == |ps| && forall i :: 0 <= i < |ps| ==> Finished(rs[i], BytesOf(ps[i]), n)
  {
    hide Sent, Received, AxiStream.BytesOf;
    rs := RoundTrip(hs, ps, n, BTH_SIZE, true, h => true);
  }

  // Where they end with a word, that word is passed on as payload.
  lemma BthWidthIff(x: seq<Word>, n: nat)
    requires n > 0 && WellFormed(x, n) && AllSized(x, n) && |BytesOf(x)| > BTH_SIZE
    ensures AllSized(AfterHeader(x, n, BTH_SIZE, true), n)
    ensures BytesOf(AfterHeader(x, n, BTH_SIZE, true)) == BytesOf(x)[BTH_SIZE - Offset(BTH_SIZE, n)..]
            <==> Offset(BTH_SIZE, n) != 0
  {
    PassedOnIff(x, n, BTH_SIZE, true);
  }

  lemma BusWidths(n: nat)
    requires n == 8 || n == 16 || n == 32 || n == 64
    ensures n > UDP_HEADER_SIZE || Offset(UDP_HEADER_SIZE, n) == 0
    ensures Offset(BTH_SIZE, n) != 0
  {
  }
}
