// Putting a header in front of a stream and taking it off again, word by word.
module Headers {
  import opened OnesComplement
  import opened AxiStream
  import opened Realign
  import opened Shifters

  // How far the header reaches into the word it ends in; the shifters move by this much.
  function Offset(h: nat, n: nat): (o: nat)
    requires n > 0
    ensures o < n && o <= h
    decreases h
  {
    if h < n then h else Offset(h - n, n)
  }

  // ---------------------------------------------------------------- the sender

  datatype Phase = Meta | Header | PartialHeader | Body

  // generate_udp and prepend_ibh_header; at is the header's word index in bytes.
  datatype Generator = Generator(phase: Phase, header: seq<Byte>, at: nat, headers: seq<seq<Byte>>, out: seq<Word>)

  // What consumeWord puts into a word.
  function Consumed(header: seq<Byte>, at: nat, data: seq<Byte>): (r: seq<Byte>)
    ensures |r| == |data|
  {
    var n := |data|;
    if at + n <= |header| then header[at..at + n]
    else if at < |header| then header[at..] + data[|header| - at..]
    else data
  }

  function TakeHeader(g: Generator, n: nat): Generator
    requires g.headers != []
  {
    var h := g.headers[0];
    Generator(if |h| >= n then Header else PartialHeader, h, 0, g.headers[1..], g.out)
  }

  // State HEADER: one word of header, and another if a whole one is left.
  function HeaderStep(g: Generator, n: nat): Generator {
    var left := |g.header| - (g.at + n);
    var w := Word(Consumed(g.header, g.at, Blank(n)), LenToKeep(n, n), false);
    Generator(if left < n then PartialHeader else Header, g.header, g.at + n, g.headers, g.out + [w])
  }

  function SendHeader(g: Generator, n: nat): (g': Generator)
    requires n > 0
    ensures g'.headers == g.headers
    decreases |g.header| + n - g.at, g.at
  {
    if g.phase != Header || g.at > |g.header| then g else SendHeader(HeaderStep(g, n), n)
  }

  function GenerateWord(g: Generator, w: Word): Generator {
    if g.phase == PartialHeader then
      var w' := w.(data := Consumed(g.header, g.at, w.data));
      g.(phase := if w.last then Meta else Body, at := g.at + |w.data|, out := g.out + [w'])
    else g.(phase := if w.last then Meta else Body, out := g.out + [w])
  }

  // A word of payload; a packet's first word waits for its header.
  function GenerateStep(n: nat): (Generator, Word) -> Generator {
    (g: Generator, w: Word) =>
      if n == 0 then g
      else if g.phase != Meta then GenerateWord(g, w)
      else if g.headers != [] then GenerateWord(SendHeader(TakeHeader(g, n), n), w)
      else g
  }

  // The header's whole words.
  function HeaderWords(h: seq<Byte>, n: nat): seq<Word>
    requires n > 0
    decreases |h|
  {
    if |h| < n then [] else [Word(h[..n], LenToKeep(n, n), false)] + HeaderWords(h[n..], n)
  }

  // A packet whose first bytes are replaced.
  function Overlaid(q: seq<Word>, front: seq<Byte>): seq<Word>
    requires q != [] && |front| <= |q[0].data|
  {
    [q[0].(data := front + q[0].data[|front|..])] + q[1..]
  }

  function Encapsulated(h: seq<Byte>, p: seq<Word>, n: nat): seq<Word>
    requires WellFormed(p, n) && AllSized(p, n) && n > 0
  {
    var o := Offset(|h|, n);
    LeftShiftNonEmpty(o, n, p);
    HeaderWords(h, n) + Overlaid(LeftOf(o, n, p), h[|h| - o..])
  }

  lemma LeftShiftNonEmpty(o: nat, n: nat, p: seq<Word>)
    requires o < n && WellFormed(p, n) && AllSized(p, n)
    ensures LeftOf(o, n, p) != [] && |LeftOf(o, n, p)[0].data| == n
  {
  }

  lemma OverlayBytes(q: seq<Word>, front: seq<Byte>, bs: seq<Byte>, n: nat)
    requires Finished(q, bs, n) && |front| < n && |front| <= |bs|
    ensures Finished(Overlaid(q, front), front + bs[|front|..], n)
  {
    hide AxiStream.BytesOf, AxiStream.Kept;
    SplitPacket(q, n);
    var w, w' := q[0], Overlaid(q, front)[0];
    assert WellFormedWord(w, n);
    if |q| == 1 {
      assert q == [w] && q[1..] == [];
      BytesNone();
      OneWord(w', n);
      assert WordBytes(w') == front + WordBytes(w)[|front|..];
      assert Overlaid(q, front) == [w'];
    } else {
      FullFirst(w', q[1..], BytesOf(q[1..]), n);
      assert WordBytes(w) == w.data by { assert w.data[..n] == w.data; }
      assert w'.data + BytesOf(q[1..]) == front + (w.data + BytesOf(q[1..]))[|front|..];
    }
  }

  lemma {:induction false} HeaderBytes(h: seq<Byte>, n: nat, q: seq<Word>, bs: seq<Byte>)
    requires n > 0 && Finished(q, bs, n)
    ensures Finished(HeaderWords(h, n) + q, h[..|h| - Offset(|h|, n)] + bs, n)
    decreases |h|
  {
    hide AxiStream.BytesOf, AxiStream.Kept;
    if |h| < n {
      assert [] + q == q && h[..0] + bs == bs;
    } else {
      var w, rest := Word(h[..n], LenToKeep(n, n), false), HeaderWords(h[n..], n) + q;
      HeaderBytes(h[n..], n, q, bs);
      KeptOfPrefix(n, n);
      var o := Offset(|h|, n);
      FullFirst(w, rest, h[n..][..|h| - n - o] + bs, n);
      assert [w] + rest == HeaderWords(h, n) + q;
      assert h[..n] + (h[n..][..|h| - n - o] + bs) == h[..|h| - o] + bs;
    }
  }

  // Header bytes, then payload bytes, in one well-formed packet: for every width and
  // every header.
  lemma EncapsulatedIs(h: seq<Byte>, p: seq<Word>, n: nat)
    requires n > 0 && WellFormed(p, n) && AllSized(p, n) && Offset(|h|, n) <= 32
    ensures Finished(Encapsulated(h, p, n), h + BytesOf(p), n)
  {
    hide AxiStream.BytesOf, AxiStream.Kept, HeaderWords, Overlaid, Shifters.LeftOf, Realign.Finished, Realign.Feed, Offset;
    var o := Offset(|h|, n);
    var idle := Left(true, false, Word(Blank(n), LenToKeep(0, n), false), []);
    LeftShifts(o, n, idle, p);
    var q, bs := LeftOf(o, n, p), BytesOf(p);
    OverlayBytes(q, h[|h| - o..], Blank(o) + bs, n);
    assert (Blank(o) + bs)[o..] == bs;
    HeaderBytes(h, n, Overlaid(q, h[|h| - o..]), h[|h| - o..] + bs);
    assert h[..|h| - o] + (h[|h| - o..] + bs) == h + bs;
  }

  // ---------------------------------------------------------------- the sender's machine

  lemma {:induction false} SendsHeader(g: Generator, n: nat)
    requires n > 0 && g.phase == Header && g.at + n <= |g.header|
    ensures
      var e, left := SendHeader(g, n), g.header[g.at..];
      && e.phase == PartialHeader && e.header == g.header && e.at == |g.header| - Offset(|left|, n)
      && e.out == g.out + HeaderWords(left, n)
    decreases |g.header| - g.at
  {
    var left := g.header[g.at..];
    var w := Word(left[..n], LenToKeep(n, n), false);
    assert Consumed(g.header, g.at, Blank(n)) == left[..n];
    var next := Generator(if |left| - n < n then PartialHeader else Header, g.header, g.at + n, g.headers, g.out + [w]);
    assert SendHeader(g, n) == SendHeader(next, n);
    assert left[n..] == g.header[g.at + n..];
    if |left| - n >= n {
      SendsHeader(next, n);
      assert g.out + [w] + HeaderWords(left[n..], n) == g.out + HeaderWords(left, n);
    } else {
      assert HeaderWords(left[n..], n) == [];
      assert g.out + ([w] + []) == g.out + [w];
    }
  }

  predicate LastAtEnd(p: seq<Word>) { p != [] && forall i :: 0 <= i < |p| ==> (p[i].last <==> i == |p| - 1) }

  lemma TailEnds(p: seq<Word>)
    requires LastAtEnd(p) && |p| > 1
    ensures !p[0].last && LastAtEnd(p[1..])
  {
    forall i | 0 <= i < |p[1..]| ensures p[1..][i].last <==> i == |p[1..]| - 1 {
      assert p[1..][i] == p[i + 1];
    }
  }

  lemma {:induction false} PassesBody(g: Generator, p: seq<Word>, n: nat)
    requires n > 0 && g.phase == Body && LastAtEnd(p)
    ensures
      var e := Feed(GenerateStep(n), g, p);
      e.phase == Meta && e.out == g.out + p && e.headers == g.headers
    decreases |p|
  {
    var e := GenerateStep(n)(g, p[0]);
    assert e == GenerateWord(g, p[0]);
    FeedOne(GenerateStep(n), g, p);
    if |p| == 1 {
      assert p[0].last;
      assert p[1..] == [] && g.out + [p[0]] == g.out + p;
    } else {
      TailEnds(p);
      PassesBody(e, p[1..], n);
      assert g.out + [p[0]] + p[1..] == g.out + p;
    }
  }

  // Fed a shifted packet, the generator sends the encapsulated one and waits for the next.
  lemma Generates(g: Generator, q: seq<Word>, n: nat)
    requires n > 0 && g.phase == Meta && g.headers != [] && WellFormed(q, n) && AllSized(q, n)
    ensures
      var h := g.headers[0];
      var e, o := Feed(GenerateStep(n), g, q), Offset(|h|, n);
      e.phase == Meta && e.headers == g.headers[1..] && e.out == g.out + (HeaderWords(h, n) + Overlaid(q, h[|h| - o..]))
  {
    hide AxiStream.Kept, Realign.Feed;
    var h, taken := g.headers[0], TakeHeader(g, n);
    var o := Offset(|h|, n);
    var ready := SendHeader(taken, n);
    if |h| >= n {
      SendsHeader(taken, n);
      assert h[0..] == h;
    } else {
      assert HeaderWords(h, n) == [] && g.out + [] == g.out;
    }
    assert ready.phase == PartialHeader && ready.at == |h| - o && ready.out == g.out + HeaderWords(h, n);
    var w, w' := q[0], Overlaid(q, h[|h| - o..])[0];
    assert Consumed(h, |h| - o, w.data) == w'.data;
    var e := GenerateStep(n)(g, w);
    assert e.out == g.out + HeaderWords(h, n) + [w'];
    FeedOne(GenerateStep(n), g, q);
    if |q| == 1 {
      assert q[1..] == [] && w.last;
      FeedNone(GenerateStep(n), e);
      assert Overlaid(q, h[|h| - o..]) == [w'];
    } else {
      TailEnds(q);
      PassesBody(e, q[1..], n);
    }
    assert g.out + HeaderWords(h, n) + [w'] + q[1..] == g.out + (HeaderWords(h, n) + Overlaid(q, h[|h| - o..]));
  }

  // ---------------------------------------------------------------- the receiver

  // process_udp and rx_process_ibh: the header parsed so far, whether it is complete,
  // whether its fields have been handed on.
  datatype Stripper = Stripper(header: seq<Byte>, at: nat, ready: bool, metaWritten: bool,
                               metas: seq<seq<Byte>>, out: seq<Word>)

  // parseWord
  function Parse(s: Stripper, data: seq<Byte>, size: nat): (s': Stripper)
    ensures s'.metas == s.metas && s'.out == s.out && s'.metaWritten == s.metaWritten
  {
    if s.ready then s
    else if s.at + |data| < size then s.(header := s.header + data, at := s.at + |data|)
    else s.(header := s.header + data[..if s.at <= size then size - s.at else 0], ready := true, at := s.at + |data|)
  }

  function Cleared(s: Stripper): Stripper { s.(header := [], at := 0, ready := false, metaWritten := false) }

  // early: whether the word that completes the header is itself passed on. Packets whose
  // header is not accepted are not.
  function StripWord(s: Stripper, w: Word, size: nat, early: bool, accept: seq<Byte> -> bool): Stripper {
    var p := Parse(s, w.data, size);
    var passes := (if early then p.ready else s.metaWritten) && accept(p.header);
    var q := p.(out := if passes then p.out + [w] else p.out,
                metas := if p.ready && !p.metaWritten then p.metas + [p.header] else p.metas,
                metaWritten := p.metaWritten || p.ready);
    if w.last then Cleared(q) else q
  }

  function StripStep(size: nat, early: bool, accept: seq<Byte> -> bool): (Stripper, Word) -> Stripper {
    (s: Stripper, w: Word) => StripWord(s, w, size, early, accept)
  }

  predicate Blanked(s: Stripper) { s.header == [] && s.at == 0 && !s.ready && !s.metaWritten }

  // The words after the header's, or from the one it ends in.
  function AfterHeader(p: seq<Word>, n: nat, size: nat, early: bool): seq<Word>
    requires n > 0 && |p| > 0
    decreases |p|
  {
    if n >= size || |p| == 1 then (if early then p else p[1..])
    else AfterHeader(p[1..], n, size - n, early)
  }

  lemma {:induction false} StripsBody(s: Stripper, p: seq<Word>, size: nat, early: bool, accept: seq<Byte> -> bool)
    requires s.ready && s.metaWritten
    requires LastAtEnd(p)
    ensures
      var e := Feed(StripStep(size, early, accept), s, p);
      Blanked(e) && e.out == s.out + (if accept(s.header) then p else []) && e.metas == s.metas
    decreases |p|
  {
    var e := StripStep(size, early, accept)(s, p[0]);
    if |p| == 1 {
      assert p[1..] == [] && s.out + [p[0]] == s.out + p;
    } else {
      TailEnds(p);
      StripsBody(e, p[1..], size, early, accept);
      assert s.out + [p[0]] + p[1..] == s.out + p;
    }
  }

  predicate Parsing(s: Stripper, size: nat) { |s.header| == s.at < size && !s.ready && !s.metaWritten }

  // Fed a packet longer than its header, the stripper hands on the header once, passes
  // the words after it if the header is accepted, and is clear for the next packet.
  lemma {:induction false} Strips(s: Stripper, p: seq<Word>, n: nat, size: nat, early: bool, accept: seq<Byte> -> bool)
    requires Parsing(s, size) && WellFormed(p, n) && AllSized(p, n) && n > 0
    requires s.at + |BytesOf(p)| > size
    ensures
      var e := Feed(StripStep(size, early, accept), s, p);
      var header := s.header + BytesOf(p)[..size - s.at];
      && Blanked(e) && e.metas == s.metas + [header]
      && e.out == s.out + if accept(header) then AfterHeader(p, n, size - s.at, early) else []
    decreases |p|
  {
    hide AxiStream.BytesOf, AxiStream.Kept, Realign.Feed, Cleared;
    var w := p[0];
    SplitPacket(p, n);
    assert WellFormedWord(w, n);
    FeedOne(StripStep(size, early, accept), s, p);
    var header := s.header + BytesOf(p)[..size - s.at];
    var e := StripStep(size, early, accept)(s, w);
    if s.at + n < size {
      MoreHeader(p, n, size - s.at);
      assert e == s.(header := s.header + w.data, at := s.at + n);
      Strips(e, p[1..], n, size, early, accept);
      assert s.header + w.data + BytesOf(p[1..])[..size - s.at - n] == header;
    } else {
      HeaderInWord(p, n, size - s.at);
      EndsHeader(s, p, n, size, early, accept, header);
    }
  }

  lemma MoreHeader(p: seq<Word>, n: nat, k: nat)
    requires WellFormed(p, n) && AllSized(p, n) && n < k < |BytesOf(p)|
    ensures |p| > 1 && !p[0].last && WellFormed(p[1..], n)
    ensures BytesOf(p) == p[0].data + BytesOf(p[1..])
  {
    hide AxiStream.BytesOf, AxiStream.Kept;
    SplitPacket(p, n);
    if |p| == 1 {
      assert p[1..] == [];
      BytesNone();
    } else {
      assert p[0].data[..n] == p[0].data;
    }
  }

  lemma HeaderInWord(p: seq<Word>, n: nat, k: nat)
    requires WellFormed(p, n) && AllSized(p, n) && k <= n && |BytesOf(p)| > k
    ensures BytesOf(p)[..k] == p[0].data[..k]
  {
    hide AxiStream.BytesOf, AxiStream.Kept;
    SplitPacket(p, n);
    if |p| == 1 {
      assert p[1..] == [];
      BytesNone();
    }
  }

  lemma EndsHeader(s: Stripper, p: seq<Word>, n: nat, size: nat, early: bool, accept: seq<Byte> -> bool, header: seq<Byte>)
    requires Parsing(s, size) && WellFormed(p, n) && AllSized(p, n) && n > 0 && s.at + n >= size
    requires header == s.header + p[0].data[..size - s.at]
    ensures
      var e := Feed(StripStep(size, early, accept), s, p);
      && Blanked(e) && e.metas == s.metas + [header]
      && e.out == s.out + if accept(header) then AfterHeader(p, n, size - s.at, early) else []
  {
    hide AxiStream.BytesOf, AxiStream.Kept, Realign.Feed;
    var w := p[0];
    var e := StripStep(size, early, accept)(s, w);
    FeedOne(StripStep(size, early, accept), s, p);
    if |p| == 1 {
      assert p[1..] == [] && w.last && p == [w];
      FeedNone(StripStep(size, early, accept), e);
    } else {
      TailEnds(p);
      StripsBody(e, p[1..], size, early, accept);
      assert s.out + [w] + p[1..] == s.out + p;
    }
  }

  // ---------------------------------------------------------------- what is left of the header

  // Bytes before the words passed on.
  function CutAt(n: nat, size: nat, early: bool): nat
    requires n > 0
    decreases size
  {
    if n >= size then (if early then 0 else n) else n + CutAt(n, size - n, early)
  }

  // The cut leaves exactly the offset of header bytes in front iff the completing word
  // is passed on exactly when the header ends inside it.
  lemma {:induction false} CutIff(n: nat, size: nat, early: bool)
    requires n > 0 && size > 0
    ensures CutAt(n, size, early) == size - Offset(size, n) <==> (early <==> Offset(size, n) != 0)
    decreases size
  {
    if n < size {
      CutIff(n, size - n, early);
    } else if n == size {
      assert Offset(size, n) == 0;
    }
  }

  lemma {:induction false} AfterHeaderBytes(p: seq<Word>, n: nat, size: nat, early: bool)
    requires n > 0 && size > 0 && WellFormed(p, n) && AllSized(p, n) && |BytesOf(p)| > size
    ensures
      var q, cut := AfterHeader(p, n, size, early), CutAt(n, size, early);
      && AllSized(q, n) && (q != [] ==> WellFormed(q, n))
      && BytesOf(q) == (if cut <= |BytesOf(p)| then BytesOf(p)[cut..] else [])
    decreases |p|
  {
    hide AxiStream.BytesOf, AxiStream.Kept;
    SplitPacket(p, n);
    var w := p[0];
    assert WellFormedWord(w, n);
    if |p| == 1 {
      assert p[1..] == [];
      BytesNone();
      if !early && n >= size { assert |BytesOf(p)| <= n; }
      assert n >= size;
    } else {
      assert WordBytes(w) == w.data by { assert w.data[..n] == w.data; }
      if n < size {
        AfterHeaderBytes(p[1..], n, size - n, early);
      }
    }
    assert BytesOf(p)[0..] == BytesOf(p);
  }

  // What is passed on is the offset's worth of header, then the payload, exactly when
  // that condition holds.
  lemma PassedOnIff(p: seq<Word>, n: nat, size: nat, early: bool)
    requires n > 0 && size > 0 && WellFormed(p, n) && AllSized(p, n) && |BytesOf(p)| > size
    ensures AllSized(AfterHeader(p, n, size, early), n)
    ensures BytesOf(AfterHeader(p, n, size, early)) == BytesOf(p)[size - Offset(size, n)..]
            <==> (early <==> Offset(size, n) != 0)
  {
    hide AxiStream.BytesOf, AxiStream.Kept, AfterHeader, CutAt;
    AfterHeaderBytes(p, n, size, early);
    CutIff(n, size, early);
    var cut, keep := CutAt(n, size, early), size - Offset(size, n);
    if cut != keep && cut <= |BytesOf(p)| {
      assert |BytesOf(p)[cut..]| != |BytesOf(p)[keep..]|;
    }
  }
}
