// lshiftWordByOctet and rshiftWordByOctet, and their copies: a stream moved up or down by
// some bytes.
module Shifters {
  import opened OnesComplement
  import opened AxiStream
  import opened Realign

  function Blank(n: nat): seq<Byte> { seq(n, _ => 0) }

  predicate NoneKept(keep: seq<bool>) { forall i :: 0 <= i < |keep| ==> !keep[i] }

  // ---------------------------------------------------------------- up

  datatype Left = Left(firstWord: bool, writeRemainder: bool, prev: Word, out: seq<Word>)

  // The keep bits in front of the first word come from a 32-bit literal.
  function FrontKeep(o: nat): seq<bool> { seq(o, i => i < 32) }

  function LeftRead(o: nat, n: nat, s: Left, w: Word): (r: Left)
    requires o < n && Sized(w, n) && Sized(s.prev, n)
    ensures Sized(r.prev, n)
  {
    if o == 0 then s.(out := s.out + [w])
    else
      var data := if s.firstWord then Blank(o) else s.prev.data[n - o..];
      var keep := if s.firstWord then FrontKeep(o) else s.prev.keep[n - o..];
      var send := Word(data + w.data[..n - o], keep + w.keep[..n - o], NoneKept(w.keep[n - o..]));
      Left(w.last, w.last && !send.last, w, s.out + [send])
  }

  // A remainder goes out before the next word is read.
  function LeftFlush(o: nat, n: nat, s: Left): Left
    requires o < n && Sized(s.prev, n)
  {
    if !s.writeRemainder then s
    else
      var send := Word(s.prev.data[n - o..] + Blank(n - o), s.prev.keep[n - o..] + seq(n - o, _ => false), true);
      s.(writeRemainder := false, out := s.out + [send])
  }

  function LeftStep(o: nat, n: nat): (Left, Word) -> Left {
    (s: Left, w: Word) =>
      if o < n && Sized(w, n) && Sized(s.prev, n) then LeftFlush(o, n, LeftRead(o, n, s, w)) else s
  }

  predicate LeftIdle(s: Left, n: nat) { s.firstWord && !s.writeRemainder && Sized(s.prev, n) }

  // What becomes of a packet.
  function LeftOf(o: nat, n: nat, p: seq<Word>): seq<Word>
    requires o < n && AllSized(p, n)
  {
    if o == 0 then p else Merged(Blank(o), p, n)
  }

  // What the shifter holds when it reads the next word.
  predicate Holds(o: nat, n: nat, s: Left, low: seq<Byte>) {
    && 0 < o < n && |low| == o && Sized(s.prev, n) && !s.writeRemainder
    && (if s.firstWord then low == Blank(o) && o <= 32
        else low == s.prev.data[n - o..] && s.prev.keep[n - o..] == LenToKeep(o, o))
  }

  lemma NoneAbove(keep: seq<bool>, n: nat, m: nat)
    requires |keep| == n && Contiguous(keep) && m <= n
    ensures NoneKept(keep[m..]) <==> Kept(keep) <= m
  {
    if Kept(keep) > m {
      assert keep[m] && keep[m..][0];
    }
  }

  lemma JoinedKeep(o: nat, n: nat, keep: seq<bool>)
    requires |keep| == n && Contiguous(keep) && o < n
    ensures LenToKeep(o, o) + keep[..n - o] == LenToKeep(if o + Kept(keep) <= n then o + Kept(keep) else n, n)
  {
    hide AxiStream.Kept;
  }

  lemma UpperKeep(o: nat, n: nat, w: Word)
    requires FullWord(w, n) && o < n
    ensures w.keep[n - o..] == LenToKeep(o, o)
  {
    hide AxiStream.Kept;
  }

  // One word: the head goes out, and the remainder after a last word that did not fit.
  lemma LeftOne(o: nat, n: nat, s: Left, low: seq<Byte>, w: Word)
    requires Holds(o, n, s, low) && WellFormedWord(w, n)
    ensures
      var e := LeftFlush(o, n, LeftRead(o, n, s, w));
      && (!w.last ==> e.out == s.out + [Head(low, w, n)] && Holds(o, n, e, w.data[n - o..]))
      && (w.last ==> LeftIdle(e, n) && e.out == s.out + Ending(low, w, n))
  {
    hide AxiStream.Kept;
    NoneAbove(w.keep, n, n - o);
    JoinedKeep(o, n, w.keep);
    if s.firstWord { assert FrontKeep(o) == LenToKeep(o, o); }
    var r := LeftRead(o, n, s, w);
    assert r.out == s.out + [Head(low, w, n)];
    if !w.last {
      UpperKeep(o, n, w);
    } else if Total(low, w) > n {
      RestKeep(o, n, w);
      assert LeftFlush(o, n, r).out == r.out + [Rest(low, w, n)];
    }
  }

  lemma RestKeep(o: nat, n: nat, w: Word)
    requires Sized(w, n) && Contiguous(w.keep) && o < n && o + Kept(w.keep) > n
    ensures w.keep[n - o..] + seq(n - o, _ => false) == LenToKeep(o + Kept(w.keep) - n, n)
  {
    hide AxiStream.Kept;
  }

  lemma {:induction false} LeftMerges(o: nat, n: nat, s: Left, low: seq<Byte>, p: seq<Word>)
    requires Holds(o, n, s, low) && WellFormed(p, n) && AllSized(p, n)
    ensures
      var e := Feed(LeftStep(o, n), s, p);
      LeftIdle(e, n) && e.out == s.out + Merged(low, p, n)
    decreases |p|
  {
    hide AxiStream.Kept, AxiStream.BytesOf, LeftRead, LeftFlush, Head, Rest;
    var w := p[0];
    assert WellFormedWord(w, n);
    LeftOne(o, n, s, low, w);
    SplitPacket(p, n);
    var e := LeftFlush(o, n, LeftRead(o, n, s, w));
    assert LeftStep(o, n)(s, w) == e;
    if |p| == 1 {
      assert p[1..] == [] && w.last;
    } else {
      LeftMerges(o, n, e, w.data[n - o..], p[1..]);
      var rest := Merged(w.data[n - o..], p[1..], n);
      assert s.out + [Head(low, w, n)] + rest == s.out + ([Head(low, w, n)] + rest);
    }
  }

  lemma {:induction false} LeftPasses(n: nat, s: Left, p: seq<Word>)
    requires n > 0 && LeftIdle(s, n) && AllSized(p, n)
    ensures
      var e := Feed(LeftStep(0, n), s, p);
      LeftIdle(e, n) && e.out == s.out + p
    decreases |p|
  {
    if p == [] {
      assert s.out + [] == s.out;
    } else {
      var e := LeftStep(0, n)(s, p[0]);
      LeftPasses(n, e, p[1..]);
      assert s.out + [p[0]] + p[1..] == s.out + p;
    }
  }

  // A packet comes out with o bytes in front, whole and well-formed, and the shifter is
  // ready for the next one.
  lemma LeftShifts(o: nat, n: nat, s: Left, p: seq<Word>)
    requires o < n && o <= 32 && LeftIdle(s, n) && WellFormed(p, n) && AllSized(p, n)
    ensures
      var e := Feed(LeftStep(o, n), s, p);
      LeftIdle(e, n) && e.out == s.out + LeftOf(o, n, p)
    ensures Finished(LeftOf(o, n, p), Blank(o) + BytesOf(p), n)
  {
    if o == 0 {
      LeftPasses(n, s, p);
      assert Blank(0) + BytesOf(p) == BytesOf(p);
    } else {
      LeftMerges(o, n, s, Blank(o), p);
      MergedIs(Blank(o), p, n);
    }
  }

  // The first word's keep bits are contiguous exactly when the offset fits the literal.
  lemma FrontIsWholeIff(o: nat, n: nat, s: Left, w: Word)
    requires 0 < o < n && LeftIdle(s, n) && WellFormedWord(w, n)
    ensures
      var sent := LeftRead(o, n, s, w).out;
      Contiguous(sent[|sent| - 1].keep) <==> o <= 32
  {
    hide AxiStream.Kept;
    var keep := FrontKeep(o) + w.keep[..n - o];
    var sent := LeftRead(o, n, s, w).out;
    assert sent[|sent| - 1].keep == keep;
    if o <= 32 {
      JoinedKeep(o, n, w.keep);
      assert FrontKeep(o) == LenToKeep(o, o);
      KeptOfPrefix(if o + Kept(w.keep) <= n then o + Kept(w.keep) else n, n);
    } else {
      assert !keep[32] && w.keep[..n - o][0] && keep[o];
    }
  }

  // ---------------------------------------------------------------- down

  datatype Right = Right(remainder: bool, firstWord: bool, prev: Word, out: seq<Word>)

  function RightRead(o: nat, n: nat, s: Right, w: Word): (r: Right)
    requires o < n && Sized(w, n) && Sized(s.prev, n)
    ensures Sized(r.prev, n)
  {
    if s.firstWord then
      s.(prev := w, firstWord := w.last && o != 0, remainder := w.last)
    else
      var send := if o == 0 then w
                  else Word(s.prev.data[o..] + w.data[..o], s.prev.keep[o..] + w.keep[..o], NoneKept(w.keep[o..]));
      Right(w.last && !send.last, w.last && o != 0, w, s.out + [send])
  }

  function RightFlush(o: nat, n: nat, s: Right): Right
    requires o < n && Sized(s.prev, n)
  {
    if !s.remainder then s
    else
      var send := Word(s.prev.data[o..] + Blank(o), s.prev.keep[o..] + seq(o, _ => false), true);
      s.(remainder := false, out := s.out + [send])
  }

  function RightStep(o: nat, n: nat): (Right, Word) -> Right {
    (s: Right, w: Word) =>
      if o < n && Sized(w, n) && Sized(s.prev, n) then RightFlush(o, n, RightRead(o, n, s, w)) else s
  }

  predicate RightIdle(o: nat, n: nat, s: Right) { !s.remainder && (s.firstWord <==> o != 0) && Sized(s.prev, n) }

  function Tail(o: nat, n: nat, w: Word): Word
    requires o < n && Sized(w, n)
  {
    Word(w.data[o..] + Blank(o), w.keep[o..] + seq(o, _ => false), true)
  }

  function RightOf(o: nat, n: nat, p: seq<Word>): seq<Word>
    requires o < n && AllSized(p, n) && |p| > 0
  {
    if o == 0 then p
    else if |p| == 1 then [Tail(o, n, p[0])]
    else Merged(p[0].data[o..], p[1..], n)
  }

  predicate Keeps(o: nat, n: nat, s: Right, low: seq<Byte>) {
    && 0 < o < n && Sized(s.prev, n) && !s.remainder && !s.firstWord
    && low == s.prev.data[o..] && s.prev.keep[o..] == LenToKeep(n - o, n - o)
  }

  lemma RightOne(o: nat, n: nat, s: Right, low: seq<Byte>, w: Word)
    requires Keeps(o, n, s, low) && WellFormedWord(w, n)
    ensures
      var e := RightFlush(o, n, RightRead(o, n, s, w));
      && (!w.last ==> e.out == s.out + [Head(low, w, n)] && Keeps(o, n, e, w.data[o..]))
      && (w.last ==> RightIdle(o, n, e) && e.out == s.out + Ending(low, w, n))
  {
    hide AxiStream.Kept;
    NoneAbove(w.keep, n, o);
    JoinedKeep(n - o, n, w.keep);
    var r := RightRead(o, n, s, w);
    assert r.out == s.out + [Head(low, w, n)];
    if !w.last {
      UpperKeep(n - o, n, w);
    } else if Total(low, w) > n {
      RestKeep(n - o, n, w);
      assert RightFlush(o, n, r).out == r.out + [Rest(low, w, n)];
    }
  }

  lemma {:induction false} RightMerges(o: nat, n: nat, s: Right, low: seq<Byte>, p: seq<Word>)
    requires Keeps(o, n, s, low) && WellFormed(p, n) && AllSized(p, n)
    ensures
      var e := Feed(RightStep(o, n), s, p);
      RightIdle(o, n, e) && e.out == s.out + Merged(low, p, n)
    decreases |p|
  {
    hide AxiStream.Kept, AxiStream.BytesOf, RightRead, RightFlush, Head, Rest;
    var w := p[0];
    assert WellFormedWord(w, n);
    RightOne(o, n, s, low, w);
    SplitPacket(p, n);
    var e := RightFlush(o, n, RightRead(o, n, s, w));
    assert RightStep(o, n)(s, w) == e;
    if |p| == 1 {
      assert p[1..] == [] && w.last;
    } else {
      RightMerges(o, n, e, w.data[o..], p[1..]);
      var rest := Merged(w.data[o..], p[1..], n);
      assert s.out + [Head(low, w, n)] + rest == s.out + ([Head(low, w, n)] + rest);
    }
  }

  lemma {:induction false} RightPasses(n: nat, s: Right, p: seq<Word>)
    requires n > 0 && RightIdle(0, n, s) && AllSized(p, n)
    ensures
      var e := Feed(RightStep(0, n), s, p);
      RightIdle(0, n, e) && e.out == s.out + p
    decreases |p|
  {
    if p == [] {
      assert s.out + [] == s.out;
    } else {
      var e := RightStep(0, n)(s, p[0]);
      RightPasses(n, e, p[1..]);
      assert s.out + [p[0]] + p[1..] == s.out + p;
    }
  }

  lemma TailIs(o: nat, n: nat, w: Word)
    requires WellFormedWord(w, n) && w.last && 0 < o < Kept(w.keep)
    ensures Finished([Tail(o, n, w)], WordBytes(w)[o..], n)
  {
    hide AxiStream.Kept;
    var t, k := Tail(o, n, w), Kept(w.keep);
    assert t.keep == LenToKeep(k - o, n);
    KeptOfPrefix(k - o, n);
    OneWord(t, n);
    assert WordBytes(t) == WordBytes(w)[o..];
  }

  // A packet longer than the offset comes out without its first o bytes, whole and
  // well-formed, and the shifter is ready for the next one.
  lemma RightShifts(o: nat, n: nat, s: Right, p: seq<Word>)
    requires o < n && RightIdle(o, n, s) && WellFormed(p, n) && AllSized(p, n) && |BytesOf(p)| > o
    ensures
      var e := Feed(RightStep(o, n), s, p);
      RightIdle(o, n, e) && e.out == s.out + RightOf(o, n, p)
    ensures Finished(RightOf(o, n, p), BytesOf(p)[o..], n)
  {
    hide AxiStream.Kept, AxiStream.BytesOf;
    SplitPacket(p, n);
    var w := p[0];
    assert WellFormedWord(w, n);
    if o == 0 {
      RightPasses(n, s, p);
      assert BytesOf(p)[0..] == BytesOf(p);
    } else if |p| == 1 {
      assert p == [w] && w.last && p[1..] == [];
      BytesNone();
      assert BytesOf(p) == WordBytes(w);
      TailIs(o, n, w);
      FeedNone(RightStep(o, n), RightStep(o, n)(s, w));
    } else {
      var e := RightStep(o, n)(s, w);
      UpperKeep(n - o, n, w);
      assert Keeps(o, n, e, w.data[o..]);
      RightMerges(o, n, e, w.data[o..], p[1..]);
      MergedIs(w.data[o..], p[1..], n);
      assert WordBytes(w) == w.data by { assert w.data[..n] == w.data; }
      assert w.data[o..] + BytesOf(p[1..]) == (w.data + BytesOf(p[1..]))[o..];
    }
  }
}
