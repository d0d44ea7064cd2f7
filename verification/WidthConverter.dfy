// increaseStreamWidth and reduceStreamWidth: narrow words collected into wide ones, and
// wide ones cut up again.
module WidthConverter {
  import opened OnesComplement
  import opened AxiStream
  import opened Realign
  import opened Shifters

  // ---------------------------------------------------------------- widening

  // at is the number of narrow words collected, in bytes; wide the width of the output.
  datatype Widener = Widener(at: nat, data: seq<Byte>, keep: seq<bool>, out: seq<Word>)

  predicate Fits(s: Widener, n: nat, wide: nat) {
    |s.data| == wide && |s.keep| == wide && 0 < n && s.at + n <= wide
  }

  function Splice<T>(xs: seq<T>, at: nat, ys: seq<T>): (r: seq<T>)
    requires at + |ys| <= |xs|
    ensures |r| == |xs|
  {
    xs[..at] + ys + xs[at + |ys|..]
  }

  function WidenWord(s: Widener, w: Word, n: nat, wide: nat): Widener
    requires Fits(s, n, wide) && Sized(w, n)
  {
    var data, keep := Splice(s.data, s.at, w.data), Splice(s.keep, s.at, w.keep);
    if w.last || s.at + n == wide then
      Widener(0, data, seq(wide, _ => false), s.out + [Word(data, keep, w.last)])
    else Widener(s.at + n, data, keep, s.out)
  }

  function WidenStep(n: nat, wide: nat): (Widener, Word) -> Widener {
    (s: Widener, w: Word) => if Fits(s, n, wide) && Sized(w, n) then WidenWord(s, w, n, wide) else s
  }

  predicate Idle(s: Widener, wide: nat) { s.at == 0 && |s.data| == wide && s.keep == seq(wide, _ => false) }

  // ---------------------------------------------------------------- narrowing

  // The narrow words a wide word is cut into. A piece is the last of its packet if
  // nothing is kept beyond it, or if it is the last piece and the wide word is last.
  function Narrow(data: seq<Byte>, keep: seq<bool>, isLast: bool, n: nat): seq<Word>
    requires |data| == |keep| && n > 0
    decreases |data|
  {
    if |data| <= n then [Word(data, keep, isLast)]
    else
      var l := !keep[n];
      [Word(data[..n], keep[..n], l)] + if l then [] else Narrow(data[n..], keep[n..], isLast, n)
  }

  function NarrowAll(ws: seq<Word>, n: nat): seq<Word>
    requires n > 0 && Even(ws)
    decreases |ws|
  {
    if ws == [] then []
    else
      var w := ws[|ws| - 1];
      NarrowAll(ws[..|ws| - 1], n) + Narrow(w.data, w.keep, w.last, n)
  }

  // ---------------------------------------------------------------- what a wide word collects

  // The width is a whole number of narrow words.
  predicate Multiple(wide: nat, n: nat)
    requires n > 0
    decreases wide
  {
    wide == 0 || (wide >= n && Multiple(wide - n, n))
  }

  // The first words of data and keep are these, full, and nothing is kept after them.
  predicate Collects(data: seq<Byte>, keep: seq<bool>, at: nat, words: seq<Word>, n: nat)
    requires n > 0
    decreases |words|
  {
    && |data| == |keep| && at <= |data|
    && if words == [] then at == 0 && keep == seq(|keep|, _ => false)
       else
         && at >= n && FullWord(words[0], n) && data[..n] == words[0].data && keep[..n] == words[0].keep
         && Collects(data[n..], keep[n..], at - n, words[1..], n)
  }

  lemma FirstKept(w: Word, n: nat)
    requires WellFormedWord(w, n)
    ensures n > 0 && w.keep[0]
  {
  }

  lemma SpliceDrop<T>(xs: seq<T>, at: nat, ys: seq<T>, n: nat)
    requires at + |ys| <= |xs| && n <= at
    ensures Splice(xs, at, ys)[..n] == xs[..n] && Splice(xs, at, ys)[n..] == Splice(xs[n..], at - n, ys)
  {
  }

  lemma SpliceFirst<T>(xs: seq<T>, ys: seq<T>)
    requires |ys| <= |xs|
    ensures Splice(xs, 0, ys)[..|ys|] == ys && Splice(xs, 0, ys)[|ys|..] == xs[|ys|..]
  {
  }

  // Nothing collected: a single piece.
  lemma CutsOne(data: seq<Byte>, keep: seq<bool>, w: Word, n: nat)
    requires n > 0 && |data| == |keep| && keep == seq(|keep|, _ => false) && WellFormedWord(w, n) && n <= |data|
    requires w.last || n == |data|
    ensures Narrow(Splice(data, 0, w.data), Splice(keep, 0, w.keep), w.last, n) == [w]
  {
    hide AxiStream.Kept;
    var data', keep' := Splice(data, 0, w.data), Splice(keep, 0, w.keep);
    SpliceFirst(data, w.data);
    SpliceFirst(keep, w.keep);
    if |data| > n {
      assert !keep'[n];
    } else {
      assert data' == w.data && keep' == w.keep;
    }
  }

  // A wide word that collected words and then w, and is complete or w was last, is cut
  // into exactly these.
  lemma {:induction false} CutsBack(data: seq<Byte>, keep: seq<bool>, at: nat, words: seq<Word>, w: Word, n: nat)
    requires n > 0 && Collects(data, keep, at, words, n) && WellFormedWord(w, n) && at + n <= |data|
    requires Multiple(|data|, n) && (w.last || at + n == |data|)
    ensures Narrow(Splice(data, at, w.data), Splice(keep, at, w.keep), w.last, n) == words + [w]
    decreases |words|
  {
    hide AxiStream.Kept, Splice;
    if words == [] {
      CutsOne(data, keep, w, n);
    } else {
      SpliceDrop(data, at, w.data, n);
      SpliceDrop(keep, at, w.keep, n);
      CutsBack(data[n..], keep[n..], at - n, words[1..], w, n);
      KeptAfter(data, keep, at, words, w, n);
      assert [words[0]] + (words[1..] + [w]) == words + [w];
    }
  }

  // Something is kept right after the first word.
  lemma KeptAfter(data: seq<Byte>, keep: seq<bool>, at: nat, words: seq<Word>, w: Word, n: nat)
    requires n > 0 && words != [] && Collects(data, keep, at, words, n) && WellFormedWord(w, n) && at + n <= |data|
    ensures Splice(keep, at, w.keep)[n]
  {
    FirstKept(w, n);
    var keep' := Splice(keep, at, w.keep);
    if |words| == 1 {
      assert at == n && keep'[at] == w.keep[0];
    } else {
      var next := words[1];
      assert words[1..][0] == next && FullWord(next, n);
      assert keep[n..][..n] == next.keep;
      FullKeeps(next, n);
      assert at >= 2 * n && keep'[n] == keep[n] == keep[n..][..n][0];
    }
  }

  lemma FullKeeps(w: Word, n: nat)
    requires FullWord(w, n) && n > 0
    ensures w.keep[0]
  {
  }

  lemma {:induction false} CollectsMore(data: seq<Byte>, keep: seq<bool>, at: nat, words: seq<Word>, w: Word, n: nat)
    requires n > 0 && Collects(data, keep, at, words, n) && FullWord(w, n) && at + n <= |data|
    ensures Collects(Splice(data, at, w.data), Splice(keep, at, w.keep), at + n, words + [w], n)
    decreases |words|
  {
    hide AxiStream.Kept, Splice;
    if words == [] {
      SpliceFirst(data, w.data);
      SpliceFirst(keep, w.keep);
      assert (words + [w])[1..] == [] && keep[n..] == seq(|keep[n..]|, _ => false);
    } else {
      SpliceDrop(data, at, w.data, n);
      SpliceDrop(keep, at, w.keep, n);
      CollectsMore(data[n..], keep[n..], at - n, words[1..], w, n);
      assert (words + [w])[1..] == words[1..] + [w];
    }
  }

  // ---------------------------------------------------------------- there and back

  // What has come out, cut up again, and what is still collected.
  predicate Tracks(s: Widener, fed: seq<Word>, words: seq<Word>, n: nat, wide: nat)
    requires n > 0
  {
    && Fits(s, n, wide) && Even(s.out) && Collects(s.data, s.keep, s.at, words, n)
    && NarrowAll(s.out, n) + words == fed
  }

  lemma {:induction false} CollectsMultiple(data: seq<Byte>, keep: seq<bool>, at: nat, words: seq<Word>, n: nat)
    requires n > 0 && Collects(data, keep, at, words, n) && Multiple(|data|, n)
    ensures at == |data| || at + n <= |data|
    decreases |words|
  {
    if words != [] {
      CollectsMultiple(data[n..], keep[n..], at - n, words[1..], n);
    }
  }

  lemma NarrowSnoc(ws: seq<Word>, w: Word, n: nat)
    requires n > 0 && Even(ws) && |w.data| == |w.keep|
    ensures Even(ws + [w]) && NarrowAll(ws + [w], n) == NarrowAll(ws, n) + Narrow(w.data, w.keep, w.last, n)
  {
    assert (ws + [w])[..|ws|] == ws;
  }

  lemma WidensOne(s: Widener, fed: seq<Word>, words: seq<Word>, w: Word, n: nat, wide: nat) returns (words': seq<Word>)
    requires n > 0 && Multiple(wide, n) && Tracks(s, fed, words, n, wide) && WellFormedWord(w, n)
    ensures Tracks(WidenWord(s, w, n, wide), fed + [w], words', n, wide)
    ensures w.last ==> Idle(WidenWord(s, w, n, wide), wide) && words' == []
  {
    hide AxiStream.Kept, Narrow, NarrowAll;
    var data, keep := Splice(s.data, s.at, w.data), Splice(s.keep, s.at, w.keep);
    if w.last || s.at + n == wide {
      CutsBack(s.data, s.keep, s.at, words, w, n);
      NarrowSnoc(s.out, Word(data, keep, w.last), n);
      words' := [];
      assert NarrowAll(s.out, n) + (words + [w]) == fed + [w];
    } else {
      CollectsMore(s.data, s.keep, s.at, words, w, n);
      words' := words + [w];
      CollectsMultiple(data, keep, s.at + n, words', n);
      assert NarrowAll(s.out, n) + (words + [w]) == fed + [w];
    }
  }

  lemma {:induction false} WidensPacket(s: Widener, fed: seq<Word>, words: seq<Word>, p: seq<Word>, n: nat, wide: nat)
    requires n > 0 && Multiple(wide, n) && Tracks(s, fed, words, n, wide) && WellFormed(p, n)
    ensures
      var e := Feed(WidenStep(n, wide), s, p);
      Idle(e, wide) && Even(e.out) && NarrowAll(e.out, n) == fed + p
    decreases |p|
  {
    hide AxiStream.Kept, AxiStream.BytesOf, Narrow, NarrowAll, WidenWord, Collects;
    var w := p[0];
    assert WellFormedWord(w, n);
    var words' := WidensOne(s, fed, words, w, n, wide);
    var e := WidenStep(n, wide)(s, w);
    assert e == WidenWord(s, w, n, wide);
    SplitPacket(p, n);
    if |p| == 1 {
      assert p[1..] == [] && w.last && p == [w];
      assert NarrowAll(e.out, n) + [] == NarrowAll(e.out, n);
    } else {
      WidensPacket(e, fed + [w], words', p[1..], n, wide);
      assert fed + [w] + p[1..] == fed + p;
    }
  }

  lemma WidenNarrowWide(s: Widener, ps: seq<seq<Word>>, n: nat, wide: nat)
    requires 0 < n <= wide && Multiple(wide, n) && Idle(s, wide) && s.out == [] && AllWellFormed(ps, n)
    ensures
      var e := Feed(WidenStep(n, wide), s, Flatten(ps));
      Idle(e, wide) && Even(e.out) && NarrowAll(e.out, n) == Flatten(ps)
  {
    hide AxiStream.Kept, Narrow;
    var idle := (x: Widener) => Idle(x, wide) && Even(x.out);
    var out := (x: Widener) => if Even(x.out) then NarrowAll(x.out, n) else [];
    var f := (p: seq<Word>) => p;
    forall i | 0 <= i < |ps| ensures Turns(WidenStep(n, wide), idle, out, f, ps[i]) {
      forall x | idle(x)
        ensures idle(Feed(WidenStep(n, wide), x, ps[i])) && out(Feed(WidenStep(n, wide), x, ps[i])) == out(x) + f(ps[i])
      {
        assert NarrowAll(x.out, n) + [] == NarrowAll(x.out, n);
        WidensPacket(x, NarrowAll(x.out, n), [], ps[i], n, wide);
      }
    }
    BackToBack(WidenStep(n, wide), s, ps, idle, out, f);
    assert Each(ps, f) == ps;
    assert NarrowAll([], n) + Flatten(ps) == Flatten(ps);
  }

  lemma {:induction false} Multiples(factor: nat, n: nat)
    requires n > 0
    ensures Multiple(factor * n, n)
    decreases factor
  {
    if factor > 0 {
      Multiples(factor - 1, n);
      assert factor * n == (factor - 1) * n + n;
    }
  }

  // For any packets back to back and any factor: widening and narrowing again gives the
  // very same words, and the widener is back in its initial state after each packet.
  lemma WidenNarrow(s: Widener, ps: seq<seq<Word>>, n: nat, factor: nat)
    requires 0 < n && factor > 0 && Idle(s, factor * n) && s.out == [] && AllWellFormed(ps, n)
    ensures
      var e := Feed(WidenStep(n, factor * n), s, Flatten(ps));
      Idle(e, factor * n) && Even(e.out) && NarrowAll(e.out, n) == Flatten(ps)
  {
    Multiples(factor, n);
    assert factor * n == (factor - 1) * n + n;
    WidenNarrowWide(s, ps, n, factor * n);
  }
}
