// Joining words at an offset: what is held of one word goes in front of the next.
module Realign {
  import opened OnesComplement
  import opened AxiStream

  predicate FullWord(w: Word, n: nat) { Sized(w, n) && Contiguous(w.keep) && Kept(w.keep) == n && !w.last }

  predicate AllFull(q: seq<Word>, n: nat) { forall i :: 0 <= i < |q| ==> FullWord(q[i], n) }

  // One well-formed packet holding exactly these bytes.
  predicate Finished(q: seq<Word>, bs: seq<Byte>, n: nat) { WellFormed(q, n) && BytesOf(q) == bs }

  function LenToKeep(k: nat, n: nat): seq<bool> { seq(n, i => i < k) }

  lemma {:induction false} KeptOfPrefix(k: nat, n: nat)
    requires k <= n
    ensures Kept(LenToKeep(k, n)) == k && Contiguous(LenToKeep(k, n))
    decreases n
  {
    if n > 0 && k > 0 {
      assert LenToKeep(k, n)[1..] == LenToKeep(k - 1, n - 1);
      KeptOfPrefix(k - 1, n - 1);
    }
  }

  // ---------------------------------------------------------------- bytes of word sequences

  predicate Even(ws: seq<Word>) { forall i :: 0 <= i < |ws| ==> |ws[i].keep| == |ws[i].data| }

  lemma BytesNone()
    ensures BytesOf([]) == []
  {
  }

  lemma BytesSnoc(q: seq<Word>, w: Word)
    requires Even(q) && |w.keep| == |w.data|
    ensures BytesOf(q + [w]) == BytesOf(q) + WordBytes(w)
  {
    assert (q + [w])[..|q|] == q;
  }

  lemma {:induction false} BytesConcat(a: seq<Word>, b: seq<Word>)
    requires Even(a) && Even(b)
    ensures Even(a + b) && BytesOf(a + b) == BytesOf(a) + BytesOf(b)
    decreases |b|
  {
    hide AxiStream.BytesOf, AxiStream.Kept;
    if b == [] {
      assert a + b == a;
      BytesNone();
    } else {
      var n := |b| - 1;
      BytesConcat(a, b[..n]);
      BytesSnoc(a + b[..n], b[n]);
      BytesSnoc(b[..n], b[n]);
      assert b[..n] + [b[n]] == b && a + b[..n] + [b[n]] == a + b;
    }
  }

  lemma BytesCons(w: Word, ws: seq<Word>)
    requires Even(ws) && |w.keep| == |w.data|
    ensures BytesOf([w] + ws) == WordBytes(w) + BytesOf(ws)
  {
    hide AxiStream.BytesOf, AxiStream.Kept;
    BytesConcat([w], ws);
    BytesNone();
    BytesSnoc([], w);
    assert [] + [w] == [w];
  }

  lemma ContinueWith(q: seq<Word>, w: Word, n: nat)
    requires AllFull(q, n) && FullWord(w, n)
    ensures AllFull(q + [w], n) && BytesOf(q + [w]) == BytesOf(q) + w.data
  {
    BytesSnoc(q, w);
    assert w.data[..n] == w.data;
  }

  lemma FinishWith(q: seq<Word>, w: Word, n: nat)
    requires AllFull(q, n) && WellFormedWord(w, n) && w.last
    ensures WellFormed(q + [w], n) && BytesOf(q + [w]) == BytesOf(q) + WordBytes(w)
  {
    BytesSnoc(q, w);
  }

  // A full word in front of a packet.
  lemma FullFirst(w: Word, q: seq<Word>, bs: seq<Byte>, n: nat)
    requires FullWord(w, n) && Finished(q, bs, n) && n > 0
    ensures Finished([w] + q, w.data + bs, n)
  {
    hide AxiStream.BytesOf, AxiStream.Kept;
    BytesCons(w, q);
    assert w.data[..n] == w.data;
    var p := [w] + q;
    forall i | 0 <= i < |p|
      ensures WellFormedWord(p[i], n) && (p[i].last <==> i == |p| - 1)
    {
      if i > 0 { assert p[i] == q[i - 1]; }
    }
  }

  lemma OneWord(w: Word, n: nat)
    requires WellFormedWord(w, n) && w.last
    ensures Finished([w], WordBytes(w), n)
  {
    hide AxiStream.Kept;
    BytesCons(w, []);
    BytesNone();
    assert [w] + [] == [w];
  }

  // A packet begins with a full word unless it is a single one.
  lemma SplitPacket(p: seq<Word>, n: nat)
    requires WellFormed(p, n)
    ensures p == [p[0]] + p[1..]
    ensures BytesOf(p) == WordBytes(p[0]) + BytesOf(p[1..])
    ensures |p| > 1 ==> FullWord(p[0], n) && WellFormed(p[1..], n)
  {
    hide AxiStream.BytesOf, AxiStream.Kept;
    BytesCons(p[0], p[1..]);
    if |p| > 1 {
      assert WellFormedWord(p[0], n) && !p[0].last;
      forall i | 0 <= i < |p[1..]|
        ensures WellFormedWord(p[1..][i], n) && (p[1..][i].last <==> i == |p[1..]| - 1)
      {
        assert p[1..][i] == p[i + 1];
      }
    }
  }

  // ---------------------------------------------------------------- joining

  // Held bytes, then the lower part of the next word.
  function Joined(low: seq<Byte>, next: seq<Byte>): seq<Byte>
    requires |low| <= |next|
  {
    low + next[..|next| - |low|]
  }

  function Total(low: seq<Byte>, w: Word): nat { |low| + Kept(w.keep) }

  // The word sent on reading w, and the one still to come if w is the last and does not
  // fit.
  function Head(low: seq<Byte>, w: Word, n: nat): Word
    requires Sized(w, n) && |low| <= n
  {
    var k := Total(low, w);
    Word(Joined(low, w.data), LenToKeep(if k <= n then k else n, n), k <= n)
  }

  function Rest(low: seq<Byte>, w: Word, n: nat): Word
    requires Sized(w, n) && |low| <= n && Total(low, w) >= n
  {
    Word(w.data[n - |low|..] + seq(n - |low|, _ => 0), LenToKeep(Total(low, w) - n, n), true)
  }

  lemma HeadFull(low: seq<Byte>, w: Word, n: nat)
    requires FullWord(w, n) && 0 < |low| < n
    ensures FullWord(Head(low, w, n), n) && Head(low, w, n).data + w.data[n - |low|..] == low + w.data
  {
    hide AxiStream.Kept;
    KeptOfPrefix(n, n);
  }

  lemma HeadFits(low: seq<Byte>, w: Word, n: nat)
    requires WellFormedWord(w, n) && w.last && |low| < n && Total(low, w) <= n
    ensures Finished([Head(low, w, n)], low + WordBytes(w), n)
  {
    hide AxiStream.Kept;
    KeptOfPrefix(Total(low, w), n);
    OneWord(Head(low, w, n), n);
    assert WordBytes(Head(low, w, n)) == low + WordBytes(w);
  }

  lemma HeadSpills(low: seq<Byte>, w: Word, n: nat)
    requires WellFormedWord(w, n) && w.last && 0 < |low| < n && Total(low, w) > n
    ensures Finished([Head(low, w, n), Rest(low, w, n)], low + WordBytes(w), n)
  {
    hide AxiStream.Kept, AxiStream.BytesOf;
    var k, cut := Kept(w.keep), n - |low|;
    var head, rest := Head(low, w, n), Rest(low, w, n);
    KeptOfPrefix(n, n);
    KeptOfPrefix(k - cut, n);
    OneWord(rest, n);
    FullFirst(head, [rest], WordBytes(rest), n);
    assert [head] + [rest] == [head, rest];
    assert WordBytes(rest) == w.data[cut..k];
    assert head.data + w.data[cut..k] == low + w.data[..k];
  }

  // Everything sent on reading a last word.
  function Ending(low: seq<Byte>, w: Word, n: nat): seq<Word>
    requires Sized(w, n) && |low| <= n
  {
    if Total(low, w) > n then [Head(low, w, n), Rest(low, w, n)] else [Head(low, w, n)]
  }

  // Everything sent on reading packet p with low held.
  function Merged(low: seq<Byte>, p: seq<Word>, n: nat): seq<Word>
    requires AllSized(p, n) && |low| <= n
    decreases |p|
  {
    if p == [] then []
    else
      var w := p[0];
      if w.last then Ending(low, w, n) else [Head(low, w, n)] + Merged(w.data[n - |low|..], p[1..], n)
  }

  // One packet: the held bytes, then the packet's.
  lemma {:induction false} MergedIs(low: seq<Byte>, p: seq<Word>, n: nat)
    requires WellFormed(p, n) && AllSized(p, n) && 0 < |low| < n
    ensures Finished(Merged(low, p, n), low + BytesOf(p), n)
    decreases |p|
  {
    hide AxiStream.Kept, AxiStream.BytesOf, Head, Rest;
    var w := p[0];
    SplitPacket(p, n);
    assert WellFormedWord(w, n);
    if |p| == 1 {
      assert p[1..] == [];
      BytesNone();
      if Total(low, w) <= n {
        HeadFits(low, w, n);
      } else {
        HeadSpills(low, w, n);
      }
      assert w.last && WordBytes(w) + [] == WordBytes(w);
    } else {
      var held := w.data[n - |low|..];
      MergedIs(held, p[1..], n);
      HeadFull(low, w, n);
      FullFirst(Head(low, w, n), Merged(held, p[1..], n), held + BytesOf(p[1..]), n);
      assert WordBytes(w) == w.data by { assert w.data[..n] == w.data; }
      var rest := BytesOf(p[1..]);
      assert Head(low, w, n).data + (held + rest) == (Head(low, w, n).data + held) + rest;
      assert (low + w.data) + rest == low + (w.data + rest);
    }
  }

  // ---------------------------------------------------------------- machines fed word by word

  function Feed<S>(step: (S, Word) -> S, s: S, ws: seq<Word>): S
    decreases |ws|
  {
    if ws == [] then s else Feed(step, step(s, ws[0]), ws[1..])
  }

  lemma {:induction false} FeedConcat<S>(step: (S, Word) -> S, s: S, a: seq<Word>, b: seq<Word>)
    ensures Feed(step, s, a + b) == Feed(step, Feed(step, s, a), b)
    decreases |a|
  {
    if a == [] {
      assert a + b == b;
    } else {
      assert (a + b)[0] == a[0] && (a + b)[1..] == a[1..] + b;
      FeedConcat(step, step(s, a[0]), a[1..], b);
    }
  }

  lemma FeedOne<S>(step: (S, Word) -> S, s: S, ws: seq<Word>)
    requires ws != []
    ensures Feed(step, s, ws) == Feed(step, step(s, ws[0]), ws[1..])
  {
  }

  function Each(ps: seq<seq<Word>>, f: seq<Word> -> seq<Word>): seq<seq<Word>> {
    seq(|ps|, i requires 0 <= i < |ps| => f(ps[i]))
  }

  // Whenever idle, the machine turns packet p into f(p) and is idle again.
  ghost predicate Turns<S(!new)>(step: (S, Word) -> S, idle: S -> bool, out: S -> seq<Word>,
                                 f: seq<Word> -> seq<Word>, p: seq<Word>) {
    forall x {:trigger Feed(step, x, p)} :: idle(x) ==>
      idle(Feed(step, x, p)) && out(Feed(step, x, p)) == out(x) + f(p)
  }

  // Such a machine does so for any number of packets back to back.
  lemma {:induction false} BackToBack<S(!new)>(step: (S, Word) -> S, s: S, ps: seq<seq<Word>>,
                                               idle: S -> bool, out: S -> seq<Word>, f: seq<Word> -> seq<Word>)
    requires idle(s) && forall i :: 0 <= i < |ps| ==> Turns(step, idle, out, f, ps[i])
    ensures idle(Feed(step, s, Flatten(ps))) && out(Feed(step, s, Flatten(ps))) == out(s) + Flatten(Each(ps, f))
    decreases |ps|
  {
    hide Feed;
    if ps == [] {
      FeedNone(step, s);
      assert out(s) + [] == out(s);
    } else {
      var n := |ps| - 1;
      BackToBack(step, s, ps[..n], idle, out, f);
      FeedConcat(step, s, Flatten(ps[..n]), ps[n]);
      var mid := Feed(step, s, Flatten(ps[..n]));
      assert Turns(step, idle, out, f, ps[n]);
      assert idle(Feed(step, mid, ps[n]));
      assert Each(ps, f)[..n] == Each(ps[..n], f);
      assert out(s) + Flatten(Each(ps[..n], f)) + f(ps[n]) == out(s) + Flatten(Each(ps, f));
    }
  }

  lemma FeedNone<S>(step: (S, Word) -> S, s: S)
    ensures Feed(step, s, []) == s
  {
  }
}
