// The checksum pipeline: 16-bit lanes summed side by side over the words of a packet,
// then folded in a tree.
module LaneChecksum {
  import opened OnesComplement
  import opened AxiStream

  // ---------------------------------------------------------------- lanes

  // The 16-bit word lane i adds.
  function LaneValue(w: Word, i: nat): (v: nat)
    requires |w.data| == |w.keep| && 2 * i + 1 < |w.data|
    ensures v < 0x1_0000
  {
    var hi: nat, lo: nat := w.data[2 * i], w.data[2 * i + 1];
    if w.keep[2 * i] && w.keep[2 * i + 1] then hi * 0x100 + lo else if w.keep[2 * i] then hi * 0x100 else 0
  }

  // One word through the lane registers.
  function AddLanes(sums: seq<nat>, w: Word): (r: seq<nat>)
    requires Sized(w, 2 * |sums|)
    ensures |r| == |sums|
  {
    seq(|sums|, i requires 0 <= i < |sums| => if w.keep[2 * i] then Fold(sums[i] + LaneValue(w, i)) else sums[i])
  }

  function Zeros(n: nat): seq<nat> { seq(n, _ => 0) }

  function Lanes(w: Word, n: nat): seq<nat>
    requires Sized(w, 2 * n)
  {
    seq(n, i requires 0 <= i < n => LaneValue(w, i))
  }

  function Plus(xs: seq<nat>, ys: seq<nat>): seq<nat>
    requires |xs| == |ys|
  {
    seq(|xs|, i requires 0 <= i < |xs| => xs[i] + ys[i])
  }

  // What the lanes add up to without folding.
  function Totals(ws: seq<Word>, n: nat): (r: seq<nat>)
    requires AllSized(ws, 2 * n)
    ensures |r| == n
    decreases |ws|
  {
    if ws == [] then Zeros(n) else Plus(Totals(ws[..|ws| - 1], n), Lanes(ws[|ws| - 1], n))
  }

  // The lane registers after the words, starting from zero.
  function LaneSums(ws: seq<Word>, n: nat): (r: seq<nat>)
    requires AllSized(ws, 2 * n)
    ensures |r| == n
    decreases |ws|
  {
    if ws == [] then Zeros(n) else AddLanes(LaneSums(ws[..|ws| - 1], n), ws[|ws| - 1])
  }

  function OnesOf(xs: seq<nat>): seq<nat> { seq(|xs|, i requires 0 <= i < |xs| => Ones(xs[i])) }

  lemma AddLanesHolds(xs: seq<nat>, w: Word)
    requires Sized(w, 2 * |xs|)
    ensures AddLanes(OnesOf(xs), w) == OnesOf(Plus(xs, Lanes(w, |xs|)))
  {
    hide OnesComplement.Fold, OnesComplement.Ones;
    forall i | 0 <= i < |xs|
      ensures AddLanes(OnesOf(xs), w)[i] == Ones(xs[i] + LaneValue(w, i))
    {
      FoldAddsWord(xs[i], LaneValue(w, i));
    }
  }

  // Every register holds its lane's total, folded; none overflows.
  lemma {:induction false} LanesHoldTotals(ws: seq<Word>, n: nat)
    requires AllSized(ws, 2 * n)
    ensures LaneSums(ws, n) == OnesOf(Totals(ws, n))
    decreases |ws|
  {
    hide OnesComplement.Ones, AddLanes, Lanes, Plus;
    if ws == [] {
      OnesOfZeros(n);
    } else {
      LanesHoldTotals(ws[..|ws| - 1], n);
      AddLanesHolds(Totals(ws[..|ws| - 1], n), ws[|ws| - 1]);
    }
  }

  lemma OnesOfZeros(n: nat)
    ensures OnesOf(Zeros(n)) == Zeros(n)
  {
  }

  // ---------------------------------------------------------------- lanes add up to the packet

  function Sum(xs: seq<nat>): nat
    decreases |xs|
  {
    if xs == [] then 0 else Sum(xs[..|xs| - 1]) + xs[|xs| - 1]
  }

  lemma {:induction false} SumPlus(xs: seq<nat>, ys: seq<nat>)
    requires |xs| == |ys|
    ensures Sum(Plus(xs, ys)) == Sum(xs) + Sum(ys)
    decreases |xs|
  {
    if xs != [] {
      var n := |xs| - 1;
      assert Plus(xs, ys)[..n] == Plus(xs[..n], ys[..n]);
      SumPlus(xs[..n], ys[..n]);
    }
  }

  lemma {:induction false} SumConcat(xs: seq<nat>, ys: seq<nat>)
    ensures Sum(xs + ys) == Sum(xs) + Sum(ys)
    decreases |ys|
  {
    if ys == [] {
      assert xs + ys == xs;
    } else {
      assert (xs + ys)[..|xs + ys| - 1] == xs + ys[..|ys| - 1];
      SumConcat(xs, ys[..|ys| - 1]);
    }
  }

  lemma {:induction false} SumZeros(n: nat)
    ensures Sum(Zeros(n)) == 0
    decreases n
  {
    if n > 0 {
      assert Zeros(n)[..n - 1] == Zeros(n - 1);
      SumZeros(n - 1);
    }
  }

  // A string of even length in front.
  lemma {:induction false} SumWordsConcat(a: seq<Byte>, b: seq<Byte>)
    requires |a| % 2 == 0
    ensures SumWords(a + b) == SumWords(a) + SumWords(b)
    decreases |a|
  {
    if a == [] {
      assert a + b == b;
    } else {
      assert (a + b)[2..] == a[2..] + b;
      SumWordsConcat(a[2..], b);
    }
  }

  function Cut(m: nat, k: nat): nat { if m < k then m else k }

  lemma LaneStep(w: Word, n: nat, m: nat)
    requires WellFormedWord(w, 2 * n) && m < n
    ensures
      var k := Kept(w.keep);
      SumWords(w.data[..Cut(2 * m + 2, k)]) == SumWords(w.data[..Cut(2 * m, k)]) + LaneValue(w, m)
  {
    var k := Kept(w.keep);
    if 2 * m < k {
      var front, back := w.data[..2 * m], w.data[2 * m..Cut(2 * m + 2, k)];
      SumWordsConcat(front, back);
      assert w.data[..Cut(2 * m + 2, k)] == front + back;
      ShortSum(back);
    }
  }

  lemma ShortSum(bs: seq<Byte>)
    requires 1 <= |bs| <= 2
    ensures
      var hi: nat, lo: nat := bs[0], if |bs| == 2 then bs[1] else 0;
      SumWords(bs) == hi * 0x100 + lo
  {
    if |bs| == 2 {
      assert bs[2..] == [];
    }
  }

  // The first m lanes of a word hold its first 2m bytes, cut off where the word ends.
  lemma {:induction false} LanesHoldBytes(w: Word, n: nat, m: nat)
    requires WellFormedWord(w, 2 * n) && m <= n
    ensures Sum(Lanes(w, n)[..m]) == SumWords(w.data[..Cut(2 * m, Kept(w.keep))])
    decreases m
  {
    hide OnesComplement.SumWords, LaneValue;
    if m == 0 {
      assert w.data[..0] == [];
      NoBytes();
    } else {
      LanesHoldBytes(w, n, m - 1);
      LaneStep(w, n, m - 1);
      assert Lanes(w, n)[..m][..m - 1] == Lanes(w, n)[..m - 1];
    }
  }

  lemma NoBytes()
    ensures SumWords([]) == 0
  {
  }

  lemma {:induction false} TotalsAreTheBytes(ws: seq<Word>, n: nat)
    requires AllSized(ws, 2 * n) && forall i :: 0 <= i < |ws| ==> WellFormedWord(ws[i], 2 * n)
    requires forall i :: 0 <= i < |ws| - 1 ==> !ws[i].last
    ensures Sum(Totals(ws, n)) == SumWords(BytesOf(ws))
    ensures (forall i :: 0 <= i < |ws| ==> !ws[i].last) ==> |BytesOf(ws)| % 2 == 0
    decreases |ws|
  {
    hide LaneValue, OnesComplement.SumWords;
    if ws == [] {
      SumZeros(n);
      NoBytes();
    } else {
      var front, w := ws[..|ws| - 1], ws[|ws| - 1];
      TotalsAreTheBytes(front, n);
      SumPlus(Totals(front, n), Lanes(w, n));
      LanesHoldBytes(w, n, n);
      assert Lanes(w, n)[..n] == Lanes(w, n);
      SumWordsConcat(BytesOf(front), WordBytes(w));
    }
  }

  // ---------------------------------------------------------------- the tree

  function FoldPairs(a: seq<nat>, b: seq<nat>): (r: seq<nat>)
    requires |a| == |b|
    ensures |r| == |a| && forall i :: 0 <= i < |r| ==> r[i] < 0x1_0000
  {
    seq(|a|, i requires 0 <= i < |a| => Fold(a[i] + b[i]))
  }

  // The upper half of the lanes folded onto the lower.
  function Halve(s: seq<nat>): (r: seq<nat>)
    requires |s| % 2 == 0
    ensures |r| == |s| / 2 && forall i :: 0 <= i < |r| ==> r[i] < 0x1_0000
  {
    FoldPairs(s[..|s| / 2], s[|s| / 2..])
  }

  predicate LaneCount(n: nat) { n == 1 || n == 2 || n == 4 || n == 8 || n == 16 || n == 32 }

  function Reduce(s: seq<nat>): nat
    requires LaneCount(|s|)
    decreases |s|
  {
    if |s| == 1 then s[0] else Reduce(Halve(s))
  }

  // The low 16 bits of the complemented 17-bit register.
  function Complement(x: nat): nat { (0x1_FFFF - x) % 0x1_0000 }

  function Finalize(s: seq<nat>): nat
    requires LaneCount(|s|)
  {
    Complement(Reduce(s))
  }

  lemma HalveHolds(lo: seq<nat>, hi: seq<nat>)
    requires |lo| == |hi|
    ensures Halve(OnesOf(lo + hi)) == OnesOf(Plus(lo, hi))
  {
    var s := OnesOf(lo + hi);
    assert s[..|lo|] == OnesOf(lo) && s[|lo|..] == OnesOf(hi);
    FoldPairsHolds(lo, hi);
  }

  lemma FoldPairsHolds(lo: seq<nat>, hi: seq<nat>)
    requires |lo| == |hi|
    ensures FoldPairs(OnesOf(lo), OnesOf(hi)) == OnesOf(Plus(lo, hi))
  {
    hide OnesComplement.Fold, OnesComplement.Ones;
    forall i | 0 <= i < |lo| ensures FoldPairs(OnesOf(lo), OnesOf(hi))[i] == Ones(lo[i] + hi[i]) {
      FoldAdds(lo[i], hi[i]);
    }
  }

  // The tree folds to the register of the whole sum.
  lemma {:induction false} ReduceIsOnes(xs: seq<nat>)
    requires LaneCount(|xs|)
    ensures Reduce(OnesOf(xs)) == Ones(Sum(xs))
    decreases |xs|
  {
    hide OnesComplement.Ones, Halve;
    if |xs| == 1 {
      assert xs[..0] == [];
    } else {
      var lo, hi := xs[..|xs| / 2], xs[|xs| / 2..];
      assert lo + hi == xs;
      HalveHolds(lo, hi);
      ReduceIsOnes(Plus(lo, hi));
      SumPlus(lo, hi);
      SumConcat(lo, hi);
    }
  }

  // ---------------------------------------------------------------- the main result

  // For a packet of any length, an odd last byte included, lanes and tree give the
  // checksum of section 1 of RFC 1071.
  lemma LanesComputeChecksum(p: seq<Word>, n: nat)
    requires LaneCount(n) && WellFormed(p, 2 * n)
    ensures Finalize(LaneSums(p, n)) == Rfc1071(BytesOf(p))
  {
    hide LaneValue, OnesComplement.SumWords, OnesComplement.Ones, LaneSums, Totals, Reduce, OnesComplement.FoldAll;
    assert forall i :: 0 <= i < |p| ==> WellFormedWord(p[i], 2 * n);
    LanesHoldTotals(p, n);
    TotalsAreTheBytes(p, n);
    ReduceIsOnes(Totals(p, n));
    FoldAllIsOnes(SumWords(BytesOf(p)));
  }

  // A packet passes the check iff its words, its checksum field among them, sum to a
  // positive multiple of 65535.
  lemma CheckIff(p: seq<Word>, n: nat)
    requires LaneCount(n) && WellFormed(p, 2 * n)
    ensures
      var total := SumWords(BytesOf(p));
      Finalize(LaneSums(p, n)) == 0 <==> total > 0 && total % 0xFFFF == 0
  {
    hide OnesComplement.SumWords, LaneSums, Reduce, AxiStream.BytesOf, OnesComplement.FoldAll;
    LanesComputeChecksum(p, n);
    FoldAllIsOnes(SumWords(BytesOf(p)));
  }

  // ---------------------------------------------------------------- back to back

  // The stage over a stream: sums so far, and the sums sent off at each last word.
  function Stage(words: seq<Word>, n: nat): (r: (seq<nat>, seq<seq<nat>>))
    requires AllSized(words, 2 * n)
    ensures |r.0| == n
    decreases |words|
  {
    if words == [] then (Zeros(n), [])
    else
      var (sums, out) := Stage(words[..|words| - 1], n);
      var w := words[|words| - 1];
      var sums' := AddLanes(sums, w);
      if w.last then (Zeros(n), out + [sums']) else (sums', out)
  }

  lemma {:induction false} StagePacket(before: seq<Word>, p: seq<Word>, k: nat, n: nat)
    requires AllSized(before, 2 * n) && AllSized(p, 2 * n) && k <= |p|
    requires Stage(before, n).0 == Zeros(n)
    requires forall i :: 0 <= i < k ==> (p[i].last ==> i == |p| - 1)
    ensures k < |p| || |p| == 0 || !p[|p| - 1].last ==>
              Stage(before + p[..k], n) == (LaneSums(p[..k], n), Stage(before, n).1)
    ensures k == |p| && |p| > 0 && p[|p| - 1].last ==>
              Stage(before + p[..k], n) == (Zeros(n), Stage(before, n).1 + [LaneSums(p, n)])
    decreases k
  {
    if k == 0 {
      assert before + p[..0] == before;
    } else {
      StagePacket(before, p, k - 1, n);
      assert (before + p[..k])[..|before| + k - 1] == before + p[..k - 1];
      assert p[..k][..k - 1] == p[..k - 1];
      if k == |p| { assert p[..k] == p; }
    }
  }

  lemma {:induction false} FlattenSized(ps: seq<seq<Word>>, width: nat)
    requires AllWellFormed(ps, width)
    ensures AllSized(Flatten(ps), width)
    decreases |ps|
  {
    if ps != [] {
      FlattenSized(ps[..|ps| - 1], width);
      var p := ps[|ps| - 1];
      assert forall i :: 0 <= i < |p| ==> WellFormedWord(p[i], width);
    }
  }

  // Packets back to back: one set of sums per packet, each the packet's own, and the
  // registers clear again in between.
  lemma {:induction false} StagePackets(ps: seq<seq<Word>>, n: nat)
    requires AllWellFormed(ps, 2 * n)
    ensures AllSized(Flatten(ps), 2 * n) && Stage(Flatten(ps), n).0 == Zeros(n)
    ensures |Stage(Flatten(ps), n).1| == |ps|
    ensures forall i :: 0 <= i < |ps| ==> AllSized(ps[i], 2 * n) && Stage(Flatten(ps), n).1[i] == LaneSums(ps[i], n)
    decreases |ps|
  {
    hide AddLanes, LaneSums;
    FlattenSized(ps, 2 * n);
    if ps != [] {
      var before, p := ps[..|ps| - 1], ps[|ps| - 1];
      StagePackets(before, n);
      assert forall i :: 0 <= i < |p| ==> WellFormedWord(p[i], 2 * n);
      StagePacket(Flatten(before), p, |p|, n);
      assert p[..|p|] == p;
    }
  }
}
