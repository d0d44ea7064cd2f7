// The IPv4 header checksum on 512-bit words: computed with its own field left out,
// written into the header, and checked on the other side.
module Ipv4Checksum {
  import opened OnesComplement
  import opened AxiStream
  import opened LaneChecksum

  const WIDTH: nat := 64
  const LANES: nat := 32
  const FIELD: nat := 5

  function HeaderLength(w: Word): nat
    requires Sized(w, WIDTH)
  {
    w.data[0] % 16
  }

  function BigEndian(hi: nat, lo: nat): nat { hi * 0x100 + lo }

  // A lane takes part if it lies inside the header and is not skipped.
  predicate Included(w: Word, skip: bool, i: nat)
    requires Sized(w, WIDTH)
  {
    (!skip || i != FIELD) && i / 2 < HeaderLength(w)
  }

  function HeaderLane(w: Word, skip: bool, i: nat): nat
    requires Sized(w, WIDTH) && i < LANES
  {
    if Included(w, skip, i) then BigEndian(w.data[2 * i], w.data[2 * i + 1]) else 0
  }

  // The first word of a packet through the lane registers.
  function HeaderSums(sums: seq<nat>, w: Word, skip: bool): (r: seq<nat>)
    requires Sized(w, WIDTH) && |sums| == LANES
    ensures |r| == LANES
  {
    seq(LANES, i requires 0 <= i < LANES =>
      if Included(w, skip, i) then Fold(sums[i] + HeaderLane(w, skip, i)) else sums[i])
  }

  function HeaderLanes(w: Word, skip: bool): (r: seq<nat>)
    requires Sized(w, WIDTH)
    ensures |r| == LANES
  {
    seq(LANES, i requires 0 <= i < LANES => HeaderLane(w, skip, i))
  }

  function Checksum(w: Word): nat
    requires Sized(w, WIDTH)
  {
    Finalize(HeaderSums(Zeros(LANES), w, true))
  }

  predicate Check(w: Word)
    requires Sized(w, WIDTH)
  {
    Finalize(HeaderSums(Zeros(LANES), w, false)) == 0
  }

  // The checksum is written with its bytes swapped into the byte-reversed bus word, so
  // it ends up big-endian in bytes 10 and 11.
  function Insert(w: Word, checksum: nat): (w': Word)
    requires Sized(w, WIDTH) && checksum < 0x1_0000
    ensures Sized(w', WIDTH)
  {
    w.(data := w.data[10 := checksum / 0x100][11 := checksum % 0x100])
  }

  // ---------------------------------------------------------------- the lanes' sum

  lemma HeaderSumsHold(w: Word, skip: bool)
    requires Sized(w, WIDTH)
    ensures HeaderSums(Zeros(LANES), w, skip) == OnesOf(HeaderLanes(w, skip))
  {
    hide OnesComplement.Fold, OnesComplement.Ones;
    forall i | 0 <= i < LANES
      ensures HeaderSums(Zeros(LANES), w, skip)[i] == Ones(HeaderLane(w, skip, i))
    {
      ZeroPlus(HeaderLane(w, skip, i));
    }
  }

  lemma ZeroPlus(x: nat)
    requires x < 0x1_0000
    ensures Fold(0 + x) == Ones(x) && Ones(0) == 0
  {
    FoldAddsWord(0, x);
  }

  lemma FinalizeIs(w: Word, skip: bool)
    requires Sized(w, WIDTH)
    ensures Finalize(HeaderSums(Zeros(LANES), w, skip)) == 0xFFFF - Ones(Sum(HeaderLanes(w, skip)))
  {
    hide LaneChecksum.Reduce, OnesComplement.Ones;
    HeaderSumsHold(w, skip);
    ReduceIsOnes(HeaderLanes(w, skip));
  }

  lemma {:induction false} SumUpdate(xs: seq<nat>, i: nat, v: nat)
    requires i < |xs|
    ensures Sum(xs[i := v]) + xs[i] == Sum(xs) + v
    decreases |xs|
  {
    var n := |xs| - 1;
    if i == n {
      assert xs[i := v][..n] == xs[..n];
    } else {
      assert xs[i := v][..n] == xs[..n][i := v];
      SumUpdate(xs[..n], i, v);
    }
  }

  // Writing the field changes the checked lanes in that field only, and only if the
  // header reaches it.
  lemma InsertedLanes(w: Word, c: nat)
    requires Sized(w, WIDTH) && c < 0x1_0000
    ensures HeaderLength(Insert(w, c)) == HeaderLength(w)
    ensures HeaderLanes(Insert(w, c), false)
            == if HeaderLength(w) >= 3 then HeaderLanes(w, true)[FIELD := c] else HeaderLanes(w, true)
  {
    var w' := Insert(w, c);
    forall i | 0 <= i < LANES
      ensures HeaderLane(w', false, i)
              == if i == FIELD && HeaderLength(w) >= 3 then c else HeaderLane(w, true, i)
    {
      if i != FIELD {
        assert w'.data[2 * i] == w.data[2 * i] && w'.data[2 * i + 1] == w.data[2 * i + 1];
      }
    }
  }

  lemma ComplementSums(s: nat)
    ensures
      var c := 0xFFFF - Ones(s);
      Ones(s + c) == 0xFFFF
  {
    if s > 0 {
      var q, r := (s - 1) / 0xFFFF, (s - 1) % 0xFFFF;
      assert s + (0xFFFF - Ones(s)) - 1 == q * 0xFFFF + 0xFFFE;
      Residue(s + (0xFFFF - Ones(s)) - 1, q, 0xFFFE);
    }
  }

  // ---------------------------------------------------------------- the round trip

  // A computed and inserted checksum passes the check exactly when the header reaches
  // the field, or happens to sum to the right value without it. All lengths a header
  // may have (5 to 15) are among them.
  lemma RoundTrip(w: Word)
    requires Sized(w, WIDTH)
    ensures Check(Insert(w, Checksum(w))) <==> HeaderLength(w) >= 3 || Ones(Sum(HeaderLanes(w, true))) == 0xFFFF
  {
    hide LaneChecksum.Finalize, HeaderSums, HeaderLanes, OnesComplement.Ones;
    var s, c := Sum(HeaderLanes(w, true)), Checksum(w);
    FinalizeIs(w, true);
    InsertedLanes(w, c);
    FinalizeIs(Insert(w, c), false);
    SumUpdate(HeaderLanes(w, true), FIELD, c);
    SkippedLane(w);
    ComplementSums(s);
  }

  lemma SkippedLane(w: Word)
    requires Sized(w, WIDTH)
    ensures HeaderLanes(w, true)[FIELD] == 0
  {
  }

  // ---------------------------------------------------------------- against the definition

  // The header's bytes with the checksum field zero (section 3.1 of RFC 791).
  function HeaderBytes(w: Word): seq<Byte>
    requires Sized(w, WIDTH) && HeaderLength(w) >= 3
  {
    w.data[..4 * HeaderLength(w)][10 := 0][11 := 0]
  }

  lemma LaneOfHeader(w: Word, i: nat)
    requires Sized(w, WIDTH) && HeaderLength(w) >= 3 && i < 2 * HeaderLength(w)
    ensures HeaderLane(w, true, i) == SumWords(HeaderBytes(w)[2 * i..2 * i + 2])
  {
    var bs := HeaderBytes(w);
    ShortSum(bs[2 * i..2 * i + 2]);
    assert bs[2 * i..2 * i + 2][0] == bs[2 * i] && bs[2 * i..2 * i + 2][1] == bs[2 * i + 1];
    if i != FIELD {
      assert bs[2 * i] == w.data[2 * i] && bs[2 * i + 1] == w.data[2 * i + 1];
    }
  }

  lemma {:induction false} LanesHoldHeader(w: Word, m: nat)
    requires Sized(w, WIDTH) && HeaderLength(w) >= 3 && m <= 2 * HeaderLength(w)
    ensures Sum(HeaderLanes(w, true)[..m]) == SumWords(HeaderBytes(w)[..2 * m])
    decreases m
  {
    hide OnesComplement.SumWords, HeaderLane;
    var bs, xs := HeaderBytes(w), HeaderLanes(w, true);
    if m == 0 {
      assert bs[..0] == [];
      NoBytes();
    } else {
      LanesHoldHeader(w, m - 1);
      assert xs[..m][..m - 1] == xs[..m - 1];
      SumWordsConcat(bs[..2 * m - 2], bs[2 * m - 2..2 * m]);
      assert bs[..2 * m] == bs[..2 * m - 2] + bs[2 * m - 2..2 * m];
      LaneOfHeader(w, m - 1);
      assert xs[..m][m - 1] == HeaderLane(w, true, m - 1);
    }
  }

  lemma {:induction false} LanesBeyondHeader(w: Word, m: nat)
    requires Sized(w, WIDTH) && 2 * HeaderLength(w) <= m <= LANES
    ensures Sum(HeaderLanes(w, true)[..m]) == Sum(HeaderLanes(w, true)[..2 * HeaderLength(w)])
    decreases m
  {
    if m > 2 * HeaderLength(w) {
      assert HeaderLanes(w, true)[m - 1] == 0;
      LanesBeyondHeader(w, m - 1);
      assert HeaderLanes(w, true)[..m][..m - 1] == HeaderLanes(w, true)[..m - 1];
    }
  }

  // What is computed is the header checksum of RFC 791.
  lemma ChecksumIsRfc791(w: Word)
    requires Sized(w, WIDTH) && HeaderLength(w) >= 3
    ensures Checksum(w) == Rfc1071(HeaderBytes(w))
  {
    hide OnesComplement.SumWords, OnesComplement.Ones, LaneChecksum.Finalize, HeaderSums, OnesComplement.FoldAll;
    var xs, n := HeaderLanes(w, true), 2 * HeaderLength(w);
    LanesHoldHeader(w, n);
    LanesBeyondHeader(w, LANES);
    assert xs[..LANES] == xs && HeaderBytes(w)[..2 * n] == HeaderBytes(w);
    FinalizeIs(w, true);
    FoldAllIsOnes(SumWords(HeaderBytes(w)));
  }

  // ---------------------------------------------------------------- writing it into the stream

  // insert_ip_checksum, for buses of width bytes: the state between words.
  datatype Inserter = Inserter(wordCount: nat, checksum: nat, used: nat, out: seq<Word>)

  function Patched(w: Word, at: nat, checksum: nat): (w': Word)
    requires at + 1 < |w.data|
    ensures |w'.data| == |w.data|
  {
    w.(data := w.data[at := checksum / 0x100 % 0x100][at + 1 := checksum % 0x100])
  }

  predicate BusWidth(width: nat) { width == 8 || width == 16 || width == 32 || width == 64 }

  function InsertWord(s: Inserter, w: Word, next: nat, width: nat): Inserter
    requires BusWidth(width) && Sized(w, width)
  {
    if s.wordCount == 0 then
      s.(checksum := next, used := s.used + 1, wordCount := if w.last then 0 else 1,
         out := s.out + [if width > 8 then Patched(w, 10, next) else w])
    else if s.wordCount == 1 then
      s.(wordCount := if w.last then 0 else 2, out := s.out + [if width == 8 then Patched(w, 2, s.checksum) else w])
    else
      s.(wordCount := if w.last then 0 else s.wordCount, out := s.out + [w])
  }

  // A stream of words, and the checksums in the order they arrive.
  function InsertRun(words: seq<Word>, checksums: nat -> nat, width: nat): Inserter
    requires BusWidth(width) && AllSized(words, width)
    decreases |words|
  {
    if words == [] then Inserter(0, 0, 0, [])
    else
      var s := InsertRun(words[..|words| - 1], checksums, width);
      InsertWord(s, words[|words| - 1], checksums(s.used), width)
  }

  // Bytes 10 and 11 of a packet replaced.
  function PatchedPacket(p: seq<Word>, checksum: nat, width: nat): (p': seq<Word>)
    requires BusWidth(width) && AllSized(p, width)
    ensures |p'| == |p| && AllSized(p', width)
  {
    seq(|p|, i requires 0 <= i < |p| =>
      if i == 10 / width then Patched(p[i], 10 % width, checksum) else p[i])
  }

  lemma InsertSnoc(words: seq<Word>, w: Word, checksums: nat -> nat, width: nat)
    requires BusWidth(width) && AllSized(words + [w], width) && AllSized(words, width)
    ensures
      var s := InsertRun(words, checksums, width);
      InsertRun(words + [w], checksums, width) == InsertWord(s, w, checksums(s.used), width)
  {
    assert (words + [w])[..|words|] == words;
  }

  lemma {:induction false} InsertPacket(before: seq<Word>, p: seq<Word>, checksums: nat -> nat, width: nat, k: nat)
    requires BusWidth(width) && AllSized(before, width) && WellFormed(p, width) && 0 < k <= |p|
    requires AllSized(p, width) && InsertRun(before, checksums, width).wordCount == 0
    ensures
      var s0, s := InsertRun(before, checksums, width), InsertRun(before + p[..k], checksums, width);
      && s.wordCount == (if k == |p| then 0 else if k == 1 then 1 else 2)
      && s.checksum == checksums(s0.used) && s.used == s0.used + 1
      && s.out == s0.out + PatchedPacket(p, checksums(s0.used), width)[..k]
    decreases k
  {
    hide InsertRun;
    var s0 := InsertRun(before, checksums, width);
    var p' := PatchedPacket(p, checksums(s0.used), width);
    InsertSnoc(before + p[..k - 1], p[k - 1], checksums, width);
    assert before + p[..k] == before + p[..k - 1] + [p[k - 1]];
    assert p'[..k] == p'[..k - 1] + [p'[k - 1]];
    if k == 1 {
      assert before + p[..0] == before;
    } else {
      InsertPacket(before, p, checksums, width, k - 1);
    }
  }

  function PatchedAll(ps: seq<seq<Word>>, checksums: nat -> nat, width: nat): seq<Word>
    requires BusWidth(width) && forall i :: 0 <= i < |ps| ==> AllSized(ps[i], width)
    decreases |ps|
  {
    if ps == [] then []
    else
      var n := |ps| - 1;
      PatchedAll(ps[..n], checksums, width) + PatchedPacket(ps[n], checksums(n), width)
  }

  // Packets back to back: the i-th packet leaves with the i-th checksum in bytes 10 and
  // 11 and nothing else changed.
  lemma {:induction false} InsertPackets(ps: seq<seq<Word>>, checksums: nat -> nat, width: nat)
    requires BusWidth(width) && AllWellFormed(ps, width)
    requires forall i :: 0 <= i < |ps| ==> AllSized(ps[i], width)
    ensures AllSized(Flatten(ps), width)
    ensures
      var s := InsertRun(Flatten(ps), checksums, width);
      s.wordCount == 0 && s.used == |ps| && s.out == PatchedAll(ps, checksums, width)
    decreases |ps|
  {
    FlattenSized(ps, width);
    if ps != [] {
      var n := |ps| - 1;
      InsertPackets(ps[..n], checksums, width);
      InsertPacket(Flatten(ps[..n]), ps[n], checksums, width, |ps[n]|);
      assert ps[n][..|ps[n]|] == ps[n];
      var p' := PatchedPacket(ps[n], checksums(n), width);
      assert p'[..|ps[n]|] == p';
    }
  }
}
