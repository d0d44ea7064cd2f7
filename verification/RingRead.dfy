// Reading from a circular receive buffer: a read across the end is split in two, and the
// two answers are joined into one packet, realigned on the way.
module RingRead {
  import opened OnesComplement
  import opened AxiStream
  import opened Realign

  const WIDTH: nat := 8
  const RING: nat := 0x1_0000

  // ---------------------------------------------------------------- splitting the command

  // Address: ring number in the upper half, position in the lower.
  datatype Command = Command(saddr: nat, length: nat)

  datatype Splitter = Splitter(breakdown: bool, cmd: Command, accLength: nat)

  // rxAppMemAccessBreakdown taking up a command: what it sends on, and whether a second
  // part follows.
  function TakeCommand(c: Command): (Splitter, Command) {
    if c.saddr % RING + c.length > RING then
      var acc := (RING - c.saddr) % RING;
      (Splitter(true, c, acc), Command(c.saddr, acc))
    else (Splitter(false, c, 0), c)
  }

  function SecondPart(s: Splitter): (Splitter, Command) {
    var c := s.cmd.(saddr := s.cmd.saddr - s.cmd.saddr % RING);
    var acc := (s.cmd.length - s.accLength) % RING;
    (Splitter(false, c, acc), Command(c.saddr, acc))
  }

  // All commands for one read.
  function Split(c: Command): seq<Command> {
    var (s, first) := TakeCommand(c);
    if s.breakdown then [first, SecondPart(s).1] else [first]
  }

  type Memory = nat -> Byte

  function Slice(mem: Memory, c: Command): seq<Byte> { seq(c.length, i requires 0 <= i < c.length => mem(c.saddr + i)) }

  // What the application asked for: length bytes from its position on, around the ring.
  function RingSlice(mem: Memory, c: Command): seq<Byte> {
    seq(c.length, i requires 0 <= i < c.length =>
      mem(c.saddr - c.saddr % RING + (c.saddr + i) % RING))
  }

  // ---------------------------------------------------------------- joining the answers

  datatype Phase = Idle | Stream | Join | StreamMerged | StreamUnmerged | Residue

  datatype Reader = Reader(phase: Phase, word: Word, double: bool, offset: nat, residue: nat,
                           flags: seq<bool>, out: seq<Word>)

  predicate Able(r: Reader) { Sized(r.word, WIDTH) && r.offset <= WIDTH }

  // States IDLE and STREAM on a word of the first answer.
  function FirstAnswer(r: Reader, w: Word): (r': Reader)
    requires Sized(w, WIDTH)
    ensures Able(r') && r'.flags == r.flags
  {
    var k := Kept(w.keep);
    var r' := r.(word := w, offset := k);
    if w.last && r.double then
      var w' := w.(last := false);
      if k == WIDTH then r'.(word := w', out := r.out + [w'], phase := StreamUnmerged)
      else r'.(word := w', phase := Join)
    else if w.last then r'.(out := r.out + [w], phase := Idle)
    else r'.(out := r.out + [w], phase := Stream)
  }

  // States JOIN and STREAMMERGED: low is what is still held of the words before.
  function Merge(r: Reader, low: seq<Byte>, w: Word): (r': Reader)
    requires Sized(w, WIDTH) && |low| <= WIDTH && Able(r)
    ensures Able(r') && r'.flags == r.flags
  {
    var k := Kept(w.keep);
    var r' := r.(word := w, residue := (k - (WIDTH - |low|)) % 0x100);
    var full := Word(Joined(low, w.data), LenToKeep(WIDTH, WIDTH), false);
    if !w.last then r'.(out := r.out + [full], phase := StreamMerged)
    else if k + |low| <= WIDTH then
      r'.(out := r.out + [Word(full.data, LenToKeep(k + |low|, WIDTH), true)], phase := Idle)
    else r'.(out := r.out + [full], phase := Residue)
  }

  function Low(r: Reader): seq<Byte>
    requires Able(r)
  {
    if r.phase == Join then r.word.data[..r.offset] else r.word.data[WIDTH - r.offset..]
  }

  // State RESIDUE needs no input.
  function Flush(r: Reader): (r': Reader)
    requires Able(r)
    ensures Able(r') && r'.flags == r.flags && r'.phase != Residue
  {
    if r.phase != Residue then r
    else
      var data := r.word.data[WIDTH - r.offset..] + seq(WIDTH - r.offset, _ => 0);
      r.(out := r.out + [Word(data, LenToKeep(r.residue, WIDTH), true)], phase := Idle)
  }

  // One word of input; in IDLE it waits for a flag.
  function Consume(r: Reader, w: Word): (r': Reader)
    requires Able(r) && Sized(w, WIDTH)
    ensures Able(r')
  {
    match r.phase
    case Idle => if r.flags == [] then r else FirstAnswer(r.(double := r.flags[0], flags := r.flags[1..]), w)
    case Stream => FirstAnswer(r, w)
    case StreamUnmerged => r.(out := r.out + [w], phase := if w.last then Idle else StreamUnmerged)
    case Join => Merge(r, Low(r), w)
    case StreamMerged => Merge(r, Low(r), w)
    case Residue => r
  }

  // The stage over a stream of words; a residue goes out before the next word is read.
  function Feed(r: Reader, ws: seq<Word>): (r': Reader)
    requires Able(r) && AllSized(ws, WIDTH)
    ensures Able(r')
    decreases |ws|
  {
    if ws == [] then r else Flush(Consume(Feed(r, ws[..|ws| - 1]), ws[|ws| - 1]))
  }

  // ---------------------------------------------------------------- invariants

  // q has been sent of a packet that holds bs so far; the rest is still held.
  predicate Merging(r: Reader, before: seq<Word>, q: seq<Word>, bs: seq<Byte>) {
    && (r.phase == Join || r.phase == StreamMerged)
    && Sized(r.word, WIDTH) && 1 <= r.offset < WIDTH
    && r.out == before + q && AllFull(q, WIDTH) && BytesOf(q) + Low(r) == bs
  }

  // ---------------------------------------------------------------- one word

  lemma MergeGoesOn(r: Reader, before: seq<Word>, q: seq<Word>, bs: seq<Byte>, w: Word) returns (q': seq<Word>)
    requires Merging(r, before, q, bs) && FullWord(w, WIDTH)
    ensures Merging(Flush(Consume(r, w)), before, q', bs + w.data)
    ensures Flush(Consume(r, w)).flags == r.flags
  {
    hide AxiStream.BytesOf, AxiStream.Kept;
    KeptOfPrefix(WIDTH, WIDTH);
    var low := Low(r);
    var full := Word(Joined(low, w.data), LenToKeep(WIDTH, WIDTH), false);
    q' := q + [full];
    ContinueWith(q, full, WIDTH);
    var e := Consume(r, w);
    assert e.phase == StreamMerged && e.out == before + q' && Flush(e) == e;
    assert Low(e) == w.data[WIDTH - |low|..];
    assert BytesOf(q) + full.data + w.data[WIDTH - |low|..] == (BytesOf(q) + low) + w.data;
  }

  // The last word fits what was left of the word before it.
  lemma MergeFits(r: Reader, before: seq<Word>, q: seq<Word>, bs: seq<Byte>, w: Word) returns (q': seq<Word>)
    requires Merging(r, before, q, bs) && WellFormedWord(w, WIDTH) && w.last && Kept(w.keep) + |Low(r)| <= WIDTH
    ensures
      var e := Flush(Consume(r, w));
      e.phase == Idle && e.out == before + q' && Finished(q', bs + WordBytes(w), WIDTH) && e.flags == r.flags
  {
    hide AxiStream.BytesOf, AxiStream.Kept;
    var low, k := Low(r), Kept(w.keep);
    var lastWord := Word(Joined(low, w.data), LenToKeep(k + |low|, WIDTH), true);
    KeptOfPrefix(k + |low|, WIDTH);
    q' := q + [lastWord];
    FinishWith(q, lastWord, WIDTH);
    assert WordBytes(lastWord) == low + w.data[..k];
    assert BytesOf(q) + (low + w.data[..k]) == (BytesOf(q) + low) + w.data[..k];
    assert Consume(r, w).out == before + q';
  }

  // It does not: a full word and a residue.
  function Spill(low: seq<Byte>, w: Word): seq<Word>
    requires Sized(w, WIDTH) && |low| <= WIDTH
  {
    [Word(Joined(low, w.data), LenToKeep(WIDTH, WIDTH), false),
     Word(w.data[WIDTH - |low|..] + seq(WIDTH - |low|, _ => 0), LenToKeep((Kept(w.keep) - (WIDTH - |low|)) % 0x100, WIDTH), true)]
  }

  lemma SpillBytes(q: seq<Word>, low: seq<Byte>, w: Word)
    requires AllFull(q, WIDTH) && WellFormedWord(w, WIDTH) && |low| <= WIDTH && Kept(w.keep) + |low| > WIDTH
    ensures Finished(q + Spill(low, w), BytesOf(q) + low + WordBytes(w), WIDTH)
  {
    hide AxiStream.BytesOf, AxiStream.Kept;
    var k, cut := Kept(w.keep), WIDTH - |low|;
    var full, rest := Spill(low, w)[0], Spill(low, w)[1];
    assert (k - cut) % 0x100 == k - cut;
    KeptOfPrefix(WIDTH, WIDTH);
    KeptOfPrefix(k - cut, WIDTH);
    ContinueWith(q, full, WIDTH);
    FinishWith(q + [full], rest, WIDTH);
    assert q + Spill(low, w) == q + [full] + [rest];
    assert WordBytes(rest) == w.data[cut..k];
    hide Spill, AxiStream.WellFormedWord, AxiStream.WordBytes, AllFull, Finished;
    CutTogether(BytesOf(q), low, w.data, cut, k);
  }

  lemma CutTogether(a: seq<Byte>, low: seq<Byte>, data: seq<Byte>, cut: nat, k: nat)
    requires cut <= k <= |data|
    ensures a + (low + data[..cut]) + data[cut..k] == a + low + data[..k]
  {
    assert data[..cut] + data[cut..k] == data[..k];
  }

  lemma SpillOut(r: Reader, w: Word)
    requires Able(r) && (r.phase == Join || r.phase == StreamMerged) && 1 <= r.offset < WIDTH
    requires Sized(w, WIDTH) && w.last && Kept(w.keep) + |Low(r)| > WIDTH
    ensures
      var e := Flush(Consume(r, w));
      e.phase == Idle && e.out == r.out + Spill(Low(r), w) && e.flags == r.flags
  {
    hide AxiStream.Kept;
    assert |Low(r)| == r.offset;
  }

  lemma MergeSpills(r: Reader, before: seq<Word>, q: seq<Word>, bs: seq<Byte>, w: Word) returns (q': seq<Word>)
    requires Merging(r, before, q, bs) && WellFormedWord(w, WIDTH) && w.last && Kept(w.keep) + |Low(r)| > WIDTH
    ensures
      var e := Flush(Consume(r, w));
      e.phase == Idle && e.out == before + q' && Finished(q', bs + WordBytes(w), WIDTH) && e.flags == r.flags
  {
    hide AxiStream.BytesOf, AxiStream.Kept, Consume, Flush, Spill;
    SpillOut(r, w);
    SpillBytes(q, Low(r), w);
    q' := q + Spill(Low(r), w);
    assert before + q + Spill(Low(r), w) == before + q';
  }

  // ---------------------------------------------------------------- whole answers

  lemma FeedSnoc(r: Reader, ws: seq<Word>, w: Word)
    requires Able(r) && AllSized(ws + [w], WIDTH) && AllSized(ws, WIDTH)
    ensures Feed(r, ws + [w]) == Flush(Consume(Feed(r, ws), w))
  {
    assert (ws + [w])[..|ws|] == ws;
  }

  lemma FeedNone(r: Reader)
    requires Able(r)
    ensures Feed(r, []) == r && BytesOf([]) == []
  {
  }

  lemma FeedPrefix(r: Reader, p: seq<Word>, k: nat)
    requires Able(r) && AllSized(p, WIDTH) && k < |p|
    ensures Feed(r, p[..k + 1]) == Flush(Consume(Feed(r, p[..k]), p[k]))
  {
    hide Feed, Consume, Flush;
    assert p[..k] + [p[k]] == p[..k + 1];
    FeedSnoc(r, p[..k], p[k]);
  }

  lemma {:induction false} FeedConcat(r: Reader, a: seq<Word>, b: seq<Word>)
    requires Able(r) && AllSized(a, WIDTH) && AllSized(b, WIDTH)
    ensures AllSized(a + b, WIDTH) && Feed(r, a + b) == Feed(Feed(r, a), b)
    decreases |b|
  {
    hide Consume, Flush;
    if b == [] {
      assert a + b == a;
    } else {
      var n := |b| - 1;
      FeedConcat(r, a, b[..n]);
      assert a + b == (a + b[..n]) + [b[n]];
      FeedSnoc(r, a + b[..n], b[n]);
    }
  }

  // The words of an answer before its last.
  lemma {:induction false} StreamsFront(r: Reader, p: seq<Word>, k: nat)
    requires Able(r) && r.phase == Idle && r.flags != [] && WellFormed(p, WIDTH) && k < |p| && AllSized(p, WIDTH)
    ensures
      var e := Feed(r, p[..k]);
      && e.out == r.out + p[..k] && AllFull(p[..k], WIDTH)
      && (k == 0 ==> e == r)
      && (k > 0 ==> e.phase == Stream && e.double == r.flags[0] && e.flags == r.flags[1..])
    decreases k
  {
    hide AxiStream.Kept, Feed;
    if k == 0 {
      FeedNone(r);
    } else {
      StreamsFront(r, p, k - 1);
      FeedPrefix(r, p, k - 1);
      assert WellFormedWord(p[k - 1], WIDTH) && !p[k - 1].last;
      assert r.out + p[..k] == r.out + p[..k - 1] + [p[k - 1]];
    }
  }

  // A read that was not split passes as it is.
  lemma SinglePasses(r: Reader, p: seq<Word>)
    requires Able(r) && r.phase == Idle && r.flags != [] && !r.flags[0] && WellFormed(p, WIDTH) && AllSized(p, WIDTH)
    ensures
      var e := Feed(r, p);
      e.phase == Idle && e.out == r.out + p && e.flags == r.flags[1..]
  {
    hide Feed, AxiStream.Kept, AxiStream.BytesOf;
    var n := |p| - 1;
    StreamsFront(r, p, n);
    FeedPrefix(r, p, n);
    assert p[..n + 1] == p && p == p[..n] + [p[n]];
    assert r.out + p == r.out + p[..n] + [p[n]];
  }

  // The second answer after the first ended inside a word.
  lemma {:induction false} MergesBack(r: Reader, before: seq<Word>, q: seq<Word>, bs: seq<Byte>, p: seq<Word>, k: nat)
    returns (q': seq<Word>)
    requires Merging(r, before, q, bs) && WellFormed(p, WIDTH) && AllSized(p, WIDTH) && k < |p|
    ensures Merging(Feed(r, p[..k]), before, q', bs + BytesOf(p[..k])) && Feed(r, p[..k]).flags == r.flags
    decreases k
  {
    hide AxiStream.Kept, Feed, Consume, Flush, AxiStream.BytesOf, Low;
    if k == 0 {
      q' := q;
      FeedNone(r);
      assert p[..0] == [] && bs + BytesOf(p[..0]) == bs;
    } else {
      var q0 := MergesBack(r, before, q, bs, p, k - 1);
      var w := p[k - 1];
      assert WellFormedWord(w, WIDTH) && !w.last;
      q' := MergeGoesOn(Feed(r, p[..k - 1]), before, q0, bs + BytesOf(p[..k - 1]), w);
      FeedPrefix(r, p, k - 1);
      BytesSnoc(p[..k - 1], w);
      assert p[..k - 1] + [w] == p[..k] && w.data[..WIDTH] == w.data;
      assert bs + BytesOf(p[..k - 1]) + w.data == bs + BytesOf(p[..k]);
    }
  }

  lemma MergesAll(r: Reader, before: seq<Word>, q: seq<Word>, bs: seq<Byte>, p: seq<Word>) returns (q': seq<Word>)
    requires Merging(r, before, q, bs) && WellFormed(p, WIDTH) && AllSized(p, WIDTH)
    ensures
      var e := Feed(r, p);
      e.phase == Idle && e.out == before + q' && Finished(q', bs + BytesOf(p), WIDTH) && e.flags == r.flags
  {
    hide AxiStream.Kept, Feed, Consume, Flush, AxiStream.BytesOf, Low;
    var n := |p| - 1;
    var q0 := MergesBack(r, before, q, bs, p, n);
    var e0, bs0 := Feed(r, p[..n]), bs + BytesOf(p[..n]);
    if Kept(p[n].keep) + |Low(e0)| <= WIDTH {
      q' := MergeFits(e0, before, q0, bs0, p[n]);
    } else {
      q' := MergeSpills(e0, before, q0, bs0, p[n]);
    }
    FeedPrefix(r, p, n);
    assert p[..n + 1] == p && p[..n] + [p[n]] == p;
    BytesSnoc(p[..n], p[n]);
    assert bs0 + WordBytes(p[n]) == bs + BytesOf(p);
  }

  // The second answer after the first ended with a full word.
  lemma {:induction false} PassesBack(r: Reader, p: seq<Word>, k: nat)
    requires Able(r) && r.phase == StreamUnmerged && WellFormed(p, WIDTH) && AllSized(p, WIDTH) && k <= |p|
    ensures
      var e := Feed(r, p[..k]);
      e.phase == (if k == |p| then Idle else StreamUnmerged) && e.out == r.out + p[..k] && e.flags == r.flags
    decreases k
  {
    hide AxiStream.Kept, AxiStream.BytesOf, Feed;
    if k == 0 {
      FeedNone(r);
    } else {
      PassesBack(r, p, k - 1);
      FeedPrefix(r, p, k - 1);
      assert r.out + p[..k] == r.out + p[..k - 1] + [p[k - 1]];
    }
  }

  // The state after the first answer of a split read.
  lemma FirstEnds(r: Reader, p: seq<Word>)
    requires Able(r) && r.phase == Idle && r.flags != [] && r.flags[0] && WellFormed(p, WIDTH) && AllSized(p, WIDTH)
    ensures
      var n := |p| - 1;
      var e, w, front := Feed(r, p), p[n], p[..n];
      && AllFull(front, WIDTH) && e.flags == r.flags[1..] && BytesOf(p) == BytesOf(front) + WordBytes(w)
      && (Kept(w.keep) == WIDTH ==> e.phase == StreamUnmerged && e.out == r.out + (front + [w.(last := false)]))
      && (Kept(w.keep) < WIDTH ==> Merging(e, r.out, front, BytesOf(p)))
  {
    hide Feed, AxiStream.Kept, AxiStream.BytesOf;
    var n := |p| - 1;
    StreamsFront(r, p, n);
    FeedPrefix(r, p, n);
    assert p[..n + 1] == p && p[..n] + [p[n]] == p;
    BytesSnoc(p[..n], p[n]);
    EndsFirst(Feed(r, p[..n]), p[n]);
    hide Consume, Flush, AxiStream.WordBytes, AxiStream.WellFormedWord;
    assert r.out + p[..n] + [p[n].(last := false)] == r.out + (p[..n] + [p[n].(last := false)]);
  }

  // The last word of the first answer.
  lemma EndsFirst(r: Reader, w: Word)
    requires Able(r) && WellFormedWord(w, WIDTH) && w.last
    requires (r.phase == Idle && r.flags != [] && r.flags[0]) || (r.phase == Stream && r.double)
    ensures
      var e := Flush(Consume(r, w));
      && e.flags == (if r.phase == Idle then r.flags[1..] else r.flags)
      && (Kept(w.keep) == WIDTH ==> e.phase == StreamUnmerged && e.out == r.out + [w.(last := false)])
      && (Kept(w.keep) < WIDTH ==>
            e.phase == Join && e.out == r.out && Sized(e.word, WIDTH) && e.offset == Kept(w.keep) && Low(e) == WordBytes(w))
  {
    hide AxiStream.Kept;
  }

  // A split read is joined into one well-formed packet holding the bytes of both answers.
  lemma PairJoins(r: Reader, p1: seq<Word>, p2: seq<Word>) returns (q: seq<Word>)
    requires Able(r) && r.phase == Idle && r.flags != [] && r.flags[0]
    requires WellFormed(p1, WIDTH) && WellFormed(p2, WIDTH) && AllSized(p1, WIDTH) && AllSized(p2, WIDTH)
    ensures AllSized(p1 + p2, WIDTH)
    ensures
      var e := Feed(r, p1 + p2);
      e.phase == Idle && e.out == r.out + q && Finished(q, BytesOf(p1) + BytesOf(p2), WIDTH) && e.flags == r.flags[1..]
  {
    hide Feed, Consume, Flush, Merging, AxiStream.BytesOf, AxiStream.Kept;
    FirstEnds(r, p1);
    FeedConcat(r, p1, p2);
    var mid, w, front := Feed(r, p1), p1[|p1| - 1], p1[..|p1| - 1];
    if Kept(w.keep) == WIDTH {
      PassesBack(mid, p2, |p2|);
      assert p2[..|p2|] == p2;
      q := JoinFull(front, w.(last := false), p2);
      assert WordBytes(w) == w.data;
      assert r.out + (front + [w.(last := false)]) + p2 == r.out + q;
    } else {
      q := MergesAll(mid, r.out, front, BytesOf(p1), p2);
    }
  }

  lemma JoinFull(front: seq<Word>, w: Word, p: seq<Word>) returns (q: seq<Word>)
    requires AllFull(front, WIDTH) && FullWord(w, WIDTH) && WellFormed(p, WIDTH) && AllSized(p, WIDTH)
    ensures q == front + [w] + p && Finished(q, BytesOf(front) + w.data + BytesOf(p), WIDTH)
  {
    hide AxiStream.BytesOf, AxiStream.Kept;
    q := front + [w] + p;
    ContinueWith(front, w, WIDTH);
    BytesConcat(front + [w], p);
  }

  // ---------------------------------------------------------------- the ring

  lemma SplitCovers(mem: Memory, c: Command)
    requires 0 < c.length < RING
    ensures
      var cs := Split(c);
      && 1 <= |cs| <= 2 && (|cs| == 2 <==> c.saddr % RING + c.length > RING)
      && (forall i :: 0 <= i < |cs| ==> cs[i].length > 0)
      && RingSlice(mem, c) == if |cs| == 2 then Slice(mem, cs[0]) + Slice(mem, cs[1]) else Slice(mem, cs[0])
  {
    var low, base := c.saddr % RING, c.saddr - c.saddr % RING;
    if low + c.length > RING {
      assert (RING - c.saddr) % RING == RING - low;
      var first, second := Split(c)[0], Split(c)[1];
      assert first == Command(c.saddr, RING - low) && second == Command(base, c.length - (RING - low));
      forall i | 0 <= i < c.length
        ensures RingSlice(mem, c)[i] == (Slice(mem, first) + Slice(mem, second))[i]
      {
        Around(c.saddr, i);
      }
    } else {
      forall i | 0 <= i < c.length ensures RingSlice(mem, c)[i] == Slice(mem, c)[i] {
        Around(c.saddr, i);
      }
    }
  }

  lemma Around(saddr: nat, i: nat)
    requires i < RING
    ensures
      var low, base := saddr % RING, saddr - saddr % RING;
      base + (saddr + i) % RING == if low + i < RING then saddr + i else base + (low + i - RING)
  {
  }

  // The answer of the memory to a command: its bytes as a well-formed packet.
  predicate Answers(mem: Memory, c: Command, p: seq<Word>) {
    WellFormed(p, WIDTH) && AllSized(p, WIDTH) && BytesOf(p) == Slice(mem, c)
  }

  // A ring read is seamless: whatever position and length, one well-formed packet comes
  // out, and its i-th byte is the ring's byte i places further on.
  lemma ReadIsSeamless(mem: Memory, c: Command, r: Reader, answers: seq<seq<Word>>) returns (q: seq<Word>)
    requires 0 < c.length < RING && |answers| == |Split(c)|
    requires forall i :: 0 <= i < |answers| ==> Answers(mem, Split(c)[i], answers[i])
    requires Able(r) && r.phase == Idle && r.flags != [] && r.flags[0] == (|answers| == 2)
    ensures AllSized(Flatten(answers), WIDTH)
    ensures
      var e := Feed(r, Flatten(answers));
      e.phase == Idle && e.out == r.out + q && Finished(q, RingSlice(mem, c), WIDTH) && e.flags == r.flags[1..]
  {
    SplitCovers(mem, c);
    assert answers[..0] == [];
    if |answers| == 1 {
      assert Flatten(answers) == [] + answers[0] == answers[0];
      q := answers[0];
      SinglePasses(r, q);
    } else {
      assert answers[..1] == [answers[0]] && [answers[0]][..0] == [];
      assert Flatten([answers[0]]) == [] + answers[0] == answers[0];
      assert Flatten(answers) == answers[0] + answers[1];
      q := PairJoins(r, answers[0], answers[1]);
    }
  }

  // ---------------------------------------------------------------- one read after the other

  predicate AllAnswered(mem: Memory, cs: seq<Command>, answers: seq<seq<seq<Word>>>) {
    && |answers| == |cs|
    && forall i :: 0 <= i < |cs| ==>
         && 0 < cs[i].length < RING && |answers[i]| == |Split(cs[i])|
         && forall j :: 0 <= j < |answers[i]| ==> Answers(mem, Split(cs[i])[j], answers[i][j])
  }

  function FlagsOf(cs: seq<Command>): seq<bool> {
    seq(|cs|, i requires 0 <= i < |cs| => |Split(cs[i])| == 2)
  }

  function AllWords(answers: seq<seq<seq<Word>>>): seq<Word>
    decreases |answers|
  {
    if answers == [] then [] else AllWords(answers[..|answers| - 1]) + Flatten(answers[|answers| - 1])
  }

  // Reads back to back: as many packets as reads, each its own read's bytes, and the
  // stage idle again.
  lemma {:induction false} ReadsAreSeamless(mem: Memory, cs: seq<Command>, r: Reader, answers: seq<seq<seq<Word>>>)
    returns (qs: seq<seq<Word>>)
    requires AllAnswered(mem, cs, answers) && Able(r) && r.phase == Idle && FlagsOf(cs) <= r.flags
    ensures AllSized(AllWords(answers), WIDTH) && |qs| == |cs|
    ensures
      var e := Feed(r, AllWords(answers));
      e.phase == Idle && e.out == r.out + Flatten(qs) && e.flags == r.flags[|cs|..]
    ensures forall i :: 0 <= i < |cs| ==> Finished(qs[i], RingSlice(mem, cs[i]), WIDTH)
    decreases |cs|
  {
    hide Split, Feed, RingSlice, Finished;
    if cs == [] {
      qs := [];
      FeedNone(r);
    } else {
      var n := |cs| - 1;
      assert FlagsOf(cs)[..n] == FlagsOf(cs[..n]);
      var qs0 := ReadsAreSeamless(mem, cs[..n], r, answers[..n]);
      var mid := Feed(r, AllWords(answers[..n]));
      assert mid.flags[0] == FlagsOf(cs)[n];
      var q := ReadIsSeamless(mem, cs[n], mid, answers[n]);
      FeedConcat(r, AllWords(answers[..n]), Flatten(answers[n]));
      qs := qs0 + [q];
      assert qs[..n] == qs0;
      assert r.out + Flatten(qs0) + q == r.out + Flatten(qs);
    }
  }
}
