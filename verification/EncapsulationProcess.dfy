// packetHeader, the shifters, and the UDP and BTH stages as they run.
module EncapsulationProcess {
  import opened OnesComplement
  import opened AxiStream
  import opened Realign
  import opened Shifters
  import opened Headers
  import opened Encapsulation

  function Min(a: nat, b: nat): nat { if a <= b then a else b }

  // packetHeader<W, HEADER_SIZE>, sizes in bytes.
  class PacketHeader {
    const width: nat
    const size: nat
    var ready: bool
    var idx: nat
    var header: seq<Byte>

    ghost predicate Valid()
      reads this
    {
      && width > 0 && |header| == size && (ready ==> idx * width >= size)
      && (!ready ==> idx * width < size || size == 0)
    }

    // The bytes parsed so far.
    ghost function Parsed(): seq<Byte>
      requires Valid()
      reads this
    {
      header[..Min(idx * width, size)]
    }

    ghost function Seen(): Stripper
      requires Valid()
      reads this
    {
      Stripper(Parsed(), idx * width, ready, false, [], [])
    }

    constructor (width: nat, size: nat)
      requires width > 0 && size > 0
      ensures Valid() && this.width == width && this.size == size && !ready && idx == 0
    {
      this.width, this.size := width, size;
      ready, idx, header := false, 0, Blank(size);
    }

    method Clear()
      requires Valid() && size > 0
      modifies this
      ensures Valid() && !ready && idx == 0 && Parsed() == []
    {
      header := Blank(size);
      ready := false;
      idx := 0;
    }

    method ParseWord(w: seq<Byte>)
      requires Valid() && |w| == width && size > 0
      modifies this
      ensures Valid()
      ensures Seen() == Parse(old(Seen()), w, size)
    {
      if ready {
        return;
      }
      var at := idx * width;
      ghost var before := Parsed();
      Next(idx, width);
      if at + width < size {
        header := header[..at] + w + header[at + width..];
      } else {
        header := header[..at] + w[..size - at];
        ready := true;
      }
      idx := idx + 1;
      assert header[..Min(at + width, size)] == before + w[..Min(width, size - at)];
    }

    // Puts the next header bytes into the word; the result is what is left after it.
    method ConsumeWord(w: seq<Byte>) returns (w': seq<Byte>, left: nat)
      requires |w| == width && |header| == size && width > 0
      modifies this`idx
      ensures w' == Consumed(header, old(idx) * width, w)
      ensures idx == if old(idx) * width < size then old(idx) + 1 else old(idx)
      ensures left == if (old(idx) + 1) * width <= size then size - (old(idx) + 1) * width else 0
    {
      var at := idx * width;
      Next(idx, width);
      if (idx + 1) * width <= size {
        w' := header[at..at + width];
        idx := idx + 1;
        left := size - idx * width;
      } else if at < size {
        w' := header[at..] + w[size - at..];
        idx := idx + 1;
        left := 0;
      } else {
        w', left := w, 0;
      }
    }
  }

  lemma Next(idx: nat, width: nat)
    ensures (idx + 1) * width == idx * width + width
  {
  }

  // lshiftWordByOctet
  class LeftShifter {
    const offset: nat
    const width: nat
    var firstWord: bool
    var writeRemainder: bool
    var prevWord: Word
    var input: seq<Word>
    var output: seq<Word>

    ghost function Contents(): Left
      reads this
    {
      Left(firstWord, writeRemainder, prevWord, output)
    }

    ghost predicate Valid()
      reads this
    {
      offset < width && Sized(prevWord, width) && AllSized(input, width)
    }

    constructor (offset: nat, width: nat)
      requires offset < width
      ensures Valid() && LeftIdle(Contents(), width) && this.offset == offset && this.width == width
      ensures input == [] && output == []
    {
      this.offset, this.width := offset, width;
      firstWord, writeRemainder := true, false;
      prevWord, input, output := Word(Blank(width), LenToKeep(0, width), false), [], [];
    }

    method Step()
      requires Valid()
      modifies this
      ensures Valid()
      ensures
        var s := old(Contents());
        if s.writeRemainder then Contents() == LeftFlush(offset, width, s) && input == old(input)
        else if old(input) == [] then Contents() == s && input == []
        else Contents() == LeftRead(offset, width, s, old(input)[0]) && input == old(input)[1..]
    {
      if writeRemainder {
        var sendWord := Word(prevWord.data[width - offset..] + Blank(width - offset),
                             prevWord.keep[width - offset..] + seq(width - offset, _ => false), true);
        output := output + [sendWord];
        writeRemainder := false;
      } else if input != [] {
        var currWord := input[0];
        input := input[1..];
        if offset == 0 {
          output := output + [currWord];
        } else {
          var data, keep := Blank(offset), FrontKeep(offset);
          if !firstWord {
            data, keep := prevWord.data[width - offset..], prevWord.keep[width - offset..];
          }
          var sendWord := Word(data + currWord.data[..width - offset], keep + currWord.keep[..width - offset],
                               NoneKept(currWord.keep[width - offset..]));
          output := output + [sendWord];
          prevWord := currWord;
          firstWord := false;
          if currWord.last {
            firstWord := true;
            writeRemainder := !sendWord.last;
          }
        }
      }
    }

    // The shifter run over everything that waits.
    method Drain()
      requires Valid() && !writeRemainder
      modifies this
      ensures Valid() && input == [] && Contents() == Feed(LeftStep(offset, width), old(Contents()), old(input))
    {
      hide LeftRead, LeftFlush;
      ghost var step := LeftStep(offset, width);
      ghost var goal := Feed(step, Contents(), input);
      while input != []
        invariant Valid() && !writeRemainder && Feed(step, Contents(), input) == goal
        decreases |input|
      {
        FeedOne(step, Contents(), input);
        ghost var read := LeftRead(offset, width, Contents(), input[0]);
        Step();
        LeftFlushed(offset, width, read);
        if writeRemainder {
          Step();
        }
      }
      FeedNone(step, Contents());
    }
  }

  // rshiftWordByOctet
  class RightShifter {
    const offset: nat
    const width: nat
    var remainder: bool
    var firstWord: bool
    var prevWord: Word
    var input: seq<Word>
    var output: seq<Word>

    ghost function Contents(): Right
      reads this
    {
      Right(remainder, firstWord, prevWord, output)
    }

    ghost predicate Valid()
      reads this
    {
      offset < width && Sized(prevWord, width) && AllSized(input, width)
    }

    constructor (offset: nat, width: nat)
      requires offset < width
      ensures Valid() && RightIdle(offset, width, Contents()) && this.offset == offset && this.width == width
      ensures input == [] && output == []
    {
      this.offset, this.width := offset, width;
      remainder, firstWord := false, offset != 0;
      prevWord, input, output := Word(Blank(width), LenToKeep(0, width), false), [], [];
    }

    method Step()
      requires Valid()
      modifies this
      ensures Valid()
      ensures
        var s := old(Contents());
        if s.remainder then Contents() == RightFlush(offset, width, s) && input == old(input)
        else if old(input) == [] then Contents() == s && input == []
        else Contents() == RightRead(offset, width, s, old(input)[0]) && input == old(input)[1..]
    {
      if remainder {
        var sendWord := Word(prevWord.data[offset..] + Blank(offset), prevWord.keep[offset..] + seq(offset, _ => false), true);
        output := output + [sendWord];
        remainder := false;
      } else if input != [] {
        var currWord, sentLast := input[0], false;
        input := input[1..];
        if !firstWord {
          var sendWord := currWord;
          if offset != 0 {
            sendWord := Word(prevWord.data[offset..] + currWord.data[..offset],
                             prevWord.keep[offset..] + currWord.keep[..offset], NoneKept(currWord.keep[offset..]));
          }
          sentLast := sendWord.last;
          output := output + [sendWord];
        }
        prevWord := currWord;
        firstWord := false;
        if currWord.last {
          firstWord := offset != 0;
          if !sentLast {
            remainder := true;
          }
        }
      }
    }

    // The shifter run over everything that waits.
    method Drain()
      requires Valid() && !remainder
      modifies this
      ensures Valid() && input == [] && Contents() == Feed(RightStep(offset, width), old(Contents()), old(input))
    {
      hide RightRead, RightFlush;
      ghost var step := RightStep(offset, width);
      ghost var goal := Feed(step, Contents(), input);
      while input != []
        invariant Valid() && !remainder && Feed(step, Contents(), input) == goal
        decreases |input|
      {
        FeedOne(step, Contents(), input);
        ghost var read := RightRead(offset, width, Contents(), input[0]);
        Step();
        RightFlushed(offset, width, read);
        if remainder {
          Step();
        }
      }
      FeedNone(step, Contents());
    }
  }

  lemma LeftFlushed(o: nat, n: nat, s: Left)
    requires o < n && Sized(s.prev, n)
    ensures !LeftFlush(o, n, s).writeRemainder && (!s.writeRemainder ==> LeftFlush(o, n, s) == s)
  {
  }

  lemma RightFlushed(o: nat, n: nat, s: Right)
    requires o < n && Sized(s.prev, n)
    ensures !RightFlush(o, n, s).remainder && (!s.remainder ==> RightFlush(o, n, s) == s)
  {
  }

  // Parsing looks at the header only.
  lemma ParseSame(s: Stripper, data: seq<Byte>, size: nat, written: bool, metas: seq<seq<Byte>>, out: seq<Word>)
    ensures Parse(s.(metaWritten := written, metas := metas, out := out), data, size)
            == Parse(s, data, size).(metaWritten := written, metas := metas, out := out)
  {
  }

  // process_udp
  class ProcessUdp {
    const header: PacketHeader
    var metaWritten: bool
    var input: seq<Word>
    var output: seq<Word>
    var metas: seq<seq<Byte>>

    ghost predicate Valid()
      reads this, header
    {
      && header.Valid() && header.size == UDP_HEADER_SIZE && AllSized(input, header.width)
      && (metaWritten <==> header.ready)
    }

    // What it holds, its header seen up to what has been parsed.
    ghost function Contents(): Stripper
      requires Valid()
      reads this, header
    {
      header.Seen().(metaWritten := metaWritten, metas := metas, out := output)
    }

    constructor (width: nat)
      requires width > 0
      ensures Valid() && Blanked(Contents()) && header.width == width && fresh(header)
      ensures input == [] && output == [] && metas == []
    {
      header := new PacketHeader(width, UDP_HEADER_SIZE);
      metaWritten, input, output, metas := false, [], [], [];
    }

    method Step(listenPort: nat)
      requires Valid()
      modifies this, header
      ensures Valid()
      ensures old(input) == [] ==> Contents() == old(Contents()) && input == []
      ensures old(input) != [] ==>
                var accept := (h: seq<Byte>) => UdpFieldsOf(h).dstPort == listenPort;
                && input == old(input)[1..]
                && Contents() == StripWord(old(Contents()), old(input)[0], UDP_HEADER_SIZE,
                                           header.width > UDP_HEADER_SIZE, accept)
    {
      if input != [] {
        hide UdpFieldsOf, Headers.Parse;
        var currWord := input[0];
        input := input[1..];
        ParseSame(header.Seen(), currWord.data, header.size, metaWritten, metas, output);
        header.ParseWord(currWord.data);
        var dstPort := UdpFieldsOf(header.header).dstPort;
        if metaWritten && dstPort == listenPort && header.width <= UDP_HEADER_SIZE {
          output := output + [currWord];
        }
        if header.ready {
          assert header.Parsed() == header.header;
          if dstPort == listenPort && header.width > UDP_HEADER_SIZE {
            output := output + [currWord];
          }
          if !metaWritten {
            metas := metas + [header.header];
            metaWritten := true;
          }
        }
        if currWord.last {
          metaWritten := false;
          header.Clear();
        }
      }
    }

    // The stage run over everything that waits.
    method Drain(listenPort: nat)
      requires Valid()
      modifies this, header
      ensures Valid() && input == []
      ensures
        var accept := (h: seq<Byte>) => UdpFieldsOf(h).dstPort == listenPort;
        Contents() == Feed(StripStep(UDP_HEADER_SIZE, header.width > UDP_HEADER_SIZE, accept), old(Contents()), old(input))
    {
      ghost var accept := (h: seq<Byte>) => UdpFieldsOf(h).dstPort == listenPort;
      hide StripWord, UdpFieldsOf;
      ghost var step := StripStep(UDP_HEADER_SIZE, header.width > UDP_HEADER_SIZE, accept);
      ghost var goal := Feed(step, Contents(), input);
      while input != []
        invariant Valid() && Feed(step, Contents(), input) == goal
        decreases |input|
      {
        FeedOne(step, Contents(), input);
        Step(listenPort);
      }
      FeedNone(step, Contents());
    }
  }

  // generate_udp and prepend_ibh_header
  class HeaderGenerator {
    const header: PacketHeader
    var phase: Headers.Phase
    var headers: seq<seq<Byte>>
    var input: seq<Word>
    var output: seq<Word>

    ghost predicate Valid()
      reads this, header
    {
      && header.width > 0 && header.size > 0 && |header.header| == header.size && AllSized(input, header.width)
      && (forall i :: 0 <= i < |headers| ==> |headers[i]| == header.size)
      && (phase == Header ==> header.idx * header.width + header.width <= header.size)
    }

    ghost function Contents(): Generator
      requires Valid()
      reads this, header
    {
      Generator(phase, header.header, header.idx * header.width, headers, output)
    }

    constructor (width: nat, size: nat)
      requires width > 0 && size > 0
      ensures Valid() && phase == Meta && header.width == width && header.size == size && fresh(header)
      ensures headers == [] && input == [] && output == []
    {
      header := new PacketHeader(width, size);
      phase, headers, input, output := Meta, [], [], [];
    }

    method StepMeta()
      requires Valid() && phase == Meta && headers != []
      modifies this, header
      ensures Valid() && Contents() == TakeHeader(old(Contents()), header.width) && input == old(input)
    {
      header.header := headers[0];
      header.idx := 0;
      headers := headers[1..];
      phase := if header.size >= header.width then Header else PartialHeader;
    }

    method StepHeader()
      requires Valid() && phase == Header
      modifies this, header`idx
      ensures Valid() && Contents() == HeaderStep(old(Contents()), header.width) && input == old(input)
    {
      Next(header.idx, header.width);
      Next(header.idx + 1, header.width);
      var data, left := header.ConsumeWord(Blank(header.width));
      if left < header.width {
        phase := PartialHeader;
      }
      output := output + [Word(data, LenToKeep(header.width, header.width), false)];
    }

    method StepWord()
      requires Valid() && (phase == PartialHeader || phase == Body) && input != []
      modifies this, header`idx
      ensures Valid() && input == old(input)[1..]
      ensures
        var g := GenerateWord(old(Contents()), old(input)[0]);
        && phase == g.phase && headers == g.headers && output == g.out && header.header == g.header
    {
      var currWord := input[0];
      input := input[1..];
      if phase == PartialHeader {
        var data, left := header.ConsumeWord(currWord.data);
        currWord := currWord.(data := data);
      }
      output := output + [currWord];
      phase := if currWord.last then Meta else Body;
    }

    // META and HEADER, up to the word the header ends in.
    method SendWholeWords()
      requires Valid() && phase == Meta && headers != []
      modifies this, header
      ensures Valid() && phase == PartialHeader && input == old(input) && headers == old(headers)[1..]
      ensures Contents() == SendHeader(TakeHeader(old(Contents()), header.width), header.width)
    {
      hide Consumed;
      StepMeta();
      ghost var taken, n := Contents(), header.width;
      while phase == Header
        invariant Valid() && phase != Meta && phase != Body && input == old(input) && headers == old(headers)[1..]
        invariant SendHeader(Contents(), n) == SendHeader(taken, n)
        decreases header.size - header.idx * n, phase == Header
      {
        StepHeader();
      }
    }

    // BODY up to the end of the packet.
    method SendRest(ghost q: seq<Word>)
      requires Valid() && phase == Body && LastAtEnd(q) && q <= input
      modifies this, header`idx
      ensures Valid() && phase == Meta && headers == old(headers) && input == old(input)[|q|..]
      ensures output == old(output) + q
    {
      ghost var all, k := input, 0;
      while phase == Body
        invariant k <= |q| && Valid() && input == all[k..] && headers == old(headers)
        invariant phase == (if k == |q| then Meta else Body) && output == old(output) + q[..k]
        decreases |q| - k
      {
        assert input[0] == all[k] == q[k];
        assert q[..k + 1] == q[..k] + [q[k]];
        StepWord();
        k := k + 1;
      }
      assert q[..k] == q;
    }

    // One packet p at the front of the input: its header's words, then its own with the
    // rest of the header laid over the first.
    method SendPacket(ghost p: seq<Word>)
      requires Valid() && phase == Meta && headers != [] && WellFormed(p, header.width) && p <= input
      modifies this, header
      ensures Valid() && phase == Meta && headers == old(headers)[1..] && input == old(input)[|p|..]
      ensures
        var h, n := old(headers)[0], header.width;
        output == old(output) + (HeaderWords(h, n) + Overlaid(p, h[|h| - Offset(|h|, n)..]))
    {
      ghost var h, n, out := headers[0], header.width, output;
      HeaderSent(TakeHeader(Contents(), n), n);
      SendWholeWords();
      FirstWord(Contents(), p, n);
      hide AxiStream.WellFormedWord, Consumed, HeaderWords, SendHeader, GenerateWord, TakeHeader, Overlaid, Offset;
      ghost var words := Overlaid(p, h[|h| - Offset(|h|, n)..]);
      assert input[0] == p[0];
      StepWord();
      assert output == out + HeaderWords(h, n) + words[..1];
      if phase == Body {
        RestEnds(p, n);
        SendRest(p[1..]);
      } else {
        assert words[..1] + p[1..] == words[..1];
      }
      FourParts(out, HeaderWords(h, n), words[..1], p[1..]);
    }
  }

  lemma FourParts(a: seq<Word>, b: seq<Word>, c: seq<Word>, d: seq<Word>)
    ensures a + b + c + d == a + (b + (c + d))
  {
  }

  lemma RestEnds(p: seq<Word>, n: nat)
    requires WellFormed(p, n) && |p| > 1
    ensures LastAtEnd(p[1..])
  {
    TailEnds(p);
  }

  // The header's whole words have gone out; what is left of it fits a word.
  lemma HeaderSent(taken: Generator, n: nat)
    requires n > 0 && taken.at == 0 && taken.phase == if |taken.header| >= n then Header else PartialHeader
    ensures
      var e, h := SendHeader(taken, n), taken.header;
      && e.phase == PartialHeader && e.header == h && e.at == |h| - Offset(|h|, n)
      && e.out == taken.out + HeaderWords(h, n)
  {
    var h := taken.header;
    assert h[0..] == h;
    if |h| >= n {
      SendsHeader(taken, n);
    } else {
      assert taken.out + [] == taken.out;
    }
  }

  lemma FirstWord(g: Generator, p: seq<Word>, n: nat)
    requires n > 0 && g.phase == PartialHeader && g.at == |g.header| - Offset(|g.header|, n) && WellFormed(p, n)
    ensures
      var front := g.header[|g.header| - Offset(|g.header|, n)..];
      && |front| < n == |p[0].data|
      && GenerateWord(g, p[0]).out == g.out + Overlaid(p, front)[..1]
      && GenerateWord(g, p[0]).phase == (if |p| == 1 then Meta else Body)
      && Overlaid(p, front) == Overlaid(p, front)[..1] + p[1..]
  {
    var front := g.header[|g.header| - Offset(|g.header|, n)..];
    assert WellFormedWord(p[0], n);
    assert Overlaid(p, front)[..1] == [Overlaid(p, front)[0]];
    assert Consumed(g.header, g.at, p[0].data) == front + p[0].data[|front|..];
  }
}
