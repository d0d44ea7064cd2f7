// The checksum stages as they run: lane registers in an array, updated in place.
module ChecksumProcess {
  import opened OnesComplement
  import opened AxiStream
  import opened LaneChecksum
  import Ipv4Checksum

  lemma LaneAfter(sums: seq<nat>, w: Word, i: nat)
    requires Sized(w, 2 * |sums|) && i < |sums|
    ensures AddLanes(sums, w)[i] == if w.keep[2 * i] then Fold(sums[i] + LaneValue(w, i)) else sums[i]
  {
  }

  lemma HeaderLaneAfter(sums: seq<nat>, w: Word, skip: bool, i: nat)
    requires Sized(w, Ipv4Checksum.WIDTH) && |sums| == Ipv4Checksum.LANES && i < |sums|
    ensures Ipv4Checksum.HeaderSums(sums, w, skip)[i]
            == if Ipv4Checksum.Included(w, skip, i)
               then Fold(sums[i] + Ipv4Checksum.BigEndian(w.data[2 * i], w.data[2 * i + 1])) else sums[i]
  {
  }

  lemma HalfAfter(s: seq<nat>, h: nat, i: nat)
    requires |s| == 2 * h && i < h
    ensures Halve(s)[i] == Fold(s[i] + s[i + h])
  {
    assert s[..h][i] == s[i] && s[h..][i] == s[i + h];
  }

  method Clear(sums: array<nat>)
    modifies sums
    ensures sums[..] == Zeros(sums.Length)
  {
    for i := 0 to sums.Length
      invariant forall j :: 0 <= j < i ==> sums[j] == 0
    {
      sums[i] := 0;
    }
  }

  // two_complement_subchecksums
  class SubChecksums {
    const sums: array<nat>
    var dataIn: seq<Word>
    var dataOut: seq<Word>
    var sumsOut: seq<seq<nat>>

    constructor (lanes: nat)
      ensures sums.Length == lanes && sums[..] == Zeros(lanes) && fresh(sums)
      ensures dataIn == [] && dataOut == [] && sumsOut == []
    {
      sums := new nat[lanes](_ => 0);
      dataIn, dataOut, sumsOut := [], [], [];
    }

    method Accumulate(w: Word)
      requires Sized(w, 2 * sums.Length)
      modifies sums
      ensures sums[..] == AddLanes(old(sums[..]), w)
    {
      hide LaneChecksum.AddLanes, LaneChecksum.LaneValue;
      ghost var was := sums[..];
      ghost var target := AddLanes(was, w);
      for i := 0 to sums.Length
        invariant forall j :: 0 <= j < i ==> sums[j] == target[j]
        invariant forall j :: i <= j < sums.Length ==> sums[j] == was[j]
      {
        LaneAfter(was, w, i);
        if w.keep[2 * i] && w.keep[2 * i + 1] {
          var temp := LaneValue(w, i);
          sums[i] := sums[i] + temp;
          sums[i] := Fold(sums[i]);
        } else if w.keep[2 * i] {
          var temp := LaneValue(w, i);
          sums[i] := sums[i] + temp;
          sums[i] := Fold(sums[i]);
        }
      }
    }

    method Step()
      requires AllSized(dataIn, 2 * sums.Length)
      modifies this, sums
      ensures old(dataIn) == [] ==>
                sums[..] == old(sums[..]) && dataIn == [] && dataOut == old(dataOut) && sumsOut == old(sumsOut)
      ensures old(dataIn) != [] ==>
                var w, after := old(dataIn)[0], AddLanes(old(sums[..]), old(dataIn)[0]);
                && dataIn == old(dataIn)[1..] && dataOut == old(dataOut) + [w]
                && sumsOut == (if w.last then old(sumsOut) + [after] else old(sumsOut))
                && sums[..] == (if w.last then Zeros(sums.Length) else after)
    {
      if dataIn != [] {
        var currWord := dataIn[0];
        dataIn := dataIn[1..];
        dataOut := dataOut + [currWord];
        Accumulate(currWord);
        if currWord.last {
          sumsOut := sumsOut + [sums[..]];
          Clear(sums);
        }
      }
    }

    // The stage run over everything that waits.
    method Drain()
      requires AllSized(dataIn, 2 * sums.Length) && sums[..] == Zeros(sums.Length) && sumsOut == []
      modifies this, sums
      ensures (sums[..], sumsOut) == Stage(old(dataIn), sums.Length)
      ensures dataIn == [] && dataOut == old(dataOut) + old(dataIn)
    {
      ghost var words, k := dataIn, 0;
      while dataIn != []
        invariant k <= |words| && dataIn == words[k..]
        invariant (sums[..], sumsOut) == Stage(words[..k], sums.Length)
        invariant dataOut == old(dataOut) + words[..k]
        decreases |dataIn|
      {
        assert words[..k + 1][..k] == words[..k];
        Step();
        k := k + 1;
      }
      assert words[..k] == words;
    }
  }

  // One loop of the tree: the lanes from h on folded onto the first h.
  method FoldUpper(s: array<nat>, h: nat)
    requires 2 * h <= s.Length
    modifies s
    ensures s[..h] == Halve(old(s[..2 * h]))
    ensures s[h..] == old(s[h..])
  {
    hide LaneChecksum.Halve, OnesComplement.Fold;
    ghost var was := s[..2 * h];
    for i := 0 to h
      invariant forall j :: 0 <= j < i ==> s[j] == Halve(was)[j]
      invariant forall j :: i <= j < s.Length ==> s[j] == old(s[j])
    {
      HalfAfter(was, h, i);
      s[i] := s[i] + s[i + h];
      s[i] := Fold(s[i]);
    }
    assert s[..h] == Halve(was);
    assert s[h..] == old(s[h..]);
  }

  // finalize_ipv4_checksum and its copies, for 4, 8, 16 or 32 lanes.
  method FinalizeIpv4Checksum(s: array<nat>) returns (checksum: nat)
    requires s.Length == 4 || s.Length == 8 || s.Length == 16 || s.Length == 32
    modifies s
    ensures checksum == Finalize(old(s[..]))
  {
    hide LaneChecksum.Halve;
    ghost var was := s[..];
    ghost var n := s.Length;
    assert s[..n] == was;
    if s.Length >= 32 {
      FoldUpper(s, 16);
      n := 16;
      assert Reduce(s[..n]) == Reduce(was);
    }
    if s.Length >= 16 {
      FoldUpper(s, 8);
      n := 8;
      assert Reduce(s[..n]) == Reduce(was);
    }
    if s.Length >= 8 {
      FoldUpper(s, 4);
      n := 4;
      assert Reduce(s[..n]) == Reduce(was);
    }
    assert n == 4 && Reduce(s[..n]) == Reduce(was);
    FoldUpper(s, 2);
    assert Reduce(s[..2]) == Reduce(was);
    FoldUpper(s, 1);
    assert Reduce(s[..1]) == Reduce(was) && s[..1][0] == s[0];
    checksum := (0x1_FFFF - s[0]) % 0x1_0000;
  }

  method CheckIpv4Checksum(s: array<nat>) returns (valid: bool)
    requires s.Length == 4 || s.Length == 8 || s.Length == 16 || s.Length == 32
    modifies s
    ensures valid <==> Finalize(old(s[..])) == 0
  {
    var checksum := FinalizeIpv4Checksum(s);
    valid := checksum == 0;
  }

  // mac_compute_ipv4_checksum and ip_handler_compute_ipv4_checksum
  class HeaderChecksum {
    const skipChecksum: bool
    const sums: array<nat>
    var ipHeaderLen: nat
    var firstWord: bool
    var dataIn: seq<Word>
    var dataOut: seq<Word>
    var sumsOut: seq<seq<nat>>

    ghost predicate Valid()
      reads this, sums
    {
      && sums.Length == Ipv4Checksum.LANES && AllSized(dataIn, Ipv4Checksum.WIDTH)
      && (firstWord ==> sums[..] == Zeros(Ipv4Checksum.LANES))
    }

    constructor (skip: bool)
      ensures Valid() && skipChecksum == skip && firstWord && fresh(sums)
      ensures dataIn == [] && dataOut == [] && sumsOut == []
    {
      skipChecksum := skip;
      sums := new nat[Ipv4Checksum.LANES](_ => 0);
      ipHeaderLen, firstWord := 0, true;
      dataIn, dataOut, sumsOut := [], [], [];
    }

    method AddHeader(w: Word)
      requires sums.Length == Ipv4Checksum.LANES && Sized(w, Ipv4Checksum.WIDTH)
      requires ipHeaderLen == Ipv4Checksum.HeaderLength(w)
      modifies sums
      ensures sums[..] == Ipv4Checksum.HeaderSums(old(sums[..]), w, skipChecksum)
    {
      hide Ipv4Checksum.HeaderSums;
      ghost var was := sums[..];
      ghost var target := Ipv4Checksum.HeaderSums(was, w, skipChecksum);
      for i := 0 to Ipv4Checksum.LANES
        invariant forall j :: 0 <= j < i ==> sums[j] == target[j]
        invariant forall j :: i <= j < sums.Length ==> sums[j] == was[j]
      {
        HeaderLaneAfter(was, w, skipChecksum, i);
        var temp := Ipv4Checksum.BigEndian(w.data[2 * i], w.data[2 * i + 1]);
        if !skipChecksum || i != 5 {
          if i / 2 < ipHeaderLen {
            sums[i] := sums[i] + temp;
            sums[i] := Fold(sums[i]);
          }
        }
      }
    }

    // The first word of every packet sends off the sums of its header; the registers
    // are clear again for the next packet.
    method Step()
      requires Valid()
      modifies this, sums
      ensures Valid()
      ensures old(dataIn) != [] ==>
                var w := old(dataIn)[0];
                && dataIn == old(dataIn)[1..] && dataOut == old(dataOut) + [w] && firstWord == w.last
                && sumsOut == if old(firstWord)
                              then old(sumsOut) + [Ipv4Checksum.HeaderSums(Zeros(Ipv4Checksum.LANES), w, skipChecksum)]
                              else old(sumsOut)
    {
      if dataIn != [] {
        var currWord := dataIn[0];
        dataIn := dataIn[1..];
        dataOut := dataOut + [currWord];
        if firstWord {
          ipHeaderLen := currWord.data[0] % 16;
          AddHeader(currWord);
          sumsOut := sumsOut + [sums[..]];
          firstWord := false;
        }
        if currWord.last {
          Clear(sums);
          firstWord := true;
        }
      }
    }
  }

  // insert_ip_checksum
  class ChecksumInserter {
    const width: nat
    var wordCount: nat
    var checksum: nat
    var dataIn: seq<Word>
    var checksumIn: seq<nat>
    var dataOut: seq<Word>

    constructor (width: nat)
      ensures this.width == width && wordCount == 0 && dataIn == [] && checksumIn == [] && dataOut == []
    {
      this.width := width;
      wordCount, checksum, dataIn, checksumIn, dataOut := 0, 0, [], [], [];
    }

    // The first word of a packet waits for its checksum; the others pass.
    method Step()
      requires Ipv4Checksum.BusWidth(width) && AllSized(dataIn, width)
      modifies this
      ensures
        var idle := old(dataIn) == [] || (old(wordCount) == 0 && old(checksumIn) == []);
        && (idle ==> dataIn == old(dataIn) && checksumIn == old(checksumIn) && dataOut == old(dataOut)
                     && wordCount == old(wordCount) && checksum == old(checksum))
        && (!idle ==>
              var next := if old(wordCount) == 0 then old(checksumIn)[0] else 0;
              var before := Ipv4Checksum.Inserter(old(wordCount), old(checksum), 0, old(dataOut));
              var after := Ipv4Checksum.InsertWord(before, old(dataIn)[0], next, width);
              && wordCount == after.wordCount && checksum == after.checksum && dataOut == after.out
              && dataIn == old(dataIn)[1..] && checksumIn == old(checksumIn)[after.used..])
    {
      if wordCount == 0 {
        if dataIn != [] && checksumIn != [] {
          var currWord := dataIn[0];
          dataIn := dataIn[1..];
          checksum := checksumIn[0];
          checksumIn := checksumIn[1..];
          if width > 8 {
            currWord := currWord.(data := currWord.data[10 := checksum / 0x100 % 0x100][11 := checksum % 0x100]);
          }
          dataOut := dataOut + [currWord];
          wordCount := if currWord.last then 0 else 1;
        }
      } else if wordCount == 1 {
        if dataIn != [] {
          var currWord := dataIn[0];
          dataIn := dataIn[1..];
          if width == 8 {
            currWord := currWord.(data := currWord.data[2 := checksum / 0x100 % 0x100][3 := checksum % 0x100]);
          }
          dataOut := dataOut + [currWord];
          wordCount := if currWord.last then 0 else 2;
        }
      } else if dataIn != [] {
        dataOut := dataOut + [dataIn[0]];
        wordCount := if dataIn[0].last then 0 else wordCount;
        dataIn := dataIn[1..];
      }
    }
  }
}
