// rxAppMemAccessBreakdown and rxAppMemDataRead as they run: one call of a process each.
module RingReadProcess {
  import opened OnesComplement
  import opened AxiStream
  import opened Realign
  import opened RingRead

  class AccessBreakdown {
    var breakdown: bool
    var tempCmd: Command
    var accLength: nat
    var commandsIn: seq<Command>
    var commandsOut: seq<Command>
    var doubleAccess: seq<bool>

    constructor ()
      ensures !breakdown && commandsIn == [] && commandsOut == [] && doubleAccess == []
    {
      breakdown, tempCmd, accLength := false, Command(0, 0), 0;
      commandsIn, commandsOut, doubleAccess := [], [], [];
    }

    method Step()
      modifies this
      ensures old(breakdown) ==>
                var (s, c) := SecondPart(old(Splitter(breakdown, tempCmd, accLength)));
                && Splitter(breakdown, tempCmd, accLength) == s && commandsOut == old(commandsOut) + [c]
                && commandsIn == old(commandsIn) && doubleAccess == old(doubleAccess)
      ensures !old(breakdown) && old(commandsIn) != [] ==>
                var (s, c) := TakeCommand(old(commandsIn)[0]);
                && breakdown == s.breakdown && tempCmd == s.cmd && (s.breakdown ==> accLength == s.accLength)
                && commandsIn == old(commandsIn)[1..] && commandsOut == old(commandsOut) + [c]
                && doubleAccess == old(doubleAccess) + [s.breakdown]
    {
      if !breakdown {
        if commandsIn != [] {
          tempCmd := commandsIn[0];
          commandsIn := commandsIn[1..];
          if tempCmd.saddr % RING + tempCmd.length > 65536 {
            accLength := (65536 - tempCmd.saddr) % RING;
            commandsOut := commandsOut + [Command(tempCmd.saddr, accLength)];
            breakdown := true;
          } else {
            commandsOut := commandsOut + [tempCmd];
          }
          doubleAccess := doubleAccess + [breakdown];
        }
      } else {
        tempCmd := tempCmd.(saddr := tempCmd.saddr - tempCmd.saddr % RING);
        accLength := (tempCmd.length - accLength) % RING;
        commandsOut := commandsOut + [Command(tempCmd.saddr, accLength)];
        breakdown := false;
      }
    }

    // Called until it waits for the next command, it has sent the parts of this one.
    method Serve()
      requires !breakdown && commandsIn != []
      modifies this
      ensures !breakdown && commandsIn == old(commandsIn)[1..]
      ensures commandsOut == old(commandsOut) + Split(old(commandsIn)[0])
      ensures doubleAccess == old(doubleAccess) + [|Split(old(commandsIn)[0])| == 2]
    {
      Step();
      if breakdown {
        Step();
      }
    }
  }

  class DataReader {
    var phase: Phase
    var word: Word
    var double: bool
    var offset: nat
    var residue: nat
    var flags: seq<bool>
    var dataIn: seq<Word>
    var dataOut: seq<Word>

    ghost function Contents(): Reader
      reads this
    {
      Reader(phase, word, double, offset, residue, flags, dataOut)
    }

    ghost predicate Valid()
      reads this
    {
      Able(Contents()) && AllSized(dataIn, WIDTH)
    }

    constructor ()
      ensures Valid() && phase == Idle && flags == [] && dataIn == [] && dataOut == []
    {
      phase, word := Idle, Word(seq(WIDTH, _ => 0), seq(WIDTH, _ => false), false);
      double, offset, residue, flags, dataIn, dataOut := false, 0, 0, [], [], [];
    }

    // IDLE and STREAM
    method ReadFirst()
      requires Valid() && dataIn != []
      modifies this
      ensures Valid() && Contents() == FirstAnswer(old(Contents()), old(dataIn)[0]) && dataIn == old(dataIn)[1..]
    {
      word := dataIn[0];
      dataIn := dataIn[1..];
      offset := Kept(word.keep);
      if word.last && double {
        word := word.(last := false);
        if offset == WIDTH {
          dataOut := dataOut + [word];
          phase := StreamUnmerged;
        } else {
          phase := Join;
        }
      } else if word.last {
        dataOut := dataOut + [word];
        phase := Idle;
      } else {
        phase := Stream;
        dataOut := dataOut + [word];
      }
    }

    // JOIN and STREAMMERGED
    method ReadMerged(low: seq<Byte>)
      requires Valid() && dataIn != [] && low == Low(Contents())
      modifies this
      ensures Valid() && Contents() == Merge(old(Contents()), low, old(dataIn)[0]) && dataIn == old(dataIn)[1..]
    {
      var used := |low|;
      word := dataIn[0];
      dataIn := dataIn[1..];
      var temp := Word(low + word.data[..WIDTH - used], LenToKeep(WIDTH, WIDTH), false);
      var tempCounter := Kept(word.keep);
      residue := (tempCounter - (WIDTH - used)) % 0x100;
      if word.last {
        if tempCounter + used <= WIDTH {
          temp := temp.(keep := LenToKeep(tempCounter + used, WIDTH), last := true);
          phase := Idle;
        } else {
          phase := Residue;
        }
      } else {
        phase := StreamMerged;
      }
      dataOut := dataOut + [temp];
    }

    method Step()
      requires Valid()
      modifies this
      ensures Valid()
      ensures
        var r := old(Contents());
        if r.phase == Residue then Contents() == Flush(r) && dataIn == old(dataIn)
        else if old(dataIn) == [] || (r.phase == Idle && r.flags == []) then Contents() == r && dataIn == old(dataIn)
        else Contents() == Consume(r, old(dataIn)[0]) && dataIn == old(dataIn)[1..]
    {
      hide FirstAnswer, Merge;
      match phase {
        case Idle =>
          if flags != [] && dataIn != [] {
            double := flags[0];
            flags := flags[1..];
            ReadFirst();
          }
        case Stream =>
          if dataIn != [] {
            ReadFirst();
          }
        case StreamUnmerged =>
          if dataIn != [] {
            var temp := dataIn[0];
            dataIn := dataIn[1..];
            if temp.last {
              phase := Idle;
            }
            dataOut := dataOut + [temp];
          }
        case Join =>
          if dataIn != [] {
            ReadMerged(word.data[..offset]);
          }
        case StreamMerged =>
          if dataIn != [] {
            ReadMerged(word.data[WIDTH - offset..]);
          }
        case Residue =>
          var data := word.data[WIDTH - offset..] + seq(WIDTH - offset, _ => 0);
          dataOut := dataOut + [Word(data, LenToKeep(residue, WIDTH), true)];
          phase := Idle;
      }
    }

    // The stage run until nothing waits, or it waits for a flag; it tells how many words
    // it has read.
    method Drain() returns (k: nat)
      requires Valid() && phase != Residue
      modifies this
      ensures Valid() && phase != Residue && k <= |old(dataIn)| && dataIn == old(dataIn)[k..]
      ensures Contents() == RingRead.Feed(old(Contents()), old(dataIn)[..k])
      ensures k < |old(dataIn)| ==> phase == Idle && flags == []
    {
      hide Consume, RingRead.Flush;
      ghost var start, words := Contents(), dataIn;
      k := 0;
      while dataIn != [] && !(phase == Idle && flags == [])
        invariant Valid() && phase != Residue && k <= |words| && AllSized(words, WIDTH)
        invariant dataIn == words[k..] && Contents() == RingRead.Feed(start, words[..k])
        decreases |dataIn|
      {
        FeedPrefix(start, words, k);
        ghost var read := Consume(Contents(), dataIn[0]);
        Step();
        Flushed(read);
        if phase == Residue {
          Step();
        }
        k := k + 1;
      }
    }
  }

  lemma Flushed(r: Reader)
    requires Able(r)
    ensures r.phase != Residue ==> RingRead.Flush(r) == r
  {
  }
}
