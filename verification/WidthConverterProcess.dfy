// increaseStreamWidth and reduceStreamWidth as they run.
module WidthConverterProcess {
  import opened OnesComplement
  import opened AxiStream
  import opened Realign
  import opened WidthConverter

  class WidthIncreaser {
    const narrow: nat
    const factor: nat
    var count: nat
    var temp: Word
    var input: seq<Word>
    var output: seq<Word>

    ghost predicate Valid()
      reads this
    {
      && narrow > 0 && factor > 0 && count < factor && Sized(temp, factor * narrow) && AllSized(input, narrow)
    }

    ghost function Contents(): Widener
      reads this
    {
      Widener(count * narrow, temp.data, temp.keep, output)
    }

    constructor (narrow: nat, factor: nat)
      requires narrow > 0 && factor > 0
      ensures Valid() && Idle(Contents(), factor * narrow) && this.narrow == narrow && this.factor == factor
      ensures input == [] && output == []
    {
      this.narrow, this.factor := narrow, factor;
      count, temp := 0, Word(seq(factor * narrow, _ => 0), seq(factor * narrow, _ => false), false);
      input, output := [], [];
    }

    method Step()
      requires Valid() && input != []
      modifies this
      ensures Valid() && input == old(input)[1..] && Fits(old(Contents()), narrow, factor * narrow)
      ensures Contents() == WidenWord(old(Contents()), old(input)[0], narrow, factor * narrow)
    {
      Room(count, factor, narrow);
      var at := count * narrow;
      var currWord := input[0];
      input := input[1..];
      temp := Word(Splice(temp.data, at, currWord.data), Splice(temp.keep, at, currWord.keep), currWord.last);
      count := count + 1;
      if currWord.last || count == factor {
        output := output + [temp];
        count := 0;
        temp := temp.(keep := seq(factor * narrow, _ => false));
      }
    }

    // The stage run over everything that waits.
    method Drain()
      requires Valid()
      modifies this
      ensures Valid() && input == []
      ensures Contents() == Feed(WidenStep(narrow, factor * narrow), old(Contents()), old(input))
    {
      hide WidenWord;
      ghost var step := WidenStep(narrow, factor * narrow);
      ghost var goal := Feed(step, Contents(), input);
      while input != []
        invariant Valid() && Feed(step, Contents(), input) == goal
        decreases |input|
      {
        FeedOne(step, Contents(), input);
        Step();
      }
      FeedNone(step, Contents());
    }
  }

  lemma Room(count: nat, factor: nat, narrow: nat)
    requires count < factor && narrow > 0
    ensures count * narrow + narrow == (count + 1) * narrow <= factor * narrow
    ensures (count + 1) * narrow == factor * narrow <==> count + 1 == factor
    decreases factor
  {
    if count + 1 < factor {
      Room(count, factor - 1, narrow);
      assert factor * narrow == (factor - 1) * narrow + narrow;
    }
  }

  // The pieces of a word: the first, and those of what the first leaves behind.
  lemma NarrowStep(data: seq<Byte>, keep: seq<bool>, last: bool, n: nat)
    requires 0 < n <= |data| && |data| == |keep|
    ensures |data| == n ==> Narrow(data, keep, last, n) == [Word(data[..n], keep[..n], last)]
    ensures |data| > n && !keep[n] ==> Narrow(data, keep, last, n) == [Word(data[..n], keep[..n], true)]
    ensures |data| > n && keep[n] ==>
              Narrow(data, keep, last, n) == [Word(data[..n], keep[..n], false)] + Narrow(data[n..], keep[n..], last, n)
  {
    if |data| == n {
      assert data[..n] == data && keep[..n] == keep;
    }
  }

  // The pieces of the first left bytes of a word.
  function Pieces(w: Word, left: nat, n: nat): seq<Word>
    requires 0 < n && left <= |w.data| == |w.keep|
  {
    Narrow(w.data[..left], w.keep[..left], w.last, n)
  }

  // Sending a word's first bytes and moving the others to the front keeps its pieces.
  lemma ShiftedPieces(w: Word, s: Word, left: nat, n: nat)
    requires 0 < n <= left <= |w.data| == |w.keep| && |s.data| == |s.keep| == |w.data| && s.last == w.last
    requires s.data[..|s.data| - n] == w.data[n..] && s.keep[..|s.data| - n] == w.keep[n..]
    ensures
      var data, keep := w.data[..n], w.keep[..n];
      && (left == n ==> Pieces(w, left, n) == [Word(data, keep, w.last)])
      && (left > n && !w.keep[n] ==> Pieces(w, left, n) == [Word(data, keep, true)])
      && (left > n && w.keep[n] ==> Pieces(w, left, n) == [Word(data, keep, false)] + Pieces(s, left - n, n))
  {
    hide Narrow;
    NarrowStep(w.data[..left], w.keep[..left], w.last, n);
    assert w.data[..left][..n] == w.data[..n] && w.keep[..left][..n] == w.keep[..n];
    ShiftedRest(w.data, s.data, left, n);
    ShiftedRest(w.keep, s.keep, left, n);
  }

  class WidthReducer {
    const narrow: nat
    const factor: nat
    const wide: nat
    var second: bool
    var count: nat
    var currWord: Word
    var input: seq<Word>
    var output: seq<Word>
    ghost var left: nat

    ghost predicate Valid()
      reads this
    {
      && narrow > 0 && factor > 1 && wide == factor * narrow && Sized(currWord, wide) && AllSized(input, wide)
      && (second ==> 1 <= count < factor && narrow <= left <= wide && left == (factor - count) * narrow)
    }

    // What is still to be sent of the current word.
    ghost function Pending(): seq<Word>
      requires Valid()
      reads this
    {
      if second then Pieces(currWord, left, narrow) else []
    }

    constructor (narrow: nat, factor: nat)
      requires narrow > 0 && factor > 1
      ensures Valid() && !second && input == [] && output == []
      ensures this.narrow == narrow && this.factor == factor
    {
      this.narrow, this.factor, this.wide := narrow, factor, factor * narrow;
      second, count := false, 0;
      currWord := Word(seq(factor * narrow, _ => 0), seq(factor * narrow, _ => false), false);
      input, output := [], [];
    }

    // The bytes move down by one piece; the topmost stay, and are no longer kept.
    method Shift()
      requires 0 < narrow <= wide && Sized(currWord, wide)
      modifies this`currWord
      ensures Sized(currWord, wide) && currWord.last == old(currWord.last)
      ensures currWord.data == old(currWord.data)[narrow..] + old(currWord.data)[wide - narrow..]
      ensures currWord.keep == old(currWord.keep)[narrow..] + seq(narrow, _ => false)
      ensures currWord.data[..wide - narrow] == old(currWord.data)[narrow..]
      ensures currWord.keep[..wide - narrow] == old(currWord.keep)[narrow..]
    {
      currWord := currWord.(data := currWord.data[narrow..] + currWord.data[wide - narrow..],
                            keep := currWord.keep[narrow..] + seq(narrow, _ => false));
    }

    method StepFirst()
      requires Valid() && !second && input != []
      modifies this
      ensures Valid() && input == old(input)[1..]
      ensures
        var w := old(input)[0];
        output + Pending() == old(output) + Narrow(w.data, w.keep, w.last, narrow)
    {
      hide Narrow, Pieces;
      Left(0, factor, narrow);
      currWord := input[0];
      input := input[1..];
      ghost var w := currWord;
      var more := currWord.keep[narrow];
      var temp := Word(currWord.data[..narrow], currWord.keep[..narrow], !more);
      output := output + [temp];
      if more {
        count, left := 1, wide - narrow;
        Left(1, factor, narrow);
        second := true;
      }
      Shift();
      ShiftedPieces(w, currWord, wide, narrow);
      WholePieces(w, narrow);
    }

    method StepSecond()
      requires Valid() && second
      modifies this
      ensures Valid() && input == old(input) && |output| == |old(output)| + 1
      ensures output + Pending() == old(output) + old(Pending()) && (second ==> count == old(count) + 1)
    {
      hide Narrow, Pieces;
      Left(count, factor, narrow);
      ghost var w := currWord;
      var temp := Word(currWord.data[..narrow], currWord.keep[..narrow],
                       if count < factor - 1 then !currWord.keep[narrow] else currWord.last);
      output := output + [temp];
      Shift();
      ShiftedPieces(w, currWord, left, narrow);
      count, left := count + 1, left - narrow;
      if count == factor || temp.last {
        second := false;
      } else {
        Left(count, factor, narrow);
      }
    }

    // Sent and still to be sent together are the pieces of the words read.
    method Step()
      requires Valid()
      modifies this
      ensures Valid()
      ensures old(second) ==> output + Pending() == old(output) + old(Pending()) && input == old(input)
      ensures old(second) ==> |output| == |old(output)| + 1
      ensures !old(second) && old(input) == [] ==> output == old(output) && !second && input == []
      ensures !old(second) && old(input) != [] ==>
                var w := old(input)[0];
                output + Pending() == old(output) + Narrow(w.data, w.keep, w.last, narrow) && input == old(input)[1..]
    {
      if second {
        StepSecond();
      } else if input != [] {
        StepFirst();
      }
    }

    // The stage run over everything that waits.
    method Drain()
      requires Valid() && !second
      modifies this
      ensures Valid() && !second && input == [] && output == old(output) + NarrowAll(old(input), narrow)
    {
      hide Narrow, Pieces;
      ghost var words, k := input, 0;
      assert words[..0] == [];
      while second || input != []
        invariant Valid() && k <= |words| && AllSized(words, wide) && input == words[k..]
        invariant output + Pending() == old(output) + NarrowAll(words[..k], narrow)
        decreases |input|, if second then factor - count else 0
      {
        if second {
          StepSecond();
        } else {
          NarrowPrefix(words, k, narrow, wide);
          ghost var sent, w := output, words[k];
          assert sent + Pending() == sent;
          StepFirst();
          assert output + Pending() == sent + Narrow(w.data, w.keep, w.last, narrow);
          k := k + 1;
        }
      }
      assert words[..k] == words;
    }
  }

  lemma NarrowPrefix(ws: seq<Word>, k: nat, n: nat, wide: nat)
    requires k < |ws| && n > 0 && AllSized(ws, wide)
    ensures NarrowAll(ws[..k + 1], n) == NarrowAll(ws[..k], n) + Narrow(ws[k].data, ws[k].keep, ws[k].last, n)
  {
    assert ws[..k + 1][..k] == ws[..k];
  }

  lemma WholePieces(w: Word, n: nat)
    requires 0 < n && |w.data| == |w.keep|
    ensures Pieces(w, |w.data|, n) == Narrow(w.data, w.keep, w.last, n)
  {
    assert w.data[..|w.data|] == w.data && w.keep[..|w.data|] == w.keep;
  }

  // After a shift, what was beyond the first piece is in front.
  lemma ShiftedRest<T>(before: seq<T>, after: seq<T>, left: nat, narrow: nat)
    requires narrow <= left <= |before| == |after| && after[..|after| - narrow] == before[narrow..]
    ensures before[..left][narrow..] == after[..left - narrow]
  {
    forall i | 0 <= i < left - narrow ensures after[i] == before[i + narrow] {
      assert after[..|after| - narrow][i] == before[narrow..][i];
    }
  }

  lemma {:induction false} Grows(a: nat, b: nat, n: nat)
    requires a <= b
    ensures a * n <= b * n
    decreases b
  {
    if a < b {
      Grows(a, b - 1, n);
      assert b * n == (b - 1) * n + n;
    }
  }

  lemma Left(count: nat, factor: nat, narrow: nat)
    requires count < factor && narrow > 0
    ensures narrow <= (factor - count) * narrow <= factor * narrow
    ensures count + 1 == factor ==> (factor - count) * narrow == narrow
    ensures count + 1 < factor ==> 2 * narrow <= (factor - count) * narrow
    ensures (factor - count) * narrow - narrow == (factor - (count + 1)) * narrow
  {
    var m := factor - count;
    assert m * narrow == (m - 1) * narrow + narrow;
    Grows(m, factor, narrow);
    Grows(0, m - 1, narrow);
    if m >= 2 { Grows(1, m - 1, narrow); }
  }
}
