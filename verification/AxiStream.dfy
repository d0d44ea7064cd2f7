// Words of an AXI stream: bytes, a keep bit for each, and a flag on the last word of a
// packet.
module AxiStream {
  import opened OnesComplement

  datatype Word = Word(data: seq<Byte>, keep: seq<bool>, last: bool)

  predicate Sized(w: Word, width: nat) { |w.data| == width && |w.keep| == width }

  // How many bytes are kept, counted from the first.
  function Kept(keep: seq<bool>): (k: nat)
    ensures k <= |keep|
    decreases |keep|
  {
    if keep == [] || !keep[0] then 0 else 1 + Kept(keep[1..])
  }

  predicate Contiguous(keep: seq<bool>) { forall i :: 0 <= i < |keep| ==> (keep[i] <==> i < Kept(keep)) }

  function WordBytes(w: Word): seq<Byte>
    requires |w.keep| == |w.data|
  {
    w.data[..Kept(w.keep)]
  }

  // A word of a well-formed packet: not empty, no holes, full unless it is the last.
  predicate WellFormedWord(w: Word, width: nat) {
    && Sized(w, width) && Contiguous(w.keep) && Kept(w.keep) > 0
    && (!w.last ==> Kept(w.keep) == width)
  }

  predicate AllSized(ws: seq<Word>, width: nat) { forall i :: 0 <= i < |ws| ==> Sized(ws[i], width) }

  predicate WellFormed(p: seq<Word>, width: nat) {
    && |p| > 0
    && (forall i :: 0 <= i < |p| ==> WellFormedWord(p[i], width))
    && (forall i :: 0 <= i < |p| ==> (p[i].last <==> i == |p| - 1))
  }

  predicate AllWellFormed(ps: seq<seq<Word>>, width: nat) { forall i :: 0 <= i < |ps| ==> WellFormed(ps[i], width) }

  function BytesOf(ws: seq<Word>): seq<Byte>
    requires forall i :: 0 <= i < |ws| ==> |ws[i].keep| == |ws[i].data|
    decreases |ws|
  {
    if ws == [] then [] else BytesOf(ws[..|ws| - 1]) + WordBytes(ws[|ws| - 1])
  }

  function Flatten<T>(ps: seq<seq<T>>): seq<T>
    decreases |ps|
  {
    if ps == [] then [] else Flatten(ps[..|ps| - 1]) + ps[|ps| - 1]
  }
}
