// Tabulation hashing: a key's hash is the exclusive or of one random word per key bit.
module Tabulation {
  const NUM_TABLES: nat := 9
  const KEY_SIZE: nat := 64
  const MAX_ADDRESS_BITS: nat := 16

  // Bits, least significant first.
  type Word = seq<bool>
  datatype Key = Key(bits: Word)

  // The random words, by table, key bit value and key bit position, how many of their
  // bits address a table, and how many bits a key has.
  datatype Words = Words(words: seq<seq<seq<Word>>>, addressBits: nat, keySize: nat)

  predicate ValidWords(w: Words) {
    && w.keySize == KEY_SIZE && w.addressBits <= MAX_ADDRESS_BITS && |w.words| == NUM_TABLES
    && (forall i :: 0 <= i < NUM_TABLES ==> |w.words[i]| == 2)
    && (forall i, b :: 0 <= i < NUM_TABLES && 0 <= b < 2 ==> |w.words[i][b]| == KEY_SIZE)
    && (forall i, b, k :: 0 <= i < NUM_TABLES && 0 <= b < 2 && 0 <= k < KEY_SIZE ==>
          |w.words[i][b][k]| == MAX_ADDRESS_BITS)
  }

  function Zeros(n: nat): Word { seq(n, _ => false) }

  function Pow2(n: nat): (p: nat)
    ensures p > 0
  {
    if n == 0 then 1 else 2 * Pow2(n - 1)
  }

  function ToNat(w: Word): (n: nat)
    ensures n < Pow2(|w|)
    decreases |w|
  {
    if w == [] then 0 else (if w[0] then 1 else 0) + 2 * ToNat(w[1..])
  }

  function Xor(a: Word, b: Word): Word
    requires |a| == |b|
  {
    seq(|a|, i requires 0 <= i < |a| => a[i] != b[i])
  }

  predicate BitOf(key: Key, k: nat) { k < |key.bits| && key.bits[k] }

  function RandomWord(w: Words, i: nat, k: nat, bit: bool): (r: Word)
    requires ValidWords(w) && i < NUM_TABLES && k < KEY_SIZE
    ensures |r| == w.addressBits
  {
    w.words[i][if bit then 1 else 0][k][..w.addressBits]
  }

  // The exclusive or of the words the first n key bits select.
  function HashWord(w: Words, i: nat, key: Key, n: nat): (r: Word)
    requires ValidWords(w) && i < NUM_TABLES && n <= KEY_SIZE
    ensures |r| == w.addressBits
    decreases n
  {
    if n == 0 then Zeros(w.addressBits)
    else Xor(HashWord(w, i, key, n - 1), RandomWord(w, i, n - 1, BitOf(key, n - 1)))
  }

  function TableHash(w: Words, i: nat, key: Key): (h: nat)
    requires ValidWords(w) && i < NUM_TABLES
    ensures h < Pow2(w.addressBits)
  {
    ToNat(HashWord(w, i, key, w.keySize))
  }
}
