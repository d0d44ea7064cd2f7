// What the tabulation hash computes, read off the random words themselves.
module TabulationProof {
  import opened Tabulation

  // Bit b of the word that bit k of the key selects in table i.
  predicate Selected(w: Words, i: nat, key: Key, k: nat, b: nat)
    requires ValidWords(w) && i < NUM_TABLES && k < 64 && b < w.addressBits
  {
    if k < |key.bits| && key.bits[k] then w.words[i][1][k][b] else w.words[i][0][k][b]
  }

  // How many of the first n key bits select a word with bit b set.
  function Ones(w: Words, i: nat, key: Key, b: nat, n: nat): nat
    requires ValidWords(w) && i < NUM_TABLES && n <= 64 && b < w.addressBits
    decreases n
  {
    if n == 0 then 0 else Ones(w, i, key, b, n - 1) + if Selected(w, i, key, n - 1, b) then 1 else 0
  }

  lemma {:induction false} WordBit(w: Words, i: nat, key: Key, b: nat, n: nat)
    requires ValidWords(w) && i < NUM_TABLES && n <= 64 && b < w.addressBits
    ensures HashWord(w, i, key, n)[b] <==> Ones(w, i, key, b, n) % 2 == 1
    decreases n
  {
    if n > 0 {
      WordBit(w, i, key, b, n - 1);
    }
  }

  // Bit b of a number, least significant first.
  predicate NatBit(n: nat, b: nat)
    decreases b
  {
    if b == 0 then n % 2 == 1 else NatBit(n / 2, b - 1)
  }

  lemma {:induction false} NumberBit(w: Word, b: nat)
    requires b < |w|
    ensures NatBit(ToNat(w), b) <==> w[b]
    decreases b
  {
    if b > 0 {
      NumberBit(w[1..], b - 1);
      assert ToNat(w) / 2 == ToNat(w[1..]);
    }
  }

  // Bit b of a key's hash is the parity of the words its 64 bits select.
  lemma HashBits(w: Words, i: nat, key: Key, b: nat)
    requires ValidWords(w) && i < NUM_TABLES && b < w.addressBits
    ensures NatBit(TableHash(w, i, key), b) <==> Ones(w, i, key, b, 64) % 2 == 1
  {
    WordBit(w, i, key, b, 64);
    NumberBit(HashWord(w, i, key, 64), b);
  }

  function Flipped(key: Key, k: nat): Key
    requires k < |key.bits|
  {
    key.(bits := key.bits[k := !key.bits[k]])
  }

  lemma {:induction false} OnesFlipped(w: Words, i: nat, key: Key, k: nat, b: nat, n: nat)
    requires ValidWords(w) && i < NUM_TABLES && k < |key.bits| && n <= 64 && b < w.addressBits
    ensures
      var changes := k < n && w.words[i][0][k][b] != w.words[i][1][k][b];
      (Ones(w, i, Flipped(key, k), b, n) % 2 == Ones(w, i, key, b, n) % 2) <==> !changes
    decreases n
  {
    if n > 0 {
      hide Selected;
      OnesFlipped(w, i, key, k, b, n - 1);
      SelectedFlipped(w, i, key, k, b, n - 1);
    }
  }

  lemma SelectedFlipped(w: Words, i: nat, key: Key, k: nat, b: nat, n: nat)
    requires ValidWords(w) && i < NUM_TABLES && k < |key.bits| && n < 64 && b < w.addressBits
    ensures (Selected(w, i, Flipped(key, k), n, b) <==> Selected(w, i, key, n, b))
            <==> !(n == k && w.words[i][0][k][b] != w.words[i][1][k][b])
  {
  }

  // Flipping one bit of a key changes its hash word by exactly the exclusive or of the two
  // words for that bit.
  lemma FlipChanges(w: Words, i: nat, key: Key, k: nat)
    requires ValidWords(w) && i < NUM_TABLES && |key.bits| == 64 && k < 64
    ensures HashWord(w, i, Flipped(key, k), 64)
            == Xor(HashWord(w, i, key, 64), Xor(w.words[i][0][k], w.words[i][1][k])[..w.addressBits])
  {
    hide HashWord, Ones;
    var h, h' := HashWord(w, i, key, 64), HashWord(w, i, Flipped(key, k), 64);
    var change := Xor(w.words[i][0][k], w.words[i][1][k])[..w.addressBits];
    forall b | 0 <= b < w.addressBits ensures h'[b] <==> h[b] != change[b] {
      WordBit(w, i, key, b, 64);
      WordBit(w, i, Flipped(key, k), b, 64);
      OnesFlipped(w, i, key, k, b, 64);
    }
  }
}
