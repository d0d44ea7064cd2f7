// The Internet checksum: sequential reference (section 1 of RFC 1071), the 17-bit
// end-around register the hardware uses, and the tree that adds up its lanes.
module OnesComplement {
  type Byte = b: nat | b < 0x100

  // ---------------------------------------------------------------- the reference

  // The 16-bit big-endian words of a byte string, an odd last byte padded with zero.
  function SumWords(bs: seq<Byte>): nat
    decreases |bs|
  {
    if |bs| == 0 then 0
    else if |bs| == 1 then bs[0] * 0x100
    else bs[0] * 0x100 + bs[1] + SumWords(bs[2..])
  }

  // Carries are added back in until none is left.
  function FoldAll(n: nat): nat
    decreases n
  {
    if n < 0x1_0000 then n else FoldAll(n % 0x1_0000 + n / 0x1_0000)
  }

  function Rfc1071(bs: seq<Byte>): int { 0xFFFF - FoldAll(SumWords(bs)) }

  // ---------------------------------------------------------------- the register

  // One end-around carry of a 17-bit register.
  function Fold(x: nat): nat { (x + x / 0x1_0000) % 0x1_0000 }

  // What a sum of n leaves in the register: zero for zero only, else a residue of
  // n modulo 65535 between 1 and 65535.
  function Ones(n: nat): (r: nat)
    ensures r <= 0xFFFF && (r == 0 <==> n == 0)
  {
    if n == 0 then 0 else (n - 1) % 0xFFFF + 1
  }

  lemma Residue(n: nat, q: nat, r: nat)
    requires n == q * 0xFFFF + r && r < 0xFFFF
    ensures n % 0xFFFF == r
  {
  }

  lemma FoldIs(x: nat)
    requires x < 0x1_FFFF
    ensures Fold(x) == if x < 0x1_0000 then x else x - 0xFFFF
  {
  }

  // Two registers add up to the register of the sum, and never overflow 17 bits.
  lemma FoldAdds(a: nat, b: nat)
    ensures Ones(a) + Ones(b) < 0x1_FFFF && Fold(Ones(a) + Ones(b)) == Ones(a + b)
  {
    FoldIs(Ones(a) + Ones(b));
    if a > 0 && b > 0 {
      var p, q, i := (a - 1) % 0xFFFF, (b - 1) % 0xFFFF, (a - 1) / 0xFFFF + (b - 1) / 0xFFFF;
      assert a + b - 1 == i * 0xFFFF + (p + q + 1);
      if p + q + 1 < 0xFFFF {
        Residue(a + b - 1, i, p + q + 1);
      } else {
        Residue(a + b - 1, i + 1, p + q + 1 - 0xFFFF);
      }
    }
  }

  // Adding a 16-bit word to a register.
  lemma FoldAddsWord(a: nat, x: nat)
    requires x < 0x1_0000
    ensures Ones(a) + x < 0x1_FFFF && Fold(Ones(a) + x) == Ones(a + x)
  {
    FoldAdds(a, x);
    assert Ones(x) == x;
  }

  lemma {:induction false} FoldAllIsOnes(n: nat)
    ensures FoldAll(n) == Ones(n)
    decreases n
  {
    if n >= 0x1_0000 {
      var h, l := n / 0x1_0000, n % 0x1_0000;
      FoldAllIsOnes(l + h);
      var q, r := (l + h - 1) / 0xFFFF, (l + h - 1) % 0xFFFF;
      assert n - 1 == (q + h) * 0xFFFF + r;
      Residue(n - 1, q + h, r);
    }
  }
}
