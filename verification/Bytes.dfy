/** Bytes, big-endian integers and two's complement, as the packet parsers read them. */
module Bytes {
  type byte = x: int | 0 <= x < 256
  type bytes = seq<byte>

  datatype Option<+T> = None | Some(value: T)

  datatype Result<+T> = Ok(value: T) | Err

  function Min(x: int, y: int): int {
    if x <= y then x else y
  }

  function Max(x: int, y: int): int {
    if x <= y then y else x
  }

  function Pow256(n: nat): (p: nat)
    ensures 0 < p
  {
    if n == 0 then 1 else 256 * Pow256(n - 1)
  }

  /** The unsigned big-endian integer a byte string spells. */
  function FromBE(b: bytes): (v: nat)
    ensures v < Pow256(|b|)
  {
    if |b| == 0 then 0 else FromBE(b[..|b| - 1]) * 256 + b[|b| - 1]
  }

  /** The low `n` bytes of `v`, most significant first. */
  function ToBE(v: nat, n: nat): (b: bytes)
    ensures |b| == n
  {
    if n == 0 then [] else ToBE(v / 256, n - 1) + [v % 256]
  }

  lemma {:induction false} FromToBE(v: nat, n: nat)
    requires v < Pow256(n)
    ensures FromBE(ToBE(v, n)) == v
  {
    if n != 0 {
      QuotientBelow(v, 256, Pow256(n - 1));
      FromToBE(v / 256, n - 1);
      FromBEAppend(ToBE(v / 256, n - 1), v % 256);
    }
  }

  lemma QuotientBelow(v: nat, d: nat, p: nat)
    requires 0 < d && v < d * p
    ensures v / d < p
  {
    var q := v / d;
    assert v == d * q + v % d;
    MulOrder(d, q, p);
  }

  lemma MulOrder(d: nat, q: nat, p: nat)
    requires d * q < d * p
    ensures q < p
  {
  }

  lemma FromBEAppend(b: bytes, x: byte)
    ensures FromBE(b + [x]) == 256 * FromBE(b) + x
  {
    assert (b + [x])[..|b|] == b;
  }

  lemma {:induction false} ToFromBE(b: bytes)
    ensures ToBE(FromBE(b), |b|) == b
  {
    if |b| != 0 {
      var front, last := b[..|b| - 1], b[|b| - 1];
      ToFromBE(front);
      DivUnique(FromBE(b), 256, FromBE(front), last);
      assert b == front + [last];
    }
  }

  lemma Pow256Values()
    ensures Pow256(2) == 0x1_0000
    ensures Pow256(4) == 0x1_0000_0000
    ensures Pow256(8) == 0x1_0000_0000_0000_0000
  {
    assert Pow256(1) == 256;
    assert Pow256(3) == 256 * Pow256(2);
    assert Pow256(4) == 0x1_0000_0000;
    assert Pow256(5) == 256 * Pow256(4);
    assert Pow256(6) == 256 * Pow256(5);
    assert Pow256(7) == 256 * Pow256(6);
  }

  /** A big-endian two's complement integer of |b| bytes. */
  function SignedBE(b: bytes): int {
    var v := FromBE(b);
    if 2 * v < Pow256(|b|) then v else v - Pow256(|b|)
  }

  /** Whether `n` bytes can hold a signed value. */
  predicate FitsSigned(v: int, n: nat) {
    0 <= 2 * v + Pow256(n) < 2 * Pow256(n)
  }

  /** The two's complement of a signed value in `n` bytes. */
  function ToSignedBE(v: int, n: nat): (b: bytes)
    requires FitsSigned(v, n)
    ensures |b| == n
  {
    ToBE(if v < 0 then v + Pow256(n) else v, n)
  }

  /** Every value in range is read back, sign included. */
  lemma SignedRoundTrip(v: int, n: nat)
    requires FitsSigned(v, n)
    ensures SignedBE(ToSignedBE(v, n)) == v
  {
    FromToBE(if v < 0 then v + Pow256(n) else v, n);
  }

  /** And every byte string spells a value in range, which spells it. */
  lemma SignedInRange(b: bytes)
    ensures FitsSigned(SignedBE(b), |b|) && ToSignedBE(SignedBE(b), |b|) == b
  {
    ToFromBE(b);
  }

  /** The right shift `v >> k`. */
  function Shr(v: nat, k: nat): nat
    decreases v, k
  {
    if k == 0 then v else Shr(v / 2, k - 1)
  }

  /** Bit `bit` of a word, counted from the least significant. */
  predicate Bit(word: nat, bit: nat) {
    Shr(word, bit) % 2 == 1
  }

  /** The low `n` bits of a word, least significant first. */
  function Bits(word: nat, n: nat): (bits: seq<bool>)
    ensures |bits| == n
  {
    if n == 0 then [] else [word % 2 == 1] + Bits(word / 2, n - 1)
  }

  /** The word whose low bits are given, least significant first. */
  function FromBits(bits: seq<bool>): (word: nat)
    ensures word < Pow2(|bits|)
  {
    if |bits| == 0 then 0 else (if bits[0] then 1 else 0) + 2 * FromBits(bits[1..])
  }

  lemma {:induction false} BitsFromBits(bits: seq<bool>)
    ensures Bits(FromBits(bits), |bits|) == bits
  {
    if |bits| != 0 {
      BitsFromBits(bits[1..]);
      assert FromBits(bits) / 2 == FromBits(bits[1..]);
    }
  }

  lemma {:induction false} BitsAreShifts(word: nat, n: nat, i: nat)
    requires i < n
    ensures Bits(word, n)[i] <==> Bit(word, i)
  {
    if i != 0 {
      BitsAreShifts(word / 2, n - 1, i - 1);
    }
  }

  function Pow2(n: nat): (p: nat)
    ensures 0 < p
  {
    if n == 0 then 1 else 2 * Pow2(n - 1)
  }

  lemma Pow2Values()
    ensures Pow2(1) == 2 && Pow2(2) == 4 && Pow2(3) == 8 && Pow2(4) == 16 && Pow2(5) == 32 && Pow2(6) == 64
    ensures Pow2(16) == 0x1_0000
  {
    assert Pow2(6) == 64;
    assert Pow2(9) == 8 * Pow2(6);
    assert Pow2(12) == 8 * Pow2(9);
    assert Pow2(15) == 8 * Pow2(12);
  }

  lemma {:induction false} Pow2Add(j: nat, k: nat)
    ensures Pow2(j + k) == Pow2(j) * Pow2(k)
  {
    if k != 0 {
      Pow2Add(j, k - 1);
    }
  }

  lemma Pow2Of64()
    ensures Pow2(32) == 0x1_0000_0000 && Pow2(64) == 0x1_0000_0000_0000_0000
  {
    Pow2Values();
    Pow2Add(16, 16);
    Pow2Add(32, 32);
  }

  /** A shift leaves only the bits above the shift. */
  lemma ShrBelow(v: nat, k: nat, w: nat)
    requires v < Pow2(k + w)
    ensures Shr(v, k) < Pow2(w)
  {
    ShrIsDiv(v, k);
    Pow2Add(k, w);
    QuotientBelow(v, Pow2(k), Pow2(w));
  }

  lemma {:induction false} ShrShr(v: nat, j: nat, k: nat)
    ensures Shr(Shr(v, j), k) == Shr(v, j + k)
  {
    if j != 0 {
      ShrShr(v / 2, j - 1, k);
    }
  }

  lemma {:induction false} ShrIsDiv(v: nat, k: nat)
    ensures Shr(v, k) == v / Pow2(k)
  {
    if k != 0 {
      ShrIsDiv(v / 2, k - 1);
      HalveFirst(v, Pow2(k - 1));
    }
  }

  lemma HalveFirst(v: nat, d: nat)
    requires 0 < d
    ensures v / 2 / d == v / (2 * d)
  {
    var x := v / 2;
    var y, r := x / d, x % d;
    assert v == (2 * d) * y + (2 * r + v % 2) by {
      assert x == d * y + r;
    }
    DivUnique(v, 2 * d, y, 2 * r + v % 2);
  }

  lemma DivUnique(u: nat, d: nat, q: nat, r: nat)
    requires 0 < d && u == d * q + r && r < d
    ensures u / d == q && u % d == r
  {
    var k := u / d - q;
    assert d * k == r - u % d by {
      assert u == d * (u / d) + u % d;
      assert d * k == d * (u / d) - d * q;
    }
    SmallMultiple(d, k);
  }

  lemma SmallMultiple(d: int, k: int)
    requires -d < d * k < d
    ensures k == 0
  {
  }

  lemma ShrZero(v: nat)
    ensures Shr(v, 0) == v
  {
  }

  /** A shifted word is what is above its lowest window of `w` bits, and that window. */
  lemma SplitWindow(v: nat, k: nat, w: nat)
    ensures Shr(v, k) == Pow2(w) * Shr(v, k + w) + Shr(v, k) % Pow2(w)
  {
    ShrShr(v, k, w);
    ShrIsDiv(Shr(v, k), w);
  }

  /** Reads a window back from a word laid out as what is above it, and the window. */
  lemma ReadWindow(v: nat, k: nat, w: nat, above: nat, window: nat)
    requires Shr(v, k) == Pow2(w) * above + window && window < Pow2(w)
    ensures Shr(v, k) % Pow2(w) == window && Shr(v, k + w) == above
  {
    ShrShr(v, k, w);
    ShrIsDiv(Shr(v, k), w);
    DivUnique(Shr(v, k), Pow2(w), above, window);
  }

  /** All byte strings of a list, one after the other. */
  function Join(parts: seq<bytes>): bytes {
    if |parts| == 0 then [] else Join(parts[..|parts| - 1]) + parts[|parts| - 1]
  }

  lemma {:induction false} JoinConcat(a: seq<bytes>, b: seq<bytes>)
    ensures Join(a + b) == Join(a) + Join(b)
  {
    if |b| == 0 {
      assert a + b == a;
    } else {
      JoinConcat(a, b[..|b| - 1]);
      assert (a + b)[..|a + b| - 1] == a + b[..|b| - 1];
    }
  }

  lemma JoinOne(a: bytes)
    ensures Join([a]) == a
  {
    assert [a][..0] == [];
  }
}
