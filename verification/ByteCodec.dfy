/**
 Storing integers in a byte buffer and loading them again, low byte first: the portable macros,
 for machines on which memory cannot simply be copied.

 An argument is any integer. On two's complement `>>` is division that rounds down, and a cast to
 an unsigned type takes the remainder: `/` and `%`. Unsigned sums and shifts wrap at their width.
 */
module ByteCodec {

  type byte = b: int | 0 <= b < 0x100

  const TWO_TO_THE_16 := 0x1_0000
  const TWO_TO_THE_32 := 0x1_0000_0000
  const TWO_TO_THE_64 := 0x1_0000_0000_0000_0000

  function UChar(a: int): byte {
    a % 0x100
  }

  function UInt16(a: int): (r: int)
    ensures 0 <= r < TWO_TO_THE_16
    ensures 0 <= a < TWO_TO_THE_16 ==> r == a
  {
    a % TWO_TO_THE_16
  }

  function UInt32(a: int): (r: int)
    ensures 0 <= r < TWO_TO_THE_32
    ensures 0 <= a < TWO_TO_THE_32 ==> r == a
  {
    a % TWO_TO_THE_32
  }

  function UInt64(a: int): (r: int)
    ensures 0 <= r < TWO_TO_THE_64
    ensures 0 <= a < TWO_TO_THE_64 ==> r == a
  {
    a % TWO_TO_THE_64
  }

  /** A cast to the signed type with m values: the value in its range that is equal modulo m. */
  function Signed(a: int, m: int): int
    requires m > 0
  {
    var r := a % m;
    if 2 * r < m then r else r - m
  }

  predicate InRange(a: int, m: int) {
    -m <= 2 * a < m
  }

  lemma {:induction false} ModUnique(a: int, m: int, q: int, r: int)
    requires 0 <= r < m && a == q * m + r
    ensures a % m == r && a / m == q
  {
    var d := q - a / m;
    assert d * m == a % m - r by {
      assert d * m == q * m - (a / m) * m;
    }
    Multiple(d, m);
  }

  lemma {:induction false} Multiple(d: int, m: nat)
    ensures d > 0 ==> d * m >= m
    ensures d < 0 ==> d * m + m <= 0
  {
  }

  /** A cast to a signed type keeps a value exactly when the type can hold it. */
  lemma {:induction false} SignedKeeps(a: int, m: int)
    requires m > 0
    ensures Signed(a, m) == a <==> InRange(a, m)
    ensures Signed(a % m, m) == Signed(a, m)
  {
    ModUnique(a % m, m, 0, a % m);
    if 0 <= 2 * a < m {
      ModUnique(a, m, 0, a);
    } else if -m <= 2 * a < 0 {
      ModUnique(a, m, -1, a + m);
    }
  }

  // ---------- Little-endian numbers ----------

  /** The n low bytes of a, lowest first. */
  function Bytes(a: int, n: nat): (s: seq<byte>)
    ensures |s| == n
    decreases n
  {
    if n == 0 then [] else [UChar(a)] + Bytes(a / 0x100, n - 1)
  }

  /** The number that the bytes spell, lowest first. */
  function Value(s: seq<byte>): nat {
    if s == [] then 0 else s[0] + 0x100 * Value(s[1..])
  }

  function Pow256(n: nat): (p: nat)
    ensures p > 0
  {
    if n == 0 then 1 else 0x100 * Pow256(n - 1)
  }

  /** Reading the n low bytes of a gives a modulo 2^(8n). */
  lemma {:induction false} ValueOfBytes(a: int, n: nat)
    ensures Value(Bytes(a, n)) == a % Pow256(n)
    decreases n
  {
    if n > 0 {
      ValueOfBytes(a / 0x100, n - 1);
      assert Bytes(a, n)[1..] == Bytes(a / 0x100, n - 1);
      LowByte(a, Pow256(n - 1));
    }
  }

  lemma {:induction false} LowByte(a: int, p: nat)
    requires p > 0
    ensures a % 0x100 + 0x100 * ((a / 0x100) % p) == a % (0x100 * p)
    ensures (a / 0x100) / p == a / (0x100 * p)
  {
    var q, r := (a / 0x100) / p, (a / 0x100) % p;
    assert a / 0x100 == q * p + r;
    ModUnique(a, 0x100 * p, q, 0x100 * r + a % 0x100);
  }

  lemma {:induction false} ValueBound(s: seq<byte>)
    ensures Value(s) < Pow256(|s|)
  {
    if s != [] {
      ValueBound(s[1..]);
    }
  }

  /** No two byte strings of one length spell the same number. */
  lemma {:induction false} BytesOfValue(s: seq<byte>)
    ensures Bytes(Value(s), |s|) == s
  {
    if s != [] {
      BytesOfValue(s[1..]);
      assert Value(s) / 0x100 == Value(s[1..]);
    }
  }

  /** The bytes that are kept depend on the value modulo 2^(8n) only. */
  lemma {:induction false} BytesModulo(a: int, n: nat)
    ensures Bytes(a % Pow256(n), n) == Bytes(a, n)
  {
    ValueOfBytes(a, n);
    BytesOfValue(Bytes(a, n));
  }

  /** The low n bytes, then m bytes of the rest. */
  lemma {:induction false} BytesSplit(a: int, n: nat, m: nat)
    ensures Bytes(a, n + m) == Bytes(a, n) + Bytes(a / Pow256(n), m)
    decreases n
  {
    if n > 0 {
      BytesSplit(a / 0x100, n - 1, m);
      LowByte(a, Pow256(n - 1));
    }
  }

  lemma {:induction false} ByteAt(a: int, n: nat, k: nat)
    requires k < n
    ensures Bytes(a, n)[k] == UChar(a / Pow256(k))
    decreases n
  {
    if k > 0 {
      ByteAt(a / 0x100, n - 1, k - 1);
      LowByte(a, Pow256(k - 1));
    }
  }

  lemma {:induction false} ValueConcat(s: seq<byte>, t: seq<byte>)
    ensures Value(s + t) == Value(s) + Pow256(|s|) * Value(t)
  {
    if s == [] {
      assert s + t == t;
    } else {
      assert (s + t)[1..] == s[1..] + t;
      ValueConcat(s[1..], t);
      Spread(Pow256(|s| - 1), Value(t));
      assert (s + t)[0] == s[0];
    }
  }

  lemma {:induction false} Spread(p: nat, v: nat)
    ensures 0x100 * (p * v) == (0x100 * p) * v
  {
  }

  // ---------- Storing ----------

  /** The buffer t holds `was` with the n bytes from `at` on replaced. */
  predicate Patched(now: seq<byte>, was: seq<byte>, at: nat, bytes: seq<byte>) {
    at + |bytes| <= |was| && now == was[..at] + bytes + was[at + |bytes|..]
  }

  lemma {:induction false} Powers()
    ensures Pow256(0) == 1 && Pow256(1) == 0x100 && Pow256(2) == TWO_TO_THE_16 && Pow256(3) == 0x100_0000
    ensures Pow256(4) == TWO_TO_THE_32 && Pow256(5) == 0x100_0000_0000 && Pow256(8) == TWO_TO_THE_64
  {
    assert Pow256(2) == 0x100 * Pow256(1);
    assert Pow256(4) == 0x100 * Pow256(3);
    assert Pow256(6) == 0x100 * Pow256(5);
    assert Pow256(8) == 0x100 * Pow256(7);
  }

  /** A cast to 32 bits keeps the low bytes. */
  lemma {:induction false} BytesOfLow(a: int, n: nat)
    requires n <= 4
    ensures Bytes(UInt32(a), n) == Bytes(a, n)
  {
    Powers();
    BytesModulo(a, 4);
    BytesSplit(a, n, 4 - n);
    BytesSplit(UInt32(a), n, 4 - n);
    assert Bytes(a, 4)[..n] == Bytes(a, n) && Bytes(UInt32(a), 4)[..n] == Bytes(UInt32(a), n);
  }

  lemma {:induction false} EightBytes(a: int)
    ensures Bytes(UInt32(a), 4) + Bytes(UInt32(a / TWO_TO_THE_32), 4) == Bytes(a, 8)
  {
    Powers();
    BytesOfLow(a, 4);
    BytesOfLow(a / TWO_TO_THE_32, 4);
    BytesSplit(a, 4, 4);
  }

  lemma {:induction false} PatchedTwice(now: seq<byte>, before: seq<byte>, was: seq<byte>, at: nat, low: seq<byte>,
                                        high: seq<byte>)
    requires Patched(before, was, at, low) && Patched(now, before, at + |low|, high)
    ensures Patched(now, was, at, low + high)
  {
    assert before[..at + |low|] == was[..at] + low;
    assert before[at + |low| + |high|..] == was[at + |low| + |high|..];
  }

  method Int2Store(t: array<byte>, at: nat, a: int)
    requires at + 2 <= t.Length
    modifies t
    ensures Patched(t[..], old(t[..]), at, Bytes(a, 2))
  {
    var temp := UInt32(a);
    t[at] := UChar(temp);
    t[at + 1] := UChar(temp / 0x100);
    Powers();
    BytesOfLow(a, 2);
    ByteAt(temp, 2, 0);
    ByteAt(temp, 2, 1);
  }

  method Int3Store(t: array<byte>, at: nat, a: int)
    requires at + 3 <= t.Length
    modifies t
    ensures Patched(t[..], old(t[..]), at, Bytes(a, 3))
  {
    t[at] := UChar(a);
    t[at + 1] := UChar(a / 0x100);
    t[at + 2] := UChar(a / 0x1_0000);
    Powers();
    ByteAt(a, 3, 0);
    ByteAt(a, 3, 1);
    ByteAt(a, 3, 2);
  }

  method Int4Store(t: array<byte>, at: nat, a: int)
    requires at + 4 <= t.Length
    modifies t
    ensures Patched(t[..], old(t[..]), at, Bytes(a, 4))
  {
    t[at] := UChar(a);
    t[at + 1] := UChar(a / 0x100);
    t[at + 2] := UChar(a / 0x1_0000);
    t[at + 3] := UChar(a / 0x100_0000);
    Powers();
    ByteAt(a, 4, 0);
    ByteAt(a, 4, 1);
    ByteAt(a, 4, 2);
    ByteAt(a, 4, 3);
  }

  method Int5Store(t: array<byte>, at: nat, a: int)
    requires at + 5 <= t.Length
    modifies t
    ensures Patched(t[..], old(t[..]), at, Bytes(a, 5))
  {
    t[at] := UChar(a);
    t[at + 1] := UChar(a / 0x100);
    t[at + 2] := UChar(a / 0x1_0000);
    t[at + 3] := UChar(a / 0x100_0000);
    t[at + 4] := UChar(a / 0x1_0000_0000);
    Powers();
    ByteAt(a, 5, 0);
    ByteAt(a, 5, 1);
    ByteAt(a, 5, 2);
    ByteAt(a, 5, 3);
    ByteAt(a, 5, 4);
  }

  /** Two stores of four bytes each, of the low and of the high half. */
  method Int8Store(t: array<byte>, at: nat, a: int)
    requires at + 8 <= t.Length
    modifies t
    ensures Patched(t[..], old(t[..]), at, Bytes(a, 8))
  {
    var low, high := UInt32(a), UInt32(a / TWO_TO_THE_32);
    Int4Store(t, at, low);
    ghost var before := t[..];
    Int4Store(t, at + 4, high);
    EightBytes(a);
    PatchedTwice(t[..], before, old(t[..]), at, Bytes(low, 4), Bytes(high, 4));
  }

  // ---------- Loading ----------

  // The loads read the bytes s from their address on.

  function UInt2Korr(s: seq<byte>): int
    requires |s| >= 2
  {
    UInt16(UInt16(s[0]) + UInt16(s[1]) * 0x100)
  }

  function UInt3Korr(s: seq<byte>): int
    requires |s| >= 3
  {
    UInt32(UInt32(s[0]) + UInt32(s[1] as nat * 0x100) + UInt32(s[2] as nat * 0x1_0000))
  }

  function UInt4Korr(s: seq<byte>): int
    requires |s| >= 4
  {
    UInt32(UInt32(s[0]) + UInt32(s[1] as nat * 0x100) + UInt32(s[2] as nat * 0x1_0000)
           + UInt32(s[3] as nat * 0x100_0000))
  }

  function UInt5Korr(s: seq<byte>): int
    requires |s| >= 5
  {
    UInt64(UInt4Korr(s) + UInt64(s[4] as nat * TWO_TO_THE_32))
  }

  function UInt8Korr(s: seq<byte>): int
    requires |s| >= 8
  {
    UInt64(UInt4Korr(s) + UInt64(UInt4Korr(s[4..]) * TWO_TO_THE_32))
  }

  /** A byte read through a plain `char` pointer, which may be signed. */
  function Plain(b: byte, signedChar: bool): int {
    if signedChar then Signed(b, 0x100) else b
  }

  function SInt2Korr(s: seq<byte>, signedChar: bool): int
    requires |s| >= 2
  {
    Signed(s[0] + Plain(s[1], signedChar) * 0x100, TWO_TO_THE_16)
  }

  function SInt3Korr(s: seq<byte>): int
    requires |s| >= 3
  {
    Signed(
      if (s[2] / 0x80) % 2 == 1 then Or(Or(Or(0xFF * 0x100_0000, s[2] as nat * 0x1_0000), s[1] as nat * 0x100), s[0])
      else Or(Or(s[2] as nat * 0x1_0000, s[1] as nat * 0x100), s[0]),
      TWO_TO_THE_32)
  }

  function SInt4Korr(s: seq<byte>, signedChar: bool): int
    requires |s| >= 4
  {
    Signed(
      s[0] + s[1] as nat * 0x100 + s[2] as nat * 0x1_0000 + Signed(Plain(s[3], signedChar) * 0x100_0000, TWO_TO_THE_32),
      TWO_TO_THE_32)
  }

  function SInt8Korr(s: seq<byte>): int
    requires |s| >= 8
  {
    Signed(UInt8Korr(s), TWO_TO_THE_64)
  }

  /** Four bytes in network order. */
  function Int4Net(s: seq<byte>): int
    requires |s| >= 4
  {
    Signed(Or(Or(Or(s[3], s[2] as nat * 0x100), s[1] as nat * 0x1_0000), s[0] as nat * 0x100_0000), TWO_TO_THE_32)
  }

  // ---------- Bitwise or ----------

  function Or(x: nat, y: nat): nat
    decreases x + y
  {
    if x == 0 && y == 0 then 0
    else (if x % 2 == 1 || y % 2 == 1 then 1 else 0) + 2 * Or(x / 2, y / 2)
  }

  function Pow2(n: nat): (p: nat)
    ensures p > 0
  {
    if n == 0 then 1 else 2 * Pow2(n - 1)
  }

  lemma {:induction false} OrZero(y: nat)
    ensures Or(0, y) == y && Or(y, 0) == y
  {
    if y > 0 {
      OrZero(y / 2);
    }
  }

  /** Numbers that share no bit are added. */
  lemma {:induction false} OrAdds(low: nat, high: nat, n: nat)
    requires low < Pow2(n)
    ensures Or(low, high * Pow2(n)) == low + high * Pow2(n) == Or(high * Pow2(n), low)
    decreases n
  {
    if n == 0 {
      OrZero(high);
    } else {
      var y := high * Pow2(n - 1);
      Doubled(high, Pow2(n - 1));
      OrAdds(low / 2, high, n - 1);
      assert high * Pow2(n) == 2 * y;
    }
  }

  lemma {:induction false} Doubled(a: nat, b: nat)
    ensures a * (2 * b) == 2 * (a * b)
  {
  }

  lemma {:induction false} OrBytes(low: nat, high: nat, n: nat, p: nat)
    requires p == Pow2(n) && low < p
    ensures Or(low, high * p) == low + high * p == Or(high * p, low)
  {
    OrAdds(low, high, n);
  }

  lemma {:induction false} BytePowers()
    ensures Pow2(8) == 0x100 && Pow2(16) == 0x1_0000 && Pow2(24) == 0x100_0000
  {
    PowAdds(4, 4);
    PowAdds(8, 8);
    PowAdds(8, 16);
    assert Pow2(4) == 2 * 2 * Pow2(2) == 16;
  }

  lemma {:induction false} PowAdds(n: nat, m: nat)
    ensures Pow2(n + m) == Pow2(n) * Pow2(m)
  {
    if n > 0 {
      PowAdds(n - 1, m);
    }
  }

  // ---------- What the loads read ----------

  function Weighted(a: nat, b: nat, c: nat, d: nat): nat {
    a + b * 0x100 + c * 0x1_0000 + d * 0x100_0000
  }

  lemma {:induction false} ValueIs(s: seq<byte>)
    ensures |s| == 1 ==> Value(s) == s[0]
    ensures |s| == 2 ==> Value(s) == s[0] as nat + s[1] as nat * 0x100
    ensures |s| == 3 ==> Value(s) == s[0] as nat + s[1] as nat * 0x100 + s[2] as nat * 0x1_0000
    ensures |s| == 4 ==>
              Value(s) == s[0] as nat + s[1] as nat * 0x100 + s[2] as nat * 0x1_0000 + s[3] as nat * 0x100_0000
    decreases s
  {
    if s != [] {
      ValueIs(s[1..]);
    }
  }

  /** The unsigned loads read the little-endian number; nothing wraps. */
  lemma {:induction false} Loads2(s: seq<byte>)
    requires |s| >= 2
    ensures UInt2Korr(s) == Value(s[..2])
  {
    ValueIs(s[..2]);
  }

  lemma {:induction false} Loads3(s: seq<byte>)
    requires |s| >= 3
    ensures UInt3Korr(s) == Value(s[..3])
  {
    ValueIs(s[..3]);
  }

  lemma {:induction false} Loads4(s: seq<byte>)
    requires |s| >= 4
    ensures UInt4Korr(s) == Value(s[..4]) < TWO_TO_THE_32
  {
    ValueIs(s[..4]);
  }

  lemma {:induction false} Loads5(s: seq<byte>)
    requires |s| >= 5
    ensures UInt5Korr(s) == Value(s[..5])
  {
    Loads4(s);
    Powers();
    assert s[..5] == s[..4] + [s[4]];
    ValueConcat(s[..4], [s[4]]);
    ValueIs([s[4]]);
  }

  lemma {:induction false} Loads8(s: seq<byte>)
    requires |s| >= 8
    ensures UInt8Korr(s) == Value(s[..8])
  {
    Loads4(s);
    Loads4(s[4..]);
    Powers();
    assert s[..8] == s[..4] + s[4..][..4];
    ValueConcat(s[..4], s[4..][..4]);
  }

  /** The signed loads are the unsigned ones cast to the signed type, whether or not `char` is signed. */
  lemma {:induction false} SignedLoad2(s: seq<byte>, signedChar: bool)
    requires |s| >= 2
    ensures SInt2Korr(s, signedChar) == Signed(UInt2Korr(s), TWO_TO_THE_16)
  {
    Wraps(s[0], s[1], Plain(s[1], signedChar));
  }

  lemma {:induction false} Wraps(a: int, b: int, plain: int)
    requires plain == b || plain == b - 0x100
    ensures (a + plain * 0x100) % TWO_TO_THE_16 == (a + b * 0x100) % TWO_TO_THE_16
  {
  }

  lemma {:induction false} SignedWeights3(s: seq<byte>)
    requires |s| >= 3
    ensures var v := Weighted(s[0], s[1], s[2], 0);
            SInt3Korr(s) == Signed(if (s[2] / 0x80) % 2 == 1 then 0xFF * 0x100_0000 + v else v, TWO_TO_THE_32)
  {
    ThreeBytes(s[0], s[1], s[2]);
  }

  lemma {:induction false} LoadWeights3(s: seq<byte>)
    requires |s| >= 3
    ensures UInt3Korr(s) == Weighted(s[0], s[1], s[2], 0)
  {
    assert Weighted(s[0], s[1], s[2], 0) < TWO_TO_THE_32;
  }

  lemma {:induction false} SignedLoad3(s: seq<byte>)
    requires |s| >= 3
    ensures SInt3Korr(s) == Signed(UInt3Korr(s), 0x100_0000)
  {
    SignedWeights3(s);
    LoadWeights3(s);
    SignBit(s[0], s[1], s[2]);
  }

  lemma {:induction false} SignBit(a: byte, b: byte, c: byte)
    ensures var v := Weighted(a, b, c, 0);
            Signed(v, 0x100_0000) == Signed(if (c / 0x80) % 2 == 1 then 0xFF * 0x100_0000 + v else v, TWO_TO_THE_32)
  {
    var v := Weighted(a, b, c, 0);
    assert c / 0x80 == if c >= 0x80 then 1 else 0;
    ModUnique(v, 0x100_0000, 0, v);
    ModUnique(v, TWO_TO_THE_32, 0, v);
    ModUnique(0xFF * 0x100_0000 + v, TWO_TO_THE_32, 0, 0xFF * 0x100_0000 + v);
  }

  lemma {:induction false} SignedLoad4(s: seq<byte>, signedChar: bool)
    requires |s| >= 4
    ensures SInt4Korr(s, signedChar) == Signed(UInt4Korr(s), TWO_TO_THE_32)
  {
    var low := s[0] as nat + s[1] as nat * 0x100 + s[2] as nat * 0x1_0000;
    assert UInt4Korr(s) == low + s[3] as nat * 0x100_0000;
    TopByte(low, s[3], Plain(s[3], signedChar));
  }

  lemma {:induction false} TopByte(low: nat, b: int, plain: int)
    requires low < 0x100_0000 && (plain == b || plain == b - 0x100)
    ensures Signed(low + Signed(plain * 0x100_0000, TWO_TO_THE_32), TWO_TO_THE_32) ==
            Signed(low + b * 0x100_0000, TWO_TO_THE_32)
  {
  }

  lemma {:induction false} ThreeBytes(a: nat, b: nat, c: nat)
    requires a < 0x100 && b < 0x100 && c < 0x100
    ensures Or(Or(c * 0x1_0000, b * 0x100), a) == c * 0x1_0000 + b * 0x100 + a
    ensures Or(Or(Or(0xFF * 0x100_0000, c * 0x1_0000), b * 0x100), a) ==
            0xFF * 0x100_0000 + c * 0x1_0000 + b * 0x100 + a
  {
    BytePowers();
    OrBytes(b * 0x100, c, 16, 0x1_0000);
    OrBytes(a, c * 0x100 + b, 8, 0x100);
    OrBytes(c * 0x1_0000, 0xFF, 24, 0x100_0000);
    OrBytes(b * 0x100, 0xFF * 0x100 + c, 16, 0x1_0000);
    OrBytes(a, 0xFF * 0x1_0000 + c * 0x100 + b, 8, 0x100);
  }

  lemma {:induction false} FourBytes(a: nat, b: nat, c: nat, d: nat)
    requires a < 0x100 && b < 0x100 && c < 0x100
    ensures Or(Or(Or(a, b * 0x100), c * 0x1_0000), d * 0x100_0000) == a + b * 0x100 + c * 0x1_0000 + d * 0x100_0000
  {
    BytePowers();
    OrBytes(a, b, 8, 0x100);
    OrBytes(a + b * 0x100, c, 16, 0x1_0000);
    OrBytes(a + b * 0x100 + c * 0x1_0000, d, 24, 0x100_0000);
  }

  lemma {:induction false} NetWeights(s: seq<byte>)
    requires |s| >= 4
    ensures Int4Net(s) == Signed(Weighted(s[3], s[2], s[1], s[0]), TWO_TO_THE_32)
  {
    FourBytes(s[3], s[2], s[1], s[0]);
  }

  lemma {:induction false} LoadWeights(s: seq<byte>)
    requires |s| >= 4
    ensures UInt4Korr(s) == Weighted(s[0], s[1], s[2], s[3])
  {
    assert Weighted(s[0], s[1], s[2], s[3]) < TWO_TO_THE_32;
  }

  /** Network order is the reverse of the order in which the buffer is stored. */
  lemma {:induction false} NetIsReversed(s: seq<byte>, r: seq<byte>, signedChar: bool)
    requires |s| >= 4 && |r| >= 4 && r[..4] == [s[3], s[2], s[1], s[0]]
    ensures Int4Net(s) == SInt4Korr(r, signedChar)
  {
    NetWeights(s);
    SignedLoad4(r, signedChar);
    LoadWeights(r);
    assert r[0] == r[..4][0] && r[1] == r[..4][1] && r[2] == r[..4][2] && r[3] == r[..4][3];
  }

  // ---------- Round trips ----------

  /** The memory s starts with the n low bytes of a, as a store leaves it. */
  predicate Starts(s: seq<byte>, a: int, n: nat) {
    |s| >= n && s[..n] == Bytes(a, n)
  }

  /** After a store of n bytes the memory from its address on starts with them, and nothing else changed. */
  lemma {:induction false} StoredStarts(now: seq<byte>, was: seq<byte>, at: nat, a: int, n: nat)
    requires Patched(now, was, at, Bytes(a, n))
    ensures |now| == |was| && Starts(now[at..], a, n)
    ensures forall i :: 0 <= i < |was| && !(at <= i < at + n) ==> now[i] == was[i]
  {
    assert now[at..] == Bytes(a, n) + was[at + n..];
  }

  /** A load gives back what was stored, modulo the width that was stored. */
  lemma {:induction false} UnsignedRoundTrip(s: seq<byte>, a: int)
    ensures Starts(s, a, 2) ==> UInt2Korr(s) == a % 0x1_0000
    ensures Starts(s, a, 3) ==> UInt3Korr(s) == a % 0x100_0000
    ensures Starts(s, a, 4) ==> UInt4Korr(s) == a % 0x1_0000_0000
  {
    Powers();
    if Starts(s, a, 2) {
      Loads2(s);
      ValueOfBytes(a, 2);
    }
    if Starts(s, a, 3) {
      Loads3(s);
      ValueOfBytes(a, 3);
    }
    if Starts(s, a, 4) {
      Loads4(s);
      ValueOfBytes(a, 4);
    }
  }

  lemma {:induction false} UnsignedRoundTripLong(s: seq<byte>, a: int)
    ensures Starts(s, a, 5) ==> UInt5Korr(s) == a % 0x100_0000_0000
    ensures Starts(s, a, 8) ==> UInt8Korr(s) == a % 0x1_0000_0000_0000_0000
  {
    Powers();
    if Starts(s, a, 5) {
      Loads5(s);
      ValueOfBytes(a, 5);
    }
    if Starts(s, a, 8) {
      Loads8(s);
      ValueOfBytes(a, 8);
    }
  }

  /** A signed load gives back exactly what was stored if and only if the width could hold it. */
  lemma {:induction false} SignedRoundTrip(s: seq<byte>, a: int, signedChar: bool)
    ensures Starts(s, a, 2) ==> (SInt2Korr(s, signedChar) == a <==> -0x8000 <= a < 0x8000)
    ensures Starts(s, a, 3) ==> (SInt3Korr(s) == a <==> -0x80_0000 <= a < 0x80_0000)
    ensures Starts(s, a, 4) ==> (SInt4Korr(s, signedChar) == a <==> -0x8000_0000 <= a < 0x8000_0000)
  {
    UnsignedRoundTrip(s, a);
    if |s| >= 2 {
      SignedLoad2(s, signedChar);
      SignedKeeps(a, TWO_TO_THE_16);
    }
    if |s| >= 3 {
      SignedLoad3(s);
      SignedKeeps(a, 0x100_0000);
    }
    if |s| >= 4 {
      SignedLoad4(s, signedChar);
      SignedKeeps(a, TWO_TO_THE_32);
    }
  }

  lemma {:induction false} SignedRoundTripLong(s: seq<byte>, a: int)
    requires Starts(s, a, 8)
    ensures SInt8Korr(s) == a <==> -0x8000_0000_0000_0000 <= a < 0x8000_0000_0000_0000
  {
    UnsignedRoundTripLong(s, a);
    SignedKeeps(a, TWO_TO_THE_64);
  }
}
