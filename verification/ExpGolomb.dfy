/** The bit reader of internal/media/h264.go against the Exp-Golomb codes of sections 9.1 and 9.1.1 of ITU-T H.264. */
module ExpGolomb {
  import opened Basics

  function Pow2(n: nat): (r: nat)
    ensures r > 0
  {
    if n == 0 then 1 else 2 * Pow2(n - 1)
  }

  /** Bit i of a byte string, most significant bit of each byte first. */
  function RawBit(data: seq<Byte>, i: nat): (b: nat)
    requires i < 8 * |data|
    ensures b <= 1
  {
    (data[i / 8] / Pow2(7 - i % 8)) % 2
  }

  function Bits(data: seq<Byte>): (bits: seq<bool>)
    ensures |bits| == 8 * |data|
  {
    seq(8 * |data|, i requires 0 <= i < 8 * |data| => RawBit(data, i) == 1)
  }

  function One(b: bool): nat { if b then 1 else 0 }

  /** The number written in binary, most significant bit first. */
  function Value(bits: seq<bool>): (v: nat)
    ensures v < Pow2(|bits|)
  {
    if bits == [] then 0 else 2 * Value(bits[..|bits| - 1]) + One(bits[|bits| - 1])
  }

  function Binary(v: nat, count: nat): (bits: seq<bool>)
    requires v < Pow2(count)
    ensures |bits| == count
  {
    if count == 0 then [] else Binary(v / 2, count - 1) + [v % 2 == 1]
  }

  lemma {:induction false} ValueOfBinary(v: nat, count: nat)
    requires v < Pow2(count)
    ensures Value(Binary(v, count)) == v
    decreases count
  {
    if count > 0 {
      ValueOfBinary(v / 2, count - 1);
      var bits := Binary(v, count);
      assert bits[..count - 1] == Binary(v / 2, count - 1);
    }
  }

  lemma {:induction false} BinaryOfValue(bits: seq<bool>)
    ensures Binary(Value(bits), |bits|) == bits
    decreases |bits|
  {
    if bits != [] {
      BinaryOfValue(bits[..|bits| - 1]);
      assert bits == bits[..|bits| - 1] + [bits[|bits| - 1]];
    }
  }

  lemma BinaryIs(bits: seq<bool>, v: nat, count: nat)
    requires |bits| == count && v < Pow2(count)
    ensures bits == Binary(v, count) <==> Value(bits) == v
  {
    hide Value, Binary;
    ValueOfBinary(v, count);
    BinaryOfValue(bits);
  }

  // ---------- The codes of the standard ----------

  /** The number of leading zeros of the code of v: the largest z with 2^z <= v + 1. */
  function Zeros(v: nat): (z: nat)
    ensures Pow2(z) <= v + 1 < Pow2(z + 1)
    decreases v
  {
    if v == 0 then 0 else 1 + Zeros((v - 1) / 2)
  }

  /** Zeros, a one, and a suffix. */
  function Word(z: nat, suffix: seq<bool>): (word: seq<bool>)
    ensures |word| == z + 1 + |suffix|
  {
    seq(z, _ => false) + [true] + suffix
  }

  /** ue(v): zeros, a one, and the rest of v + 1 in binary. */
  function CodeUE(v: nat): (code: seq<bool>)
    ensures |code| == 2 * Zeros(v) + 1
  {
    Word(Zeros(v), Binary(v + 1 - Pow2(Zeros(v)), Zeros(v)))
  }

  /** se(v): positive numbers take the odd places, zero and negative numbers the even ones. */
  function MapSE(v: int): nat { if v > 0 then 2 * v - 1 else -2 * v }

  /** What readSE makes of an unsigned value. */
  function UnmapSE(u: nat): int { if u % 2 == 0 then -(u / 2) else (u + 1) / 2 }

  lemma MapBothWays(u: nat, v: int)
    ensures MapSE(UnmapSE(u)) == u && UnmapSE(MapSE(v)) == v
  {
  }

  /** The largest value whose code has at most 31 leading zeros. */
  const MAX_UE: nat := 0xFFFF_FFFE

  lemma PowersOfTwo()
    ensures Pow2(31) == 0x8000_0000 && Pow2(32) == 0x1_0000_0000
  {
    assert Pow2(8) == 256;
    assert Pow2(16) == 65536;
    assert Pow2(24) == 16777216;
  }

  lemma {:induction false} Pow2Grows(a: nat, b: nat)
    requires a <= b
    ensures Pow2(a) <= Pow2(b)
    decreases b - a
  {
    if a < b {
      Pow2Grows(a, b - 1);
    }
  }

  lemma ZerosIs(v: nat, z: nat)
    requires Pow2(z) <= v + 1 < Pow2(z + 1)
    ensures Zeros(v) == z
  {
    hide Pow2, Zeros;
    if Zeros(v) < z {
      Pow2Grows(Zeros(v) + 1, z);
    } else if z < Zeros(v) {
      Pow2Grows(z + 1, Zeros(v));
    }
  }

  lemma ZerosBound(v: nat)
    ensures Zeros(v) <= 31 <==> v <= MAX_UE
  {
    PowersOfTwo();
    hide Pow2, Zeros;
    if Zeros(v) <= 31 {
      Pow2Grows(Zeros(v) + 1, 32);
    } else {
      Pow2Grows(32, Zeros(v));
    }
  }

  /** The first z bits are zero and the next one is not. */
  ghost predicate FirstOne(bits: seq<bool>, z: nat) {
    z < |bits| && bits[z] && forall i :: 0 <= i < z ==> !bits[i]
  }

  /** A word of z zeros, a one and z more bits stands in front exactly when its parts do. */
  lemma WordInFront(bits: seq<bool>, z: nat, suffix: seq<bool>)
    requires |suffix| == z
    ensures Word(z, suffix) <= bits <==>
            FirstOne(bits, z) && 2 * z + 1 <= |bits| && bits[z + 1..2 * z + 1] == suffix
  {
    var word := Word(z, suffix);
    if FirstOne(bits, z) && 2 * z + 1 <= |bits| && bits[z + 1..2 * z + 1] == suffix {
      assert bits[..2 * z + 1] == bits[..z] + [bits[z]] + bits[z + 1..2 * z + 1];
      assert bits[..z] == seq(z, _ => false);
    }
    if word <= bits {
      assert bits[..2 * z + 1] == word && bits[z] == word[z];
      assert forall i :: 0 <= i < z ==> bits[i] == word[i];
      assert bits[z + 1..2 * z + 1] == word[z + 1..];
    }
  }

  lemma CodeIsWord(v: nat)
    ensures v + 1 - Pow2(Zeros(v)) < Pow2(Zeros(v))
    ensures CodeUE(v) == Word(Zeros(v), Binary(v + 1 - Pow2(Zeros(v)), Zeros(v)))
  {
    assert Pow2(Zeros(v) + 1) == 2 * Pow2(Zeros(v));
    hide Zeros, Pow2, Word, Binary;
  }

  /** So the code of v stands in front exactly when its zeros, its one and its suffix do. */
  lemma CodeInFront(bits: seq<bool>, v: nat)
    ensures var z := Zeros(v);
            CodeUE(v) <= bits <==>
            FirstOne(bits, z) && 2 * z + 1 <= |bits| && Value(bits[z + 1..2 * z + 1]) == v + 1 - Pow2(z)
  {
    hide Value, Binary, Zeros, Pow2, FirstOne, Word, CodeUE;
    var z := Zeros(v);
    CodeIsWord(v);
    WordInFront(bits, z, Binary(v + 1 - Pow2(z), z));
    if 2 * z + 1 <= |bits| {
      BinaryIs(bits[z + 1..2 * z + 1], v + 1 - Pow2(z), z);
    }
  }

  lemma OnlyFirst(bits: seq<bool>, zeros: nat, z: nat)
    requires FirstOne(bits, z) && forall i :: 0 <= i < zeros && i < |bits| ==> !bits[i]
    ensures zeros <= z && (zeros < |bits| && bits[zeros] ==> z == zeros)
  {
  }

  /** The value computed from zeros and suffix is in range, and its code stands in front. */
  lemma CodeRead(bits: seq<bool>, z: nat, v: nat)
    requires z <= 31 && FirstOne(bits, z) && 2 * z + 1 <= |bits|
    requires v == Pow2(z) - 1 + Value(bits[z + 1..2 * z + 1])
    ensures |CodeUE(v)| == 2 * z + 1 && v <= MAX_UE && CodeUE(v) <= bits
  {
    hide Pow2, CodeUE, Zeros, Value, FirstOne;
    NextPower(z);
    ZerosIs(v, z);
    ZerosBound(v);
    CodeInFront(bits, v);
  }

  lemma NextPower(z: nat)
    ensures Pow2(z + 1) == 2 * Pow2(z)
  {
  }

  /** And it is the only one: no code is the beginning of another. */
  lemma OneCode(bits: seq<bool>, z: nat, w: nat)
    requires FirstOne(bits, z) && CodeUE(w) <= bits
    ensures 2 * z + 1 <= |bits| && w == Pow2(z) - 1 + Value(bits[z + 1..2 * z + 1])
  {
    hide Pow2, CodeUE, Zeros, Value;
    CodeInFront(bits, w);
    OnlyFirst(bits, z, Zeros(w));
  }

  /** So reading zeros, a one and a suffix finds the one code that stands in front. */
  lemma CodeFound(bits: seq<bool>, z: nat, v: nat)
    requires z <= 31 && FirstOne(bits, z) && 2 * z + 1 <= |bits|
    requires v == Pow2(z) - 1 + Value(bits[z + 1..2 * z + 1])
    ensures |CodeUE(v)| == 2 * z + 1
    ensures forall w: nat :: w == v <==> w <= 0xFFFF_FFFE && CodeUE(w) <= bits
  {
    hide Pow2, CodeUE, Zeros, Value, FirstOne;
    CodeRead(bits, z, v);
    forall w: nat | CodeUE(w) <= bits
      ensures w == v
    {
      OneCode(bits, z, w);
    }
  }

  /** Too many zeros, or the data ends too early: no code in range stands in front. */
  lemma NoCode(bits: seq<bool>, zeros: nat)
    requires forall i :: 0 <= i < zeros && i < |bits| ==> !bits[i]
    requires zeros >= |bits| || zeros >= 32 || (bits[zeros] && 2 * zeros + 1 > |bits|)
    ensures forall v: nat :: v <= 0xFFFF_FFFE ==> !(CodeUE(v) <= bits)
  {
    hide Pow2, CodeUE, Zeros, Value;
    forall v: nat | v <= MAX_UE && CodeUE(v) <= bits
      ensures false
    {
      CodeInFront(bits, v);
      ZerosBound(v);
      OnlyFirst(bits, zeros, Zeros(v));
    }
  }

  // ---------- The reader ----------

  class BitReader {
    const data: seq<Byte>
    var offset: nat

    ghost predicate Valid()
      reads this
    {
      offset <= 8 * |data|
    }

    /** The bits still to be read. */
    ghost function Rest(): seq<bool>
      requires Valid()
      reads this
    {
      Bits(data)[offset..]
    }

    constructor (data: seq<Byte>)
      ensures Valid() && Rest() == Bits(data)
    {
      this.data, offset := data, 0;
      new;
      assert Bits(data)[0..] == Bits(data);
    }

    /** The next bits as a number; the 32-bit shifts never lose a bit, since at most 32 are read. */
    method ReadBits(count: nat) returns (value: Option<nat>)
      requires Valid()
      modifies this
      ensures Valid() && (value.Some? <==> count <= 32 && count <= |old(Rest())|)
      ensures value.None? ==> offset == old(offset)
      ensures value.Some? ==> offset == old(offset) + count && Rest() == old(Rest())[count..]
      ensures value.Some? ==> value.value == Value(old(Rest())[..count])
    {
      if count > 32 || offset + count > 8 * |data| {
        return None;
      }
      hide Value, Bits, Pow2, ShiftIn, RawBit;
      ghost var bits := Rest();
      var v := 0;
      var left := count;
      NoBits(bits);
      while left > 0
        invariant 0 <= left <= count && offset == old(offset) + (count - left)
        invariant v == Value(bits[..count - left])
      {
        BitStep(data, old(offset), count - left);
        v := ShiftIn(v, RawBit(data, offset));
        offset := offset + 1;
        left := left - 1;
      }
      return Some(v);
    }

    /** Reading succeeds with v exactly when the code of v stands here and v is in range, and then moves past it. */
    method ReadUE() returns (value: Option<nat>)
      requires Valid()
      modifies this
      ensures Valid() && forall v: nat :: value == Some(v) <==> v <= 0xFFFF_FFFE && CodeUE(v) <= old(Rest())
      ensures value.Some? ==> Rest() == old(Rest())[|CodeUE(value.value)|..]
    {
      hide Bits, Pow2, CodeUE, Zeros, Value;
      ghost var bits := Rest();
      var zeros := 0;
      while true
        invariant Valid() && 0 <= zeros <= 31 && zeros <= |bits| && Rest() == bits[zeros..]
        invariant forall i :: 0 <= i < zeros ==> !bits[i]
        decreases 32 - zeros
      {
        var bit := ReadBits(1);
        if bit.None? {
          NoCode(bits, zeros);
          return None;
        }
        OneBit(bits[zeros..]);
        if bit.value != 0 {
          break;
        }
        zeros := zeros + 1;
        if zeros > 31 {
          NoCode(bits, zeros);
          return None;
        }
      }
      assert bits[zeros] && Rest() == bits[zeros + 1..];
      var suffix := ReadBits(zeros);
      if suffix.None? {
        NoCode(bits, zeros);
        return None;
      }
      assert bits[zeros + 1..][..zeros] == bits[zeros + 1..2 * zeros + 1];
      var v := Pow2(zeros) - 1 + suffix.value;
      CodeFound(bits, zeros, v);
      return Some(v);
    }

    /** Likewise for signed values. */
    method ReadSE() returns (value: Option<int>)
      requires Valid()
      modifies this
      ensures Valid() && forall v: int :: value == Some(v) <==> -0x7FFF_FFFF <= v <= 0x7FFF_FFFF && CodeUE(MapSE(v)) <= old(Rest())
      ensures value.Some? ==> Rest() == old(Rest())[|CodeUE(MapSE(value.value))|..]
    {
      hide CodeUE, MapSE, UnmapSE, Bits;
      ghost var bits := Rest();
      var u := ReadUE();
      value := if u.None? then None else Some(UnmapSE(u.value));
      forall v: int
        ensures value == Some(v) <==> -0x7FFF_FFFF <= v <= 0x7FFF_FFFF && CodeUE(MapSE(v)) <= bits
      {
        MapBothWays(if u.Some? then u.value else 0, v);
        SignedRange(v);
        assert u == Some(MapSE(v)) <==> MapSE(v) <= MAX_UE && CodeUE(MapSE(v)) <= bits;
      }
      if u.Some? {
        MapBothWays(u.value, 0);
      }
    }
  }

  lemma NextBit(bits: seq<bool>, n: nat)
    requires n < |bits| && n < 32
    ensures Value(bits[..n + 1]) == 2 * Value(bits[..n]) + One(bits[n]) && 2 * Value(bits[..n]) < 0x1_0000_0000
  {
    assert bits[..n + 1][..n] == bits[..n];
    Pow2Grows(n, 31);
    PowersOfTwo();
  }

  /** The 32-bit shift and or. */
  function ShiftIn(v: nat, bit: nat): (r: nat)
    ensures 2 * v < 0x1_0000_0000 ==> r == 2 * v + bit
  {
    (2 * v) % 0x1_0000_0000 + bit
  }

  lemma NoBits(bits: seq<bool>)
    ensures Value(bits[..0]) == 0
  {
  }

  lemma DataBit(data: seq<Byte>, i: nat)
    requires i < 8 * |data|
    ensures RawBit(data, i) == One(Bits(data)[i])
  {
    hide RawBit;
  }

  /** One turn of the loop: the next bit of the data is shifted in. */
  lemma BitStep(data: seq<Byte>, start: nat, n: nat)
    requires start + n < 8 * |data| && n < 32
    ensures var bits := Bits(data)[start..];
            Value(bits[..n + 1]) == ShiftIn(Value(bits[..n]), RawBit(data, start + n))
  {
    hide Value, Bits, Pow2, ShiftIn, RawBit;
    NextBit(Bits(data)[start..], n);
    DataBit(data, start + n);
  }

  lemma OneBit(bits: seq<bool>)
    requires bits != []
    ensures Value(bits[..1]) == One(bits[0])
  {
    NextBit(bits, 0);
    assert Value(bits[..0]) == 0;
  }

  /** The signed values in range are those of 32 bits, without the smallest. */
  lemma SignedRange(v: int)
    ensures MapSE(v) <= MAX_UE <==> -0x7FFF_FFFF <= v <= 0x7FFF_FFFF
  {
  }

  /** The order of signed values in table 9-3. */
  lemma SignedTable(k: int)
    ensures MapSE(0) == 0 && (k > 0 ==> MapSE(k) == 2 * k - 1 && MapSE(-k) == 2 * k)
  {
  }

  /** The code of v is v + 1 in binary, with one zero in front for every digit but the first, as in table 9-2. */
  lemma CodeReadsBack(v: nat)
    ensures Value(CodeUE(v)) == v + 1 && |CodeUE(v)| == 2 * Zeros(v) + 1 && Pow2(Zeros(v)) <= v + 1 < 2 * Pow2(Zeros(v))
    ensures forall i :: 0 <= i < Zeros(v) ==> !CodeUE(v)[i]
  {
    var z := Zeros(v);
    CodeIsWord(v);
    ValueOfBinary(v + 1 - Pow2(z), z);
    ZerosInFront(z, Binary(v + 1 - Pow2(z), z));
    hide Value, Binary, CodeUE;
    assert Pow2(z + 1) == 2 * Pow2(z);
  }

  lemma {:induction false} ZerosInFront(z: nat, suffix: seq<bool>)
    ensures Value(Word(z, suffix)) == Pow2(|suffix|) + Value(suffix)
    decreases |suffix|
  {
    var word := Word(z, suffix);
    if suffix == [] {
      assert word[..z] == seq(z, _ => false);
      AllZero(word[..z]);
    } else {
      var shorter := suffix[..|suffix| - 1];
      ZerosInFront(z, shorter);
      assert word[..|word| - 1] == Word(z, shorter);
    }
  }

  lemma {:induction false} AllZero(bits: seq<bool>)
    requires forall i :: 0 <= i < |bits| ==> !bits[i]
    ensures Value(bits) == 0
    decreases |bits|
  {
    if bits != [] {
      AllZero(bits[..|bits| - 1]);
    }
  }

  lemma DivideTwice(d: nat, p: nat)
    requires p > 0
    ensures d / p / 2 == d / (2 * p)
  {
    var q, r := d / p, d % p;
    var a, b := q / 2, q % 2;
    assert d == q * p + r && q == 2 * a + b;
    assert q * p == a * (2 * p) + b * p;
    assert d == a * (2 * p) + (b * p + r) && 0 <= b * p + r < 2 * p by {
      assert b == 0 || b == 1;
    }
    QuotientIs(d, 2 * p, a, b * p + r);
  }

  lemma MultipleIsLarge(x: int, m: nat)
    ensures x >= 1 ==> x * m >= m
    ensures x <= -1 ==> x * m + m <= 0
  {
  }

  lemma QuotientIs(d: nat, m: nat, a: nat, r: nat)
    requires d == a * m + r && r < m
    ensures d / m == a
  {
    var q := d / m;
    assert d == q * m + d % m;
    assert (q - a) * m == r - d % m;
    MultipleIsLarge(q - a, m);
  }

  lemma NextDigit(d: nat, n: nat)
    ensures 2 * (d / Pow2(n + 1)) + (d / Pow2(n)) % 2 == d / Pow2(n)
  {
    DivideTwice(d, Pow2(n));
    assert Pow2(n + 1) == 2 * Pow2(n);
  }

  lemma BitOfByte(data: seq<Byte>, k: nat, j: nat)
    requires k < |data| && j < 8
    ensures One(Bits(data)[8 * k + j]) == (data[k] as nat / Pow2(7 - j)) % 2
  {
    assert (8 * k + j) / 8 == k && (8 * k + j) % 8 == j;
  }

  /** The first bits of a byte are its leading digits. */
  lemma {:induction false} LeadingBits(data: seq<Byte>, k: nat, j: nat)
    requires k < |data| && j <= 8
    ensures Value(Bits(data)[8 * k..8 * k + j]) == data[k] as nat / Pow2(8 - j)
    decreases j
  {
    hide Pow2, RawBit, Bits;
    if j == 0 {
      assert Pow2(8) == 256 by { ByteRange(); }
    } else {
      LeadingBits(data, k, j - 1);
      var front := Bits(data)[8 * k..8 * k + j];
      assert front[..j - 1] == Bits(data)[8 * k..8 * k + (j - 1)];
      BitOfByte(data, k, j - 1);
      NextDigit(data[k] as nat, 8 - j);
    }
  }

  lemma ByteRange()
    ensures Pow2(8) == 256
  {
  }

  /** Eight bits, the most significant first, make the byte. */
  lemma BitsMakeTheByte(data: seq<Byte>, k: nat)
    requires k < |data|
    ensures Value(Bits(data)[8 * k..8 * k + 8]) == data[k] as nat
  {
    LeadingBits(data, k, 8);
    assert Pow2(0) == 1;
    hide Value, Bits;
  }
}
