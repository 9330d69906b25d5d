/** Unsigned LEB128 (section 7.6 of DWARF Version 5) in 32 bits, as the histogram codec uses it. */
module Varint {
  import opened Lsns

  function Leb(v: nat): Bytes {
    if v < 128 then [v] else [v % 128 + 128] + Leb(v / 128)
  }

  method WriteVarint(buffer: Bytes, v: u32) returns (out: Bytes)
    ensures out == buffer + Leb(v)
  {
    out := buffer;
    var value := v;
    while true
      invariant out + Leb(value) == buffer + Leb(v)
      decreases value
    {
      var b := value % 128;
      var rest := value / 128;
      if rest == 0 {
        out := out + [b];
        return;
      }
      assert out + Leb(value) == out + [b + 128] + Leb(rest);
      out := out + [b + 128];
      value := rest;
    }
  }

  /** `v << 7 * i` without loss. */
  function At(v: nat, i: nat): nat
    decreases i
  {
    if i == 0 then v else At(v * 128, i - 1)
  }

  function Shl(v: nat, k: nat): nat
    decreases k
  {
    if k == 0 then v else Shl(v * 2, k - 1)
  }

  function BitOr(a: nat, b: nat): nat
    decreases a + b
  {
    if a + b == 0 then 0 else (if a % 2 + b % 2 > 0 then 1 else 0) + 2 * BitOr(a / 2, b / 2)
  }

  /** `value | (bits << 7 * i)` in 32 bits; from the sixth group on the shift amount itself wraps. */
  function Or(value: u32, bits: nat, i: nat): u32 {
    BitOr(value, Shl(bits, 7 * i % 32) % U32_SIZE) % U32_SIZE
  }

  /** The or of one more group. For the first five groups `value` lies below the shifted bits and the or is a sum. */
  function OrGroup(value: u32, bits: nat, i: nat): u32
    requires bits < 128
  {
    if i < 5 then (value + At(bits, i)) % U32_SIZE else Or(value, bits, i)
  }

  lemma {:induction false} ShlDoubles(v: nat, k: nat)
    ensures Shl(v * 2, k) == 2 * Shl(v, k)
    decreases k
  {
    if k == 0 {
    } else {
      ShlDoubles(v * 2, k - 1);
    }
  }

  lemma {:induction false} OrZero(b: nat)
    ensures BitOr(0, b) == b
  {
    if b == 0 {
    } else {
      OrZero(b / 2);
    }
  }

  /** An or of bits that do not overlap is a sum. */
  lemma {:induction false} OrIsSum(a: nat, b: nat, k: nat)
    requires a < Shl(1, k)
    ensures BitOr(a, Shl(b, k)) == a + Shl(b, k)
    decreases k
  {
    if k == 0 {
      OrZero(b);
    } else {
      ShlDoubles(1, k - 1);
      ShlDoubles(b, k - 1);
      OrIsSum(a / 2, b, k - 1);
    }
  }

  lemma ShlSeven(v: nat, k: nat)
    requires k >= 7
    ensures Shl(v, k) == Shl(v * 128, k - 7)
  {
    assert Shl(v, k) == Shl(v * 4, k - 2) == Shl(v * 16, k - 4) == Shl(v * 64, k - 6);
  }

  lemma {:induction false} AtIsShl(v: nat, i: nat)
    ensures At(v, i) == Shl(v, 7 * i)
    decreases i
  {
    if i == 0 {
    } else {
      ShlSeven(v, 7 * i);
      AtIsShl(v * 128, i - 1);
    }
  }

  lemma NarrowedOr(value: u32, shifted: nat, low: nat, sum: nat)
    requires shifted % U32_SIZE == low && BitOr(value, low) == sum < U32_SIZE
    ensures BitOr(value, shifted % U32_SIZE) % U32_SIZE == sum
  {
    SmallMod(sum);
  }

  lemma SmallMod(x: nat)
    requires x < U32_SIZE
    ensures x % U32_SIZE == x
  {
  }

  /** The group at `k` bits, with the part that stays within 32 bits. */
  lemma OrAt(value: u32, bits: nat, low: nat, k: nat)
    requires value < Shl(1, k) && Shl(bits, k) % U32_SIZE == Shl(low, k) && value + Shl(low, k) < U32_SIZE
    ensures BitOr(value, Shl(bits, k) % U32_SIZE) % U32_SIZE == value + Shl(low, k)
  {
    OrIsSum(value, low, k);
    NarrowedOr(value, Shl(bits, k), Shl(low, k), value + Shl(low, k));
  }

  lemma FourGroups(v: nat)
    ensures At(v, 4) == Shl(v, 28) == v * 0x1000_0000
  {
    AtIsShl(v, 4);
    assert At(v, 4) == At(v * 128, 3) == At(v * 16384, 2);
  }

  lemma FifthGroup(value: nat, bits: nat)
    requires value < 0x1000_0000
    ensures value + bits % 16 * 0x1000_0000 < U32_SIZE
    ensures (value + bits * 0x1000_0000) % U32_SIZE == value + bits % 16 * 0x1000_0000
    ensures bits * 0x1000_0000 % U32_SIZE == bits % 16 * 0x1000_0000
  {
    var q, r := bits / 16, bits % 16;
    assert bits * 0x1000_0000 == q * U32_SIZE + r * 0x1000_0000;
  }

  lemma FifthFits(value: u32, bits: nat)
    requires value < At(1, 4)
    ensures value < Shl(1, 28) && value + Shl(bits % 16, 28) < U32_SIZE
    ensures Shl(bits, 28) % U32_SIZE == Shl(bits % 16, 28)
    ensures (value + At(bits, 4)) % U32_SIZE == value + Shl(bits % 16, 28)
  {
    FourGroups(1);
    FourGroups(bits);
    FourGroups(bits % 16);
    FifthGroup(value, bits);
  }

  lemma FifthIsOr(value: u32, bits: nat)
    requires value < At(1, 4) && bits < 128
    ensures (value + At(bits, 4)) % U32_SIZE == BitOr(value, Shl(bits, 28) % U32_SIZE) % U32_SIZE
  {
    FifthFits(value, bits);
    OrAt(value, bits, bits % 16, 28);
  }

  lemma FewGroups(v: nat, i: nat)
    requires i < 4
    ensures At(v, i) == Shl(v, 7 * i) <= v * 0x20_0000
  {
    AtIsShl(v, i);
    assert At(v, i) == if i == 0 then v else if i == 1 then v * 128 else if i == 2 then v * 16384 else v * 0x20_0000;
  }

  lemma EarlyIsOr(value: u32, bits: nat, i: nat)
    requires i < 4 && value < At(1, i) && bits < 128
    ensures (value + At(bits, i)) % U32_SIZE == BitOr(value, Shl(bits, 7 * i) % U32_SIZE) % U32_SIZE
  {
    FewGroups(1, i);
    FewGroups(bits, i);
    SmallMod(At(bits, i));
    SmallMod(value + At(bits, i));
    OrAt(value, bits, bits, 7 * i);
  }

  lemma ShiftIsSmall(i: nat)
    requires i < 5
    ensures 7 * i % 32 == 7 * i
  {
  }

  lemma OrShifted(value: u32, bits: nat, i: nat, shift: nat)
    requires shift == 7 * i % 32
    ensures Or(value, bits, i) == BitOr(value, Shl(bits, shift) % U32_SIZE) % U32_SIZE
  {
  }

  lemma SumIsOr(value: u32, bits: nat, i: nat)
    requires i < 5 && value < At(1, i) && bits < 128
    ensures OrGroup(value, bits, i) == Or(value, bits, i)
  {
    ShiftIsSmall(i);
    OrShifted(value, bits, i, 7 * i);
    if i == 4 {
      FifthIsOr(value, bits);
    } else {
      EarlyIsOr(value, bits, i);
    }
  }

  /** Reads groups `i`, `i + 1`, ... into `value`; returns the value and the bytes used. */
  function ReadGroups(buffer: Bytes, i: nat, value: u32): (r: (u32, nat))
    ensures r.1 <= |buffer|
    ensures buffer != [] ==> r.1 > 0
  {
    if buffer == [] then (value, 0)
    else
      var v := OrGroup(value, buffer[0] % 128, i);
      if buffer[0] < 128 then (v, 1)
      else
        var (w, n) := ReadGroups(buffer[1..], i + 1, v);
        (w, n + 1)
  }

  lemma ReadStep(b: byte, tail: Bytes, i: nat, value: u32)
    ensures var v := OrGroup(value, b % 128, i);
            ReadGroups([b] + tail, i, value) ==
            if b < 128 then (v, 1) else (ReadGroups(tail, i + 1, v).0, ReadGroups(tail, i + 1, v).1 + 1)
  {
    assert ([b] + tail)[1..] == tail;
  }

  lemma {:induction false} AtAdds(a: nat, b: nat, i: nat)
    ensures At(a + b, i) == At(a, i) + At(b, i)
    decreases i
  {
    if i == 0 {
    } else {
      AtAdds(a * 128, b * 128, i - 1);
    }
  }

  lemma BelowNext(value: u32, bits: nat, i: nat)
    requires i < 4 && value < At(1, i) && bits < 128
    ensures OrGroup(value, bits, i) < At(1, i + 1)
  {
    FewGroups(bits, i);
    FewGroups(1, i);
    SmallMod(value + At(bits, i));
    AtAdds(bits, 1, i);
    AtAdds(bits + 1, 127 - bits, i);
  }

  method ReadVarint(buffer: Bytes) returns (value: u32, used: nat)
    ensures (value, used) == ReadGroups(buffer, 0, 0)
    ensures used <= |buffer|
    ensures buffer != [] ==> used > 0
  {
    value, used := 0, 0;
    while used < |buffer|
      invariant used <= |buffer| && (used < 5 ==> value < At(1, used))
      invariant var (v, n) := ReadGroups(buffer[used..], used, value);
                ReadGroups(buffer, 0, 0) == (v, n + used)
    {
      var b := buffer[used];
      assert buffer[used..] == [b] + buffer[used + 1..];
      ReadStep(b, buffer[used + 1..], used, value);
      OrIsGroup(value, b % 128, used);
      value := Or(value, b % 128, used);
      used := used + 1;
      if b < 128 {
        return;
      }
    }
  }

  lemma OrIsGroup(value: u32, bits: nat, i: nat)
    requires (i < 5 ==> value < At(1, i)) && bits < 128
    ensures Or(value, bits, i) == OrGroup(value, bits, i)
    ensures i < 4 ==> OrGroup(value, bits, i) < At(1, i + 1)
  {
    if i < 5 {
      SumIsOr(value, bits, i);
    }
    if i < 4 {
      BelowNext(value, bits, i);
    }
  }

  lemma FiveGroupsOverflow()
    ensures At(128, 4) >= U32_SIZE
  {
    assert At(128, 4) == At(16384, 3) == At(2097152, 2) == At(268435456, 1) == At(34359738368, 0);
  }

  /** `v` fits in what is left above group `i`, and nothing below it overlaps. */
  predicate Fits(v: nat, i: nat, value: u32) {
    i <= 4 && value < At(1, i) && value + At(v, i) < U32_SIZE
  }

  function Placed(v: nat, i: nat, value: u32): u32
    requires Fits(v, i, value)
  {
    value + At(v, i)
  }

  lemma LowGroup(v: nat, i: nat, value: u32)
    requires Fits(v, i, value) && v >= 128
    ensures Fits(v / 128, i + 1, OrGroup(value, v % 128, i))
    ensures Placed(v / 128, i + 1, OrGroup(value, v % 128, i)) == Placed(v, i, value)
  {
    var b, rest := v % 128, v / 128;
    AtAdds(b, rest * 128, i);
    AtAdds(b, 1, i);
    AtAdds(b + 1, 128 - (b + 1), i);
    AtAdds(128, v - 128, i);
    FiveGroupsOverflow();
    assert At(1, i + 1) == At(128, i) && At(rest, i + 1) == At(rest * 128, i);
  }

  /** Reading undoes writing, whatever follows in the buffer. */
  lemma {:induction false} ReadInvertsWrite(v: nat, i: nat, value: u32, suffix: Bytes)
    requires Fits(v, i, value)
    ensures ReadGroups(Leb(v) + suffix, i, value) == (Placed(v, i, value), |Leb(v)|)
    decreases v
  {
    if v < 128 {
      ReadStep(v, suffix, i, value);
    } else {
      LowGroup(v, i, value);
      var b: byte := v % 128 + 128;
      assert b % 128 == v % 128;
      var tail := Leb(v / 128) + suffix;
      assert Leb(v) + suffix == [b] + tail;
      ReadStep(b, tail, i, value);
      ReadInvertsWrite(v / 128, i + 1, OrGroup(value, v % 128, i), suffix);
    }
  }

  lemma VarintRoundTrip(v: u32, suffix: Bytes)
    ensures ReadGroups(Leb(v) + suffix, 0, 0) == (v, |Leb(v)|)
  {
    ReadInvertsWrite(v, 0, 0, suffix);
  }
}
