/** Bits of byte strings, most significant first, and the writer and reader that go over them one by one. */
module BitStrings {

  function Mask(k: nat): bv8
    requires k < 8
  {
    if k == 0 then 0x80 else if k == 1 then 0x40 else if k == 2 then 0x20 else if k == 3 then 0x10
    else if k == 4 then 0x08 else if k == 5 then 0x04 else if k == 6 then 0x02 else 0x01
  }

  predicate Bit(b: bv8, k: nat)
    requires k < 8
  {
    b & Mask(k) != 0
  }

  predicate BitAt(data: seq<bv8>, i: nat)
    requires i < 8 * |data|
  {
    Bit(data[i / 8], i % 8)
  }

  function Bits(data: seq<bv8>): (bs: seq<bool>)
    ensures |bs| == 8 * |data|
    ensures forall i :: 0 <= i < |bs| ==> bs[i] == BitAt(data, i)
  {
    seq(8 * |data|, i requires 0 <= i < 8 * |data| => BitAt(data, i))
  }

  lemma SetBit(b: bv8, k: nat, j: nat)
    requires k < 8 && j < 8
    ensures Bit(b | Mask(k), j) == (j == k || Bit(b, j))
    ensures !Bit(0, j)
  {
  }

  lemma SameBits(a: bv8, b: bv8)
    requires forall k :: 0 <= k < 8 ==> Bit(a, k) == Bit(b, k)
    ensures a == b
  {
    assert Bit(a, 0) == Bit(b, 0) && Bit(a, 1) == Bit(b, 1) && Bit(a, 2) == Bit(b, 2) && Bit(a, 3) == Bit(b, 3);
    assert Bit(a, 4) == Bit(b, 4) && Bit(a, 5) == Bit(b, 5) && Bit(a, 6) == Bit(b, 6) && Bit(a, 7) == Bit(b, 7);
  }

  function BytesFor(bits: nat): nat {
    (bits + 7) / 8
  }

  /** data holds bs in as few bytes as possible, unused bits zero. */
  ghost predicate Holds(data: seq<bv8>, bs: seq<bool>) {
    && |data| == BytesFor(|bs|)
    && forall i :: 0 <= i < 8 * |data| ==> BitAt(data, i) == (i < |bs| && bs[i])
  }

  /** There is only one such byte string. */
  lemma HoldsOnce(a: seq<bv8>, b: seq<bv8>, bs: seq<bool>)
    requires Holds(a, bs) && Holds(b, bs)
    ensures a == b
  {
    forall i | 0 <= i < |a| ensures a[i] == b[i] {
      forall k | 0 <= k < 8 ensures Bit(a[i], k) == Bit(b[i], k) {
        assert BitAt(a, 8 * i + k) == BitAt(b, 8 * i + k);
      }
      SameBits(a[i], b[i]);
    }
  }

  // ----- numbers as bits -----

  function Number(bs: seq<bool>): nat {
    if bs == [] then 0 else 2 * Number(bs[..|bs| - 1]) + (if bs[|bs| - 1] then 1 else 0)
  }

  function NumberBits(v: nat, n: nat): (bs: seq<bool>)
    ensures |bs| == n
  {
    if n == 0 then [] else NumberBits(v / 2, n - 1) + [v % 2 == 1]
  }

  function Pow2(n: nat): (p: nat)
    ensures p > 0
  {
    if n == 0 then 1 else 2 * Pow2(n - 1)
  }

  lemma {:induction false} NumberOfBits(v: nat, n: nat)
    requires v < Pow2(n)
    ensures Number(NumberBits(v, n)) == v
  {
    if n > 0 {
      NumberOfBits(v / 2, n - 1);
      assert NumberBits(v, n)[..n - 1] == NumberBits(v / 2, n - 1);
    }
  }

  /** Numbers stand with their most significant bit first. */
  lemma {:induction false} MostSignificantFirst(bs: seq<bool>)
    requires bs != []
    ensures Number(bs) == (if bs[0] then Pow2(|bs| - 1) else 0) + Number(bs[1..])
    decreases |bs|
  {
    var n := |bs| - 1;
    if n > 0 {
      MostSignificantFirst(bs[..n]);
      assert bs[..n][1..] == bs[1..][..n - 1];
    }
  }

  lemma BitFrom(data: seq<bv8>, start: nat, i: nat)
    requires start + i < 8 * |data|
    ensures Bits(data)[start..][i] == BitAt(data, start + i)
  {
  }

  lemma NumberOfOneMore(bs: seq<bool>, i: nat)
    requires i < |bs|
    ensures Number(bs[..i + 1]) == 2 * Number(bs[..i]) + (if bs[i] then 1 else 0)
  {
    assert bs[..i + 1][..i] == bs[..i];
  }

  // ----- writing -----

  /** Setting bit position of data, whose bits from there on are zero, appends it. */
  lemma BitAppended(data: seq<bv8>, position: nat, value: bool)
    requires position / 8 < |data| && forall i :: position <= i < 8 * |data| ==> !BitAt(data, i)
    ensures var k := position / 8;
      var d := if value then data[k := data[k] | Mask(position % 8)] else data;
      forall i :: 0 <= i < 8 * |data| ==> BitAt(d, i) == if i == position then value else BitAt(data, i)
  {
    var k := position / 8;
    var d := if value then data[k := data[k] | Mask(position % 8)] else data;
    forall i | 0 <= i < 8 * |data| ensures BitAt(d, i) == if i == position then value else BitAt(data, i) {
      if i / 8 == k {
        SetBit(data[k], position % 8, i % 8);
      }
    }
  }

  /** One more bit after the first position ones, growing by a byte when they fill the last. */
  function WithBit(data: seq<bv8>, position: nat, value: bool): seq<bv8>
    requires |data| == BytesFor(position)
  {
    var k := position / 8;
    var grown := if k == |data| then data + [0] else data;
    if value then grown[k := grown[k] | Mask(position % 8)] else grown
  }

  lemma WithBitHolds(data: seq<bv8>, bs: seq<bool>, value: bool)
    requires Holds(data, bs)
    ensures Holds(WithBit(data, |bs|, value), bs + [value])
  {
    var grown := if |bs| / 8 == |data| then data + [0] else data;
    forall i | 0 <= i < 8 * |grown| ensures BitAt(grown, i) == (i < |bs| && bs[i]) {
      SetBit(0, 0, i % 8);
      if i < 8 * |data| { assert BitAt(grown, i) == BitAt(data, i); }
    }
    BitAppended(grown, |bs|, value);
    var d, more := WithBit(data, |bs|, value), bs + [value];
    forall i | 0 <= i < 8 * |d| ensures BitAt(d, i) == (i < |more| && more[i]) {
      assert BitAt(d, i) == if i == |bs| then value else BitAt(grown, i);
    }
  }

  class BitWriter {
    var data: seq<bv8>
    var position: nat
    /** The bits written so far; they fill data, unused bits zero. */
    ghost var written: seq<bool>

    ghost predicate Valid()
      reads this
    {
      position == |written| && Holds(data, written)
    }

    constructor ()
      ensures Valid() && written == []
    {
      data, position, written := [], 0, [];
    }

    method WriteBit(value: bool)
      requires Valid()
      modifies this
      ensures Valid() && written == old(written) + [value]
    {
      WithBitHolds(data, written, value);
      var byteIndex := position / 8;
      if byteIndex == |data| {
        data := data + [0];
      }
      if value {
        data := data[byteIndex := data[byteIndex] | Mask(position % 8)];
      }
      position, written := position + 1, written + [value];
    }

    /** The low count bits of value, most significant first. */
    method WriteBits(value: nat, count: nat)
      requires Valid()
      modifies this
      ensures Valid() && written == old(written) + NumberBits(value, count)
    {
      var i := count;
      while i > 0
        invariant 0 <= i <= count
        invariant Valid() && written == old(written) + NumberBits(value, count)[..count - i]
      {
        i := i - 1;
        BitOfNumber(value, count, i);
        WriteBit(value / Pow2(i) % 2 == 1);
      }
    }

    /** The first bits bits of bytes. */
    method WriteBytes(bytes: seq<bv8>, bits: nat)
      requires Valid() && bits <= 8 * |bytes|
      modifies this
      ensures Valid() && written == old(written) + Bits(bytes)[..bits]
    {
      for i := 0 to bits
        invariant Valid() && written == old(written) + Bits(bytes)[..i]
      {
        WriteBit(bytes[i / 8] & Mask(i % 8) != 0);
      }
    }
  }

  lemma {:induction false} BitOfNumber(v: nat, n: nat, i: nat)
    requires i < n
    ensures NumberBits(v, n)[n - 1 - i] == (v / Pow2(i) % 2 == 1)
  {
    if i > 0 {
      BitOfNumber(v / 2, n - 1, i - 1);
      assert v / 2 / Pow2(i - 1) == v / (2 * Pow2(i - 1)) by {
        DivDiv(v, Pow2(i - 1));
      }
    }
  }

  lemma DivDiv(v: nat, d: nat)
    requires d > 0
    ensures v / 2 / d == v / (2 * d)
  {
    var q := v / 2 / d;
    Bounds(v / 2, d);
    Doubled(v, q, d);
    Quotient(v, 2 * d, q);
  }

  lemma Bounds(n: nat, d: nat)
    requires d > 0
    ensures n / d * d <= n < (n / d + 1) * d
  {
  }

  lemma Doubled(v: nat, q: nat, d: nat)
    requires q * d <= v / 2 < (q + 1) * d
    ensures q * (2 * d) <= v < (q + 1) * (2 * d)
  {
    assert q * (2 * d) == 2 * (q * d) && (q + 1) * (2 * d) == 2 * ((q + 1) * d);
  }

  lemma Quotient(v: nat, d: nat, q: nat)
    requires d > 0 && q * d <= v < (q + 1) * d
    ensures v / d == q
  {
    var r := v / d;
    assert r * d <= v < (r + 1) * d;
    assert r < q ==> (r + 1) * d <= q * d;
    assert q < r ==> (q + 1) * d <= r * d;
  }

  // ----- reading -----

  class BitReader {
    const data: seq<bv8>
    var position: nat
    /** The bits not read yet. */
    ghost var left: seq<bool>

    constructor (data: seq<bv8>)
      ensures this.data == data && Valid() && left == Bits(data)
    {
      this.data, position, left := data, 0, Bits(data);
    }

    ghost predicate Valid()
      reads this
    {
      position <= 8 * |data| && left == Bits(data)[position..]
    }

    /** All of the next count bits, or none and an error. */
    method ReadBits(count: nat) returns (value: nat, ok: bool)
      requires Valid()
      modifies this
      ensures Valid() && ok == (count <= |old(left)|)
      ensures ok ==> value == Number(old(left)[..count]) && left == old(left)[count..]
      ensures !ok ==> left == old(left)
    {
      value := 0;
      if position + count > |data| * 8 {
        return value, false;
      }
      ghost var start, bits := position, left;
      for i := 0 to count
        invariant position == start + i && left == bits
        invariant value == Number(bits[..i])
      {
        NumberOfOneMore(bits, i);
        BitFrom(data, start, i);
        var bit := data[position / 8] & Mask(position % 8) != 0;
        value := 2 * value + (if bit then 1 else 0);
        position := position + 1;
      }
      left := left[count..];
      ok := true;
    }

    /** The next bits bits as bytes, padded with zero bits. */
    method ReadBytes(bits: nat) returns (out: seq<bv8>, ok: bool)
      requires Valid()
      modifies this
      ensures Valid() && ok == (bits <= |old(left)|)
      ensures ok ==> Holds(out, old(left)[..bits]) && left == old(left)[bits..]
    {
      out := seq(BytesFor(bits), _ => 0);
      ghost var start := left;
      ZeroBits(out);
      for i := 0 to bits
        invariant Valid() && i <= |start| && left == start[i..]
        invariant |out| == BytesFor(bits) && Filled(out, start, i)
      {
        var bit, more := ReadBits(1);
        if !more {
          return out, false;
        }
        SingleBit(start[i..]);
        OneMoreBit(out, start, i);
        if bit != 0 {
          out := out[i / 8 := out[i / 8] | Mask(i % 8)];
        }
      }
      ok := true;
    }
  }

  /** The first n bits of bs, then zero bits. */
  ghost predicate Filled(out: seq<bv8>, bs: seq<bool>, n: nat) {
    n <= |bs| && forall k :: 0 <= k < 8 * |out| ==> BitAt(out, k) == (k < n && bs[k])
  }

  lemma ZeroBits(out: seq<bv8>)
    requires forall i :: 0 <= i < |out| ==> out[i] == 0
    ensures forall k :: 0 <= k < 8 * |out| ==> !BitAt(out, k)
  {
    forall k | 0 <= k < 8 * |out| ensures !BitAt(out, k) {
      SetBit(0, 0, k % 8);
    }
  }

  lemma OneMoreBit(out: seq<bv8>, bs: seq<bool>, n: nat)
    requires Filled(out, bs, n) && n < |bs| && n < 8 * |out|
    ensures Filled(if bs[n] then out[n / 8 := out[n / 8] | Mask(n % 8)] else out, bs, n + 1)
  {
    BitAppended(out, n, bs[n]);
  }

  lemma SingleBit(bs: seq<bool>)
    requires bs != []
    ensures Number(bs[..1]) == if bs[0] then 1 else 0
  {
    assert bs[..1][..0] == [];
  }
}
