/** `fml::BitConverter`: a queue of bits kept in the high end of one `int`. */
module BitConverters {
  import opened Bits

  /** The static assertions of the template, and room to shift left by `to` inside an `int`. */
  predicate ValidLengths(from: nat, to: nat, len: nat) {
    from > 0 && to > 0 && len >= 2 * from && len >= 2 * to && len < 32 && len + to <= 31
  }

  /** `buffer` holds `bits` most significant first, its `free` low bits all zero. */
  ghost predicate Represents(len: nat, free: nat, buffer: int, bits: seq<bool>) {
    free <= len && |bits| == len - free && buffer == FromBits(bits) * Pow2(free)
  }

  lemma BufferBounds(len: nat, free: nat, buffer: int, bits: seq<bool>)
    requires Represents(len, free, buffer, bits)
    ensures 0 <= buffer < Pow2(len) && buffer % Pow2(free) == 0
  {
    Pow2Add(|bits|, free);
    ScaleLess(FromBits(bits), Pow2(|bits|), Pow2(free));
    ModMultiple(FromBits(bits), Pow2(free));
  }

  lemma ScaleLess(a: nat, b: nat, p: nat)
    requires a < b && p > 0
    ensures a * p < b * p && 0 <= a * p
  {
  }

  /** Enqueueing: `buffer | (v << (free - from))`. */
  lemma AppendBits(len: nat, free: nat, from: nat, buffer: nat, bits: seq<bool>, v: nat)
    requires Represents(len, free, buffer, bits) && from <= free && v < Pow2(from)
    ensures Represents(len, free - from, Or(buffer, v * Pow2(free - from)), bits + ToBits(v, from))
  {
    var low := Pow2(free - from);
    BufferBounds(len, free, buffer, bits);
    Pow2Add(from, free - from);
    ScaleLess(v, Pow2(from), low);
    OrDisjoint(buffer, v * low, free);
    FromTo(v, from);
    FromConcat(bits, ToBits(v, from));
    Distribute(FromBits(bits), Pow2(from), v, low);
  }

  lemma Distribute(a: nat, b: nat, v: nat, p: nat)
    ensures (a * b + v) * p == a * (b * p) + v * p
  {}

  /** Dequeueing: the top `to` bits leave through `>>`, the rest shift up under the mask. */
  lemma ExtractBits(len: nat, free: nat, to: nat, buffer: nat, bits: seq<bool>)
    requires Represents(len, free, buffer, bits) && to <= |bits|
    ensures buffer / Pow2(len - to) == FromBits(bits[..to])
    ensures Represents(len, free + to, And(buffer * Pow2(to), Pow2(len) - 1), bits[to..])
  {
    var head, tail := bits[..to], bits[to..];
    var h, t := FromBits(head), FromBits(tail);
    assert bits == head + tail && |tail| + free == len - to;
    FromConcat(head, tail);
    Pow2Add(|tail|, free);
    Distribute(h, Pow2(|tail|), t, Pow2(free));
    assert buffer == h * Pow2(len - to) + t * Pow2(free);
    ScaleLess(t, Pow2(|tail|), Pow2(free));
    DivModUnique(buffer, Pow2(len - to), h, t * Pow2(free));
    ShiftUp(len, free, to, buffer, h, t, |tail|);
    AndMask(buffer * Pow2(to), len);
  }

  lemma ShiftUp(len: nat, free: nat, to: nat, buffer: nat, h: nat, t: nat, n: nat)
    requires n + free + to == len && t < Pow2(n)
    requires buffer == h * Pow2(len - to) + t * Pow2(free)
    ensures (buffer * Pow2(to)) % Pow2(len) == t * Pow2(free + to)
  {
    Pow2Add(len - to, to);
    Pow2Add(free, to);
    Pow2Add(n, free + to);
    Regroup(h, Pow2(len - to), t, Pow2(free), Pow2(to));
    ScaleLess(t, Pow2(n), Pow2(free + to));
    DivModUnique(buffer * Pow2(to), Pow2(len), h, t * Pow2(free + to));
  }

  lemma Regroup(h: nat, a: nat, t: nat, b: nat, p: nat)
    ensures (h * a + t * b) * p == h * (a * p) + t * (b * p)
  {}

  lemma ShiftDown(v: nat, a: nat, b: nat)
    requires b > 0
    ensures (v * (a * b)) / b == v * a
  {
    assert v * (a * b) == (v * a) * b;
    ModMultiple(v * a, b);
  }

  /** Peeking with fewer than `to` bits pending reads them padded with zeros. */
  lemma PeekBits(len: nat, free: nat, to: nat, buffer: int, bits: seq<bool>)
    requires Represents(len, free, buffer, bits) && |bits| <= to <= len
    ensures buffer / Pow2(len - to) == FromBits(bits + Zeros(to - |bits|))
  {
    var pad := to - |bits|;
    Pow2Add(pad, len - to);
    FromConcat(bits, Zeros(pad));
    FromZeros(Zeros(pad));
    ShiftDown(FromBits(bits), Pow2(pad), Pow2(len - to));
  }

  lemma PaddedZero(bits: seq<bool>, pad: nat)
    ensures FromBits(bits + Zeros(pad)) == 0 <==> bits == Zeros(|bits|)
  {
    var all := bits + Zeros(pad);
    FromZeros(all);
    if bits == Zeros(|bits|) { assert all == Zeros(|all|); }
    if all == Zeros(|all|) {
      forall i | 0 <= i < |bits| ensures !bits[i] { assert !all[i]; }
      assert bits == Zeros(|bits|);
    }
  }

  lemma PeekZero(len: nat, free: nat, to: nat, buffer: int, bits: seq<bool>)
    requires Represents(len, free, buffer, bits) && |bits| <= to <= len
    ensures buffer / Pow2(len - to) == 0 <==> bits == Zeros(|bits|)
  {
    PeekBits(len, free, to, buffer, bits);
    PaddedZero(bits, to - |bits|);
  }

  /** `buffer_ << to_length` stays within a 32-bit `int`. */
  ghost predicate ShiftFits(to: nat, buffer: int) { buffer * Pow2(to) < Pow2(31) }

  /** However many bits are free when bits are extracted: the shift stays within an `int` for all buffers
      exactly when the lengths leave room; the template's own assertions do not demand that. */
  lemma ShiftFitsIff(to: nat, len: nat, free: nat)
    requires to > 0 && free + to <= len
    ensures (forall buffer: int, bits: seq<bool> | Represents(len, free, buffer, bits) :: ShiftFits(to, buffer)) <==>
            len + to <= 31
  {
    if len + to <= 31 {
      forall buffer: int, bits: seq<bool> | Represents(len, free, buffer, bits) ensures ShiftFits(to, buffer) {
        BufferBounds(len, free, buffer, bits);
        ScaleLess(buffer, Pow2(len), Pow2(to));
        Pow2Add(len, to);
        Pow2Mono(len + to, 31);
      }
    } else {
      var bits := TopBit(len - free);
      Pow2Add(len - free - 1, free);
      assert Represents(len, free, Pow2(len - 1), bits);
      Pow2Add(len - 1, to);
      Pow2Mono(31, len - 1 + to);
      assert !ShiftFits(to, Pow2(len - 1));
    }
  }

  lemma TopBit(len: nat) returns (bits: seq<bool>)
    requires len > 0
    ensures |bits| == len && FromBits(bits) == Pow2(len - 1)
  {
    bits := [true] + Zeros(len - 1);
    FromConcat([true], Zeros(len - 1));
    FromZeros(Zeros(len - 1));
    assert [true][..0] == [];
    assert FromBits([true]) == 1;
  }

  lemma NegativeProduct(a: int, p: nat)
    requires a < 0 && p > 0
    ensures a * p < 0
  {}

  class BitConverter {
    const from: nat
    const to: nat
    const len: nat
    var buffer: int
    var lowerFreeBits: nat
    /** The bits appended and not yet extracted. */
    ghost var pending: seq<bool>

    ghost predicate Valid()
      reads this
    {
      ValidLengths(from, to, len) && Represents(len, lowerFreeBits, buffer, pending)
    }

    constructor (from: nat, to: nat, len: nat)
      requires ValidLengths(from, to, len)
      ensures Valid() && pending == [] && buffer == 0
      ensures this.from == from && this.to == to && this.len == len
    {
      this.from, this.to, this.len := from, to, len;
      buffer, lowerFreeBits, pending := 0, len, [];
    }

    function BitsAvailable(): (n: int)
      reads this
    {
      len - lowerFreeBits
    }

    predicate CanAppend()
      reads this
    {
      lowerFreeBits >= from
    }

    predicate CanExtract()
      reads this
    {
      BitsAvailable() >= to
    }

    function Peek(): int
      requires len >= to
      reads this
    {
      buffer / Pow2(len - to)
    }

    /** Puts the `from` bits of a non-negative value at the end of the queue. A negative one,
        which the source's check lets through, makes the buffer negative. */
    method Append(bits: int)
      requires Valid() && CanAppend() && bits < Pow2(from)
      modifies this
      ensures bits >= 0 ==> Valid() && pending == old(pending) + ToBits(bits, from)
      ensures lowerFreeBits == old(lowerFreeBits) - from
      ensures buffer == Or(old(buffer), bits * Pow2(lowerFreeBits))
      ensures bits < 0 ==> buffer < 0 && pending == old(pending)
    {
      ghost var free := lowerFreeBits;
      lowerFreeBits := lowerFreeBits - from;
      if bits < 0 {
        NegativeProduct(bits, Pow2(lowerFreeBits));
        OrNegative(buffer, bits * Pow2(lowerFreeBits));
      } else {
        BufferBounds(len, free, buffer, pending);
        AppendBits(len, free, from, buffer, pending, bits);
        pending := pending + ToBits(bits, from);
      }
      buffer := Or(buffer, bits * Pow2(lowerFreeBits));
    }

    /** Takes the `to` oldest bits off the queue. */
    method Extract() returns (result: int)
      requires Valid() && CanExtract()
      modifies this
      ensures Valid() && pending == old(pending)[to..]
      ensures result == FromBits(old(pending)[..to])
    {
      BufferBounds(len, lowerFreeBits, buffer, pending);
      ExtractBits(len, lowerFreeBits, to, buffer, pending);
      result := Peek();
      buffer := And(buffer * Pow2(to), Pow2(len) - 1);
      lowerFreeBits := lowerFreeBits + to;
      pending := pending[to..];
    }
  }
}
