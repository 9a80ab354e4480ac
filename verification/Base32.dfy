/** `fml::Base32Encode` and `fml::Base32Decode`: the alphabet of section 6 of RFC 4648, no
    padding characters, and pad bits that must be zero. */
module Base32 {
  import opened Bits
  import opened BitConverters

  const SIZE_MAX := 0xFFFF_FFFF_FFFF_FFFF

  const ENCODING := "ABCDEFGHIJKLMNOPQRSTUVWXYZ234567"

  /** Starting from ASCII 50, '2'. */
  const DECODE_MAP: seq<int> :=
    [26, 27, 28, 29, 30, 31, -1, -1, -1, -1, -1, -1, -1, -1,
     -1, 0, 1, 2, 3, 4, 5, 6, 7, 8, 9, 10, 11, 12,
     13, 14, 15, 16, 17, 18, 19, 20, 21, 22, 23, 24, 25]

  /** The five bits a character stands for; -1 for a character outside the alphabet. */
  function DigitOf(c: char): (d: int)
    ensures -1 <= d < 32
  {
    var index := c as int - '2' as int;
    if index < 0 || index >= |DECODE_MAP| then -1 else DECODE_MAP[index]
  }

  lemma LetterOf(d: nat)
    requires d < 32
    ensures ENCODING[d] as int == if d < 26 then 'A' as int + d else '2' as int + d - 26
  {
  }

  lemma DigitAt(index: nat)
    requires index < |DECODE_MAP|
    ensures DECODE_MAP[index] == if index < 6 then 26 + index else if index < 15 then -1 else index - 15
  {
  }

  lemma DigitIs(c: char)
    ensures var i := c as int - '2' as int;
            DigitOf(c) == if 0 <= i < 6 then 26 + i else if 15 <= i < 41 then i - 15 else -1
  {
    var index := c as int - '2' as int;
    if 0 <= index < |DECODE_MAP| { DigitAt(index); }
  }

  /** The two tables are inverse to each other. */
  lemma TablesInverse(c: char, d: nat)
    requires d < 32
    ensures DigitOf(c) == d <==> ENCODING[d] == c
  {
    LetterOf(d);
    DigitIs(c);
    assert ENCODING[d] == c <==> ENCODING[d] as int == c as int;
  }

  // ---- Values as bit strings ----

  ghost function Spread(vs: seq<nat>, n: nat): (bits: seq<bool>) {
    if vs == [] then [] else Spread(vs[..|vs| - 1], n) + ToBits(vs[|vs| - 1], n)
  }

  lemma SpreadAppend(vs: seq<nat>, v: nat, n: nat)
    ensures Spread(vs + [v], n) == Spread(vs, n) + ToBits(v, n)
  {}

  lemma {:induction false} SpreadLength(vs: seq<nat>, n: nat)
    ensures |Spread(vs, n)| == |vs| * n
  {
    if vs == [] {
    } else {
      var k := |vs| - 1;
      SpreadLength(vs[..k], n);
      assert k * n + n == (k + 1) * n;
    }
  }

  lemma SamePrefix<T>(a: seq<T>, x: seq<T>, b: seq<T>, y: seq<T>)
    requires a + x == b + y && |a| == |b|
    ensures a == b && x == y
  {
    assert a == (a + x)[..|a|] && b == (b + y)[..|a|];
    assert x == (a + x)[|a|..] && y == (b + y)[|a|..];
  }

  predicate AllFit(vs: seq<nat>, n: nat) { forall i | 0 <= i < |vs| :: vs[i] < Pow2(n) }

  lemma ToBitsInjective(v: nat, w: nat, n: nat)
    requires v < Pow2(n) && w < Pow2(n) && ToBits(v, n) == ToBits(w, n)
    ensures v == w
  {
    FromTo(v, n);
    FromTo(w, n);
  }

  lemma {:induction false} SpreadInjective(a: seq<nat>, b: seq<nat>, n: nat)
    requires |a| == |b| && Spread(a, n) == Spread(b, n) && AllFit(a, n) && AllFit(b, n)
    ensures a == b
  {
    if a == [] {
    } else {
      var k := |a| - 1;
      var a', b' := a[..k], b[..k];
      SpreadLength(a', n);
      SpreadLength(b', n);
      SamePrefix(Spread(a', n), ToBits(a[k], n), Spread(b', n), ToBits(b[k], n));
      ToBitsInjective(a[k], b[k], n);
      SpreadInjective(a', b', n);
      assert a == a' + [a[k]] && b == b' + [b[k]];
    }
  }

  predicate IsAlphabet(t: string) {
    forall i | 0 <= i < |t| :: DigitOf(t[i]) >= 0
  }

  function Digits(t: string): (ds: seq<nat>)
    requires IsAlphabet(t)
    ensures |ds| == |t| && forall i | 0 <= i < |t| :: ds[i] == DigitOf(t[i]) < 32
  {
    if t == [] then [] else Digits(t[..|t| - 1]) + [DigitOf(t[|t| - 1])]
  }

  lemma DigitsAppend(t: string, c: char)
    requires IsAlphabet(t) && DigitOf(c) >= 0
    ensures IsAlphabet(t + [c]) && Digits(t + [c]) == Digits(t) + [DigitOf(c)]
  {
  }

  lemma DigitsInjective(a: string, b: string)
    requires IsAlphabet(a) && IsAlphabet(b) && Digits(a) == Digits(b)
    ensures a == b
  {
    forall i | 0 <= i < |a| ensures a[i] == b[i] {
      assert Digits(a)[i] == DigitOf(a[i]) && Digits(b)[i] == DigitOf(b[i]);
      TablesInverse(a[i], DigitOf(a[i]));
      TablesInverse(b[i], DigitOf(a[i]));
    }
  }

  ghost function TextBits(t: string): seq<bool>
    requires IsAlphabet(t)
  {
    Spread(Digits(t), 5)
  }

  ghost function ByteBits(s: seq<Byte>): seq<bool> { Spread(s, 8) }

  /** Text `t` spells the bits of `s`, filled up with fewer than five zeros. */
  ghost predicate Spells(t: string, s: seq<Byte>) {
    exists pad: nat :: pad < 5 && SpellsPadded(t, s, pad)
  }

  ghost predicate SpellsPadded(t: string, s: seq<Byte>, pad: nat) {
    IsAlphabet(t) && TextBits(t) == ByteBits(s) + Zeros(pad)
  }

  // ---- Encoding ----

  /** `BadIndex`: `kEncoding` is read at a negative index. */
  datatype Encoded = Encoded(ok: bool, text: string) | BadIndex(index: int)

  /** What `Base32Encode` returns, on a platform whose `char` is signed or not. */
  ghost predicate EncodesTo(s: seq<Byte>, charIsSigned: bool, r: Encoded) {
    if |s| > SIZE_MAX / 8 then r == Encoded(false, "")
    else if s != [] && charIsSigned && s[0] >= 0x80 then r.BadIndex? && r.index < 0
    else r.Encoded? && r.ok && Spells(r.text, s)
  }

  method Base32Encode(input: seq<Byte>, charIsSigned: bool) returns (r: Encoded)
    ensures EncodesTo(input, charIsSigned, r)
    ensures r.Encoded? && r.ok <==> |input| <= SIZE_MAX / 8 && !(input != [] && charIsSigned && input[0] >= 0x80)
  {
    if |input| == 0 {
      assert SpellsPadded("", input, 0);
      return Encoded(true, "");
    }
    if |input| > SIZE_MAX / 8 {
      return Encoded(false, "");
    }
    Widths();
    var converter := new BitConverter(8, 5, 16);
    var first: int := if charIsSigned && input[0] >= 0x80 then (input[0] as int) - 256 else input[0] as int;
    converter.Append(first);
    if first < 0 {
      NegativePeek(converter.buffer, Pow2(11));
      return BadIndex(converter.Peek());
    }
    FirstByte(input);
    assert converter.pending == ToBits(input[0], 8);
    var output := EncodeRest(input, converter);
    r := Encoded(true, output);
  }

  lemma NegativePeek(buffer: int, p: nat)
    requires buffer < 0 && p > 0
    ensures buffer / p < 0
  {}

  /** Part way: the first `next` bytes are the letters written plus the bits still pending. */
  ghost predicate EncodedSoFar(input: seq<Byte>, next: nat, output: string, pending: seq<bool>) {
    next <= |input| && IsAlphabet(output) && ByteBits(input[..next]) == TextBits(output) + pending
  }

  lemma FirstByte(input: seq<Byte>)
    requires input != []
    ensures EncodedSoFar(input, 1, "", ToBits(input[0], 8))
  {
    assert input[..0] == [];
    TakeByte(input, 0, "", []);
  }

  /** The loop of `Base32Encode` and the trailing, zero-padded letter. */
  method EncodeRest(input: seq<Byte>, converter: BitConverter) returns (output: string)
    requires converter.Valid() && converter.from == 8 && converter.to == 5 && converter.len == 16
    requires |converter.pending| >= 5 && EncodedSoFar(input, 1, "", converter.pending)
    modifies converter
    ensures Spells(output, input)
  {
    Widths();
    output := "";
    var next := 1;
    while converter.CanExtract()
      invariant converter.Valid()
      invariant EncodedSoFar(input, next, output, converter.pending)
      invariant |converter.pending| < 5 ==> next == |input|
      decreases |input| - next, |converter.pending|
    {
      EmitDigit(input, next, output, converter.pending, FromBits(converter.pending[..5]));
      var digit := converter.Extract();
      output := output + [ENCODING[digit]];
      if converter.CanAppend() && next < |input| {
        TakeByte(input, next, output, converter.pending);
        converter.Append(input[next]);
        next := next + 1;
      }
    }
    if converter.BitsAvailable() > 0 {
      PeekBits(16, converter.lowerFreeBits, 5, converter.buffer, converter.pending);
      LastDigit(input, output, converter.pending, 5 - |converter.pending|, converter.Peek());
      output := output + [ENCODING[converter.Peek()]];
    } else {
      NoLastDigit(input, output);
    }
  }

  lemma Widths()
    ensures Pow2(5) == 32 && Pow2(8) == 256 && Pow2(11) == 2048
  {}

  /** Writing the letter for the five oldest pending bits. */
  lemma EmitDigit(input: seq<Byte>, next: nat, output: string, pending: seq<bool>, digit: int)
    requires EncodedSoFar(input, next, output, pending) && |pending| >= 5 && digit == FromBits(pending[..5])
    ensures 0 <= digit < 32 && EncodedSoFar(input, next, output + [ENCODING[digit]], pending[5..])
  {
    EmitText(output, pending, digit);
  }

  lemma EmitText(output: string, pending: seq<bool>, digit: int)
    requires IsAlphabet(output) && |pending| >= 5 && digit == FromBits(pending[..5])
    ensures 0 <= digit < 32 && IsAlphabet(output + [ENCODING[digit]])
    ensures TextBits(output) + pending == TextBits(output + [ENCODING[digit]]) + pending[5..]
  {
    Widths();
    TablesInverse(ENCODING[digit], digit);
    DigitsAppend(output, ENCODING[digit]);
    EmitBits(Digits(output), pending, digit, 5);
  }

  lemma LastDigit(input: seq<Byte>, output: string, pending: seq<bool>, pad: nat, digit: int)
    requires EncodedSoFar(input, |input|, output, pending) && |pending| + pad == 5
    requires digit == FromBits(pending + Zeros(pad))
    ensures 0 <= digit < 32 && SpellsPadded(output + [ENCODING[digit]], input, pad)
  {
    EncodedWhole(input, output, pending);
    var group := pending + Zeros(pad);
    assert |group| == 5;
    EmitWhole(output, group, digit);
    PadEnd(TextBits(output), pending, Zeros(pad), TextBits(output + [ENCODING[digit]]), ByteBits(input));
  }

  lemma EmitWhole(output: string, group: seq<bool>, digit: int)
    requires IsAlphabet(output) && |group| == 5 && digit == FromBits(group)
    ensures 0 <= digit < 32 && IsAlphabet(output + [ENCODING[digit]])
    ensures TextBits(output) + group == TextBits(output + [ENCODING[digit]])
  {
    assert group[..5] == group && group[5..] == [];
    EmitText(output, group, digit);
    var bits := TextBits(output + [ENCODING[digit]]);
    assert bits + [] == bits;
  }

  lemma NoLastDigit(input: seq<Byte>, output: string)
    requires EncodedSoFar(input, |input|, output, [])
    ensures SpellsPadded(output, input, 0)
  {
    EncodedWhole(input, output, []);
    assert TextBits(output) + [] == TextBits(output) + Zeros(0);
  }

  lemma EncodedWhole(input: seq<Byte>, output: string, pending: seq<bool>)
    requires EncodedSoFar(input, |input|, output, pending)
    ensures ByteBits(input) == TextBits(output) + pending
  {
    assert input[..|input|] == input;
  }

  lemma PadEnd(done: seq<bool>, pending: seq<bool>, zeros: seq<bool>, text: seq<bool>, bytes: seq<bool>)
    requires bytes == done + pending && done + (pending + zeros) == text
    ensures text == bytes + zeros
  {
  }

  lemma EmitBits(digits: seq<nat>, pending: seq<bool>, digit: nat, n: nat)
    requires |pending| >= n && digit == FromBits(pending[..n])
    ensures Spread(digits, n) + pending == Spread(digits + [digit], n) + pending[n..]
  {
    ToFrom(pending[..n]);
    SpreadAppend(digits, digit, n);
    SplitTail(Spread(digits, n), pending, n);
  }

  lemma SplitTail<T>(a: seq<T>, b: seq<T>, n: nat)
    requires n <= |b|
    ensures a + b == (a + b[..n]) + b[n..]
  {
  }

  lemma TakeByte(input: seq<Byte>, next: nat, output: string, pending: seq<bool>)
    requires next < |input| && EncodedSoFar(input, next, output, pending)
    ensures EncodedSoFar(input, next + 1, output, pending + ToBits(input[next], 8))
  {
    TakeBits(input, next, TextBits(output), pending, 8);
  }

  lemma TakeBits(input: seq<nat>, next: nat, done: seq<bool>, pending: seq<bool>, n: nat)
    requires next < |input| && Spread(input[..next], n) == done + pending
    ensures Spread(input[..next + 1], n) == done + (pending + ToBits(input[next], n))
  {
    assert input[..next + 1] == input[..next] + [input[next]];
    SpreadAppend(input[..next], input[next], n);
  }

  // ---- Decoding ----

  /** Length of the longest prefix inside the alphabet. */
  function GoodPrefix(t: string): (k: nat)
    ensures k <= |t| && IsAlphabet(t[..k]) && (k < |t| ==> DigitOf(t[k]) < 0)
  {
    if t == [] then 0
    else
      var init := t[..|t| - 1];
      var k := GoodPrefix(init);
      assert init[..k] == t[..k];
      if k == |t| - 1 && DigitOf(t[k]) >= 0 then |t| else k
  }

  lemma GoodPrefixUnique(t: string, k: nat)
    requires k <= |t| && IsAlphabet(t[..k]) && (k < |t| ==> DigitOf(t[k]) < 0)
    ensures k == GoodPrefix(t)
  {
    AlphabetUpTo(t, k);
    AlphabetUpTo(t, GoodPrefix(t));
  }

  lemma AlphabetUpTo(t: string, k: nat)
    requires k <= |t| && IsAlphabet(t[..k])
    ensures forall i | 0 <= i < k :: DigitOf(t[i]) >= 0
  {
    forall i | 0 <= i < k ensures DigitOf(t[i]) >= 0 {
      assert t[..k][i] == t[i];
    }
  }

  /** Text `t` holds the bytes `out` and then the bits `rest`. */
  ghost predicate Holds(t: string, out: seq<Byte>, rest: seq<bool>) {
    IsAlphabet(t) && TextBits(t) == ByteBits(out) + rest
  }

  /** What `Base32Decode` returns: the whole bytes up to the first character outside the
      alphabet, and whether there was none and the bits left over are all zero. */
  ghost predicate DecodesTo(t: string, ok: bool, out: seq<Byte>) {
    exists rest: seq<bool> :: DecodesWithRest(t, ok, out, rest)
  }

  ghost predicate DecodesWithRest(t: string, ok: bool, out: seq<Byte>, rest: seq<bool>) {
    var k := GoodPrefix(t);
    |rest| < 8 && Holds(t[..k], out, rest) && (ok <==> k == |t| && rest == Zeros(|rest|))
  }

  method Base32Decode(input: string) returns (ok: bool, result: seq<Byte>)
    ensures DecodesTo(input, ok, result)
  {
    result := [];
    var converter := new BitConverter(5, 8, 16);
    for i := 0 to |input|
      invariant converter.Valid() && fresh(converter) && converter.from == 5 && converter.to == 8 && converter.len == 16
      invariant |converter.pending| < 8 && Holds(input[..i], result, converter.pending)
    {
      var digit := DigitOf(input[i]);
      if digit == -1 {
        DecodeStops(input, i, result, converter.pending);
        return false, result;
      }
      ReadDigit(input, i, result, converter.pending);
      result := ShiftIn(converter, digit, input[..i + 1], result);
    }
    ok := converter.Peek() == 0;
    PeekZero(converter.len, converter.lowerFreeBits, converter.to, converter.buffer, converter.pending);
    DecodeEnds(input, result, converter.pending, ok);
  }

  lemma DecodeStops(input: string, i: nat, result: seq<Byte>, pending: seq<bool>)
    requires i < |input| && DigitOf(input[i]) < 0 && |pending| < 8 && Holds(input[..i], result, pending)
    ensures DecodesTo(input, false, result)
  {
    GoodPrefixUnique(input, i);
    assert DecodesWithRest(input, false, result, pending);
  }

  lemma DecodeEnds(input: string, result: seq<Byte>, pending: seq<bool>, ok: bool)
    requires |pending| < 8 && Holds(input[..|input|], result, pending) && (ok <==> pending == Zeros(|pending|))
    ensures DecodesTo(input, ok, result)
  {
    GoodPrefixUnique(input, |input|);
    assert DecodesWithRest(input, ok, result, pending);
  }

  /** One turn of the loop: five bits in, and a byte out once there are eight. */
  method ShiftIn(converter: BitConverter, digit: nat, ghost t: string, sofar: seq<Byte>) returns (result: seq<Byte>)
    requires converter.Valid() && converter.from == 5 && converter.to == 8 && converter.len == 16
    requires digit < 32 && |converter.pending| < 8 && Holds(t, sofar, converter.pending + ToBits(digit, 5))
    modifies converter
    ensures converter.Valid() && |converter.pending| < 8 && Holds(t, result, converter.pending)
  {
    Widths();
    result := sofar;
    converter.Append(digit);
    if converter.CanExtract() {
      EmitByte(t, sofar, converter.pending, FromBits(converter.pending[..8]));
      var byte := converter.Extract();
      result := result + [byte];
    }
  }

  lemma ReadDigit(input: string, i: nat, result: seq<Byte>, pending: seq<bool>)
    requires i < |input| && DigitOf(input[i]) >= 0 && Holds(input[..i], result, pending)
    ensures Holds(input[..i + 1], result, pending + ToBits(DigitOf(input[i]), 5))
  {
    ReadNext(input, i, ByteBits(result), pending, 5);
  }

  lemma ReadNext(input: string, i: nat, done: seq<bool>, pending: seq<bool>, n: nat)
    requires i < |input| && DigitOf(input[i]) >= 0
    requires IsAlphabet(input[..i]) && Spread(Digits(input[..i]), n) == done + pending
    ensures IsAlphabet(input[..i + 1])
    ensures Spread(Digits(input[..i + 1]), n) == done + (pending + ToBits(DigitOf(input[i]), n))
  {
    assert input[..i + 1] == input[..i] + [input[i]];
    ReadLetter(input[..i], input[i], done, pending, n);
  }

  lemma ReadLetter(t: string, c: char, done: seq<bool>, pending: seq<bool>, n: nat)
    requires IsAlphabet(t) && DigitOf(c) >= 0 && Spread(Digits(t), n) == done + pending
    ensures IsAlphabet(t + [c]) && Spread(Digits(t + [c]), n) == done + (pending + ToBits(DigitOf(c), n))
  {
    DigitsAppend(t, c);
    ReadBits(Digits(t), DigitOf(c), done, pending, n);
  }

  lemma ReadBits(digits: seq<nat>, d: nat, done: seq<bool>, pending: seq<bool>, n: nat)
    requires Spread(digits, n) == done + pending
    ensures Spread(digits + [d], n) == done + (pending + ToBits(d, n))
  {}

  lemma EmitByte(t: string, result: seq<Byte>, pending: seq<bool>, byte: nat)
    requires Holds(t, result, pending) && |pending| >= 8 && byte == FromBits(pending[..8])
    ensures byte < 256 && Holds(t, result + [byte], pending[8..])
  {
    Widths();
    EmitBits(result, pending, byte, 8);
  }

  lemma BitLengths(t: string, s: seq<Byte>)
    requires IsAlphabet(t)
    ensures |TextBits(t)| == 5 * |t| && |ByteBits(s)| == 8 * |s|
  {
    SpreadLength(Digits(t), 5);
    SpreadLength(s, 8);
  }

  // ---- The same as numbers ----

  /** The number with these digits to the given base, most significant first. */
  function Number(digits: seq<nat>, base: nat): nat {
    if digits == [] then 0 else Number(digits[..|digits| - 1], base) * base + digits[|digits| - 1]
  }

  lemma {:induction false} SpreadIsNumber(vs: seq<nat>, n: nat)
    requires AllFit(vs, n)
    ensures FromBits(Spread(vs, n)) == Number(vs, Pow2(n))
  {
    if vs == [] {
    } else {
      var k := |vs| - 1;
      SpreadIsNumber(vs[..k], n);
      FromConcat(Spread(vs[..k], n), ToBits(vs[k], n));
      FromTo(vs[k], n);
    }
  }

  lemma TextIsNumber(t: string, s: seq<Byte>)
    requires IsAlphabet(t)
    ensures FromBits(TextBits(t)) == Number(Digits(t), 32) && FromBits(ByteBits(s)) == Number(s, 256)
  {
    Widths();
    SpreadIsNumber(Digits(t), 5);
    SpreadIsNumber(s, 8);
  }

  /** Encoding is conversion to base 32, of the bytes as one number to base 256 with fewer than five zero bits
      behind it. */
  lemma EncodesNumber(t: string, s: seq<Byte>)
    requires Spells(t, s)
    ensures IsAlphabet(t) && 0 <= 5 * |t| - 8 * |s| < 5
    ensures Number(Digits(t), 32) == Number(s, 256) * Pow2(5 * |t| - 8 * |s|)
  {
    var pad: nat :| pad < 5 && SpellsPadded(t, s, pad);
    BitLengths(t, s);
    TextIsNumber(t, s);
    FromConcat(ByteBits(s), Zeros(pad));
    FromZeros(Zeros(pad));
    assert |TextBits(t)| == |ByteBits(s)| + pad;
  }

  /** Decoding is conversion back, of the letters up to the first other character; what is too little for a byte is
      cut off, and a text is accepted exactly if there is no other character and nothing but zeros is cut off. */
  lemma DecodesNumber(t: string, ok: bool, out: seq<Byte>)
    requires DecodesTo(t, ok, out)
    ensures var k := GoodPrefix(t); var n := Number(Digits(t[..k]), 32);
            && |out| == 5 * k / 8
            && Number(out, 256) == n / Pow2(5 * k % 8)
            && (ok <==> k == |t| && n % Pow2(5 * k % 8) == 0)
  {
    var rest: seq<bool> :| DecodesWithRest(t, ok, out, rest);
    var p := t[..GoodPrefix(t)];
    BitLengths(p, out);
    assert |TextBits(p)| == |ByteBits(out)| + |rest|;
    TextIsNumber(p, out);
    FromConcat(ByteBits(out), rest);
    FromZeros(rest);
    DivModUnique(Number(Digits(p), 32), Pow2(|rest|), Number(out, 256), FromBits(rest));
  }

  // ---- Round trips ----

  /** An encoding has exactly (8n + 4) / 5 characters. */
  lemma EncodedLength(s: seq<Byte>, t: string)
    requires Spells(t, s)
    ensures |t| == (8 * |s| + 4) / 5
  {
    BitLengths(t, s);
  }

  lemma SameBytes(a: seq<Byte>, b: seq<Byte>, x: seq<bool>, y: seq<bool>)
    requires ByteBits(a) + x == ByteBits(b) + y && |a| == |b|
    ensures a == b && x == y
  {
    Widths();
    SpreadLength(a, 8);
    SpreadLength(b, 8);
    SamePrefix(ByteBits(a), x, ByteBits(b), y);
    SpreadInjective(a, b, 8);
  }

  lemma SameText(a: string, b: string)
    requires IsAlphabet(a) && IsAlphabet(b) && TextBits(a) == TextBits(b)
    ensures a == b
  {
    Widths();
    SpreadLength(Digits(a), 5);
    SpreadLength(Digits(b), 5);
    SpreadInjective(Digits(a), Digits(b), 5);
    DigitsInjective(a, b);
  }

  lemma SpellsUnique(t: string, u: string, s: seq<Byte>)
    requires Spells(t, s) && Spells(u, s)
    ensures t == u
  {
    EncodedLength(s, t);
    EncodedLength(s, u);
    BitLengths(t, s);
    BitLengths(u, s);
    SameText(t, u);
  }

  /** The two relations are functions: the results they allow are unique. */
  lemma DecodesUnique(t: string, ok1: bool, out1: seq<Byte>, ok2: bool, out2: seq<Byte>)
    requires DecodesTo(t, ok1, out1) && DecodesTo(t, ok2, out2)
    ensures ok1 == ok2 && out1 == out2
  {
    var p := t[..GoodPrefix(t)];
    var r1: seq<bool> :| DecodesWithRest(t, ok1, out1, r1);
    var r2: seq<bool> :| DecodesWithRest(t, ok2, out2, r2);
    BitLengths(p, out1);
    BitLengths(p, out2);
    SameBytes(out1, out2, r1, r2);
  }

  lemma AlphabetIsGood(t: string)
    requires IsAlphabet(t)
    ensures GoodPrefix(t) == |t| && t[..|t|] == t
  {}

  /** Decoding an encoding gives the bytes back, and succeeds. */
  lemma DecodeEncode(s: seq<Byte>, charIsSigned: bool, r: Encoded, ok: bool, out: seq<Byte>)
    requires EncodesTo(s, charIsSigned, r) && r.Encoded? && r.ok && DecodesTo(r.text, ok, out)
    ensures ok && out == s && |r.text| == (8 * |s| + 4) / 5
  {
    var t := r.text;
    EncodedLength(s, t);
    var pad: nat :| pad < 5 && SpellsPadded(t, s, pad);
    AlphabetIsGood(t);
    var rest: seq<bool> :| DecodesWithRest(t, ok, out, rest);
    BitLengths(t, s);
    BitLengths(t, out);
    SameBytes(s, out, Zeros(pad), rest);
  }

  /** Re-encoding an accepted text gives the text back exactly when its length could be the
      length of an encoding; otherwise it has one `A` too many at its end. */
  lemma EncodeDecode(t: string, out: seq<Byte>, charIsSigned: bool, r: Encoded)
    requires DecodesTo(t, true, out) && EncodesTo(out, charIsSigned, r) && r.Encoded? && r.ok
    ensures r.text == t <==> |t| % 8 in {0, 2, 4, 5, 7}
    ensures |t| % 8 in {1, 3, 6} ==> t == r.text + "A"
  {
    var rest: seq<bool> :| DecodesWithRest(t, true, out, rest);
    var pad: nat :| pad < 5 && SpellsPadded(r.text, out, pad);
    assert t[..|t|] == t;
    BitLengths(t, out);
    BitLengths(r.text, out);
    RestLength(|t|, |out|, |rest|);
    if |rest| < 5 {
      assert SpellsPadded(t, out, |rest|);
      SpellsUnique(t, r.text, out);
    } else {
      ExtraLetter(r.text, out, pad);
      SameLengthRest(|r.text|, |out|, pad, |t|, |rest|);
      SameText(t, r.text + "A");
    }
  }

  /** The first round trip, on all byte strings and both kinds of `char`. */
  method EncodeThenDecode(s: seq<Byte>, charIsSigned: bool) returns (r: Encoded, ok: bool, out: seq<Byte>)
    ensures if |s| > SIZE_MAX / 8 || (s != [] && charIsSigned && s[0] >= 0x80) then !(r.Encoded? && r.ok)
            else r.Encoded? && r.ok && |r.text| == (8 * |s| + 4) / 5 && ok && out == s
  {
    r := Base32Encode(s, charIsSigned);
    if r.BadIndex? || !r.ok {
      return r, false, [];
    }
    ok, out := Base32Decode(r.text);
    DecodeEncode(s, charIsSigned, r, ok, out);
  }

  /** The second round trip, on all accepted texts. */
  method DecodeThenEncode(t: string, charIsSigned: bool) returns (ok: bool, out: seq<Byte>, r: Encoded)
    ensures ok ==> (r.Encoded? && r.ok <==> |out| <= SIZE_MAX / 8 && !(out != [] && charIsSigned && out[0] >= 0x80))
    ensures ok && r.Encoded? && r.ok ==> (r.text == t <==> |t| % 8 in {0, 2, 4, 5, 7})
    ensures ok && r.Encoded? && r.ok && |t| % 8 in {1, 3, 6} ==> t == r.text + "A"
  {
    ok, out := Base32Decode(t);
    r := Base32Encode(out, charIsSigned);
    if ok && r.Encoded? && r.ok {
      EncodeDecode(t, out, charIsSigned, r);
    }
  }

  /** Any text that spells `s` with fewer than eight zeros added is accepted as `s`. */
  lemma PaddingAccepted(t: string, s: seq<Byte>, pad: nat)
    requires SpellsPadded(t, s, pad) && pad < 8
    ensures DecodesTo(t, true, s)
  {
    AlphabetIsGood(t);
    assert DecodesWithRest(t, true, s, Zeros(pad));
  }

  /** The shortest such text: "A" is accepted as no bytes, which are written as no letters. */
  lemma SingleLetterIsLost(charIsSigned: bool)
    ensures DecodesTo("" + "A", true, []) && EncodesTo([], charIsSigned, Encoded(true, ""))
  {
    assert SpellsPadded("", [], 0);
    ExtraLetter("", [], 0);
    PaddingAccepted("" + "A", [], 5);
  }

  lemma RestLength(n: nat, m: nat, rest: nat)
    requires 5 * n == 8 * m + rest && rest < 8
    ensures rest < 5 <==> n % 8 in {0, 2, 4, 5, 7}
    ensures rest >= 5 <==> n % 8 in {1, 3, 6}
  {}

  lemma SameLengthRest(n: nat, m: nat, pad: nat, n': nat, rest: nat)
    requires 5 * n == 8 * m + pad && pad < 5 && 5 * n' == 8 * m + rest && 5 <= rest < 8
    ensures rest == pad + 5
  {}

  lemma ExtraLetter(t: string, s: seq<Byte>, pad: nat)
    requires SpellsPadded(t, s, pad)
    ensures SpellsPadded(t + "A", s, pad + 5)
  {
    FromZeros(Zeros(5));
    LetterOf(0);
    EmitWhole(t, Zeros(5), 0);
    ZerosAdd(ByteBits(s), pad, 5);
  }

  lemma ZerosAdd(a: seq<bool>, m: nat, n: nat)
    ensures (a + Zeros(m)) + Zeros(n) == a + Zeros(m + n)
  {
  }
}
