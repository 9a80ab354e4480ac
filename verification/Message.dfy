/** Messages: a growable byte buffer that values are appended to and read back from. */
module Messages {
  import opened Bits
  import opened PowersOfTwo
  import opened Wrappers

  /** The capacity of a message holding `n` bytes. */
  function Capacity(n: nat): nat { if n == 0 then 0 else PowerAbove(n) }

  /** The buffer size asked for: the request is cut to 32 bits, then rounded up. */
  function Rounded(size: nat): nat {
    var x := size % WORD;
    if x <= WORD / 2 then PowerAbove(x) else 0
  }

  lemma HalfWordIsLargest(x: nat)
    requires x <= WORD / 2
    ensures PowerAbove(x) <= WORD / 2
  {
    WordIsPower();
    PowerAboveLeast(x, 31);
  }

  /** The buffer asked for is large enough exactly up to half the range of a 32-bit word. */
  lemma RoundedCoversIff(size: nat)
    ensures Rounded(size) >= size <==> size <= WORD / 2
  {
    if size % WORD <= WORD / 2 { HalfWordIsLargest(size % WORD); }
  }

  ghost predicate IsPower(n: nat) { exists k: nat :: n == Pow2(k) }

  /** Reads are bounded by the data itself exactly when its length is zero or a power of two. */
  lemma CapacityIsDataIff(n: nat)
    ensures Capacity(n) == n <==> n == 0 || IsPower(n)
  {
    if n > 0 {
      var j := PowerAboveIs(n);
      if IsPower(n) {
        var k: nat :| n == Pow2(k);
        PowerAboveLeast(n, k);
      }
    }
  }

  /** A request beyond the capacity makes it grow; one within it leaves it the capacity of the new length. */
  lemma CapacityGrows(n: nat, size: nat)
    requires n <= size
    ensures size > Capacity(n) ==> PowerAbove(size) > Capacity(n)
    ensures 0 < n && size <= Capacity(n) ==> Capacity(size) == Capacity(n)
  {
    if 0 < n && size <= Capacity(n) {
      var k := PowerAboveIs(n);
      PowerFromIs(size, 0, k);
    }
  }

  /** `memcpy` of `value` to the bytes at `at`. */
  method Write(buffer: array<Byte>, at: nat, value: seq<Byte>)
    requires at + |value| <= buffer.Length
    modifies buffer
    ensures buffer[..at] == old(buffer[..at]) && buffer[at..at + |value|] == value
  {
    for i := 0 to |value|
      invariant buffer[..at] == old(buffer[..at])
      invariant forall j | 0 <= j < i :: buffer[at + j] == value[j]
    {
      buffer[at + i] := value[i];
    }
  }

  /** What becomes of a value to be encoded: its bytes are appended; no memory is had; the check that a
      buffer only grows fails; or there is a buffer, too small for what is then written to it. */
  datatype Outcome = Appended | NoMemory | CheckFailed | Overrun

  /** The outcome where the message would come to hold `size` bytes. */
  function OutcomeOf(hasBuffer: bool, bufferLength: nat, size: nat, allocates: bool): Outcome {
    if size <= bufferLength then Appended
    else if hasBuffer && Rounded(size) <= bufferLength then CheckFailed
    else if !allocates then NoMemory
    else if Rounded(size) < size then Overrun
    else Appended
  }

  /** A value is appended if and only if the message stays within 2^31 bytes and memory, where it is
      needed, can be had. */
  lemma AppendedIff(hasBuffer: bool, n: nat, size: nat, allocates: bool)
    requires n < size && n <= WORD / 2
    ensures OutcomeOf(hasBuffer, Capacity(n), size, allocates).Appended? <==>
            size <= WORD / 2 && (size <= Capacity(n) || allocates)
    ensures size <= WORD / 2 ==> OutcomeOf(hasBuffer, Capacity(n), size, allocates) in {Appended, NoMemory}
  {
    RoundedCoversIff(size);
    HalfWordIsLargest(n);
  }

  /** Beyond 2^31 bytes, as long as 32 bits hold the size: the check on growing fails if there is a buffer; where there
      is none, a buffer of no bytes is had and overrun. */
  lemma BeyondLimit(hasBuffer: bool, n: nat, size: nat, allocates: bool)
    requires n <= WORD / 2 < size < WORD
    ensures OutcomeOf(hasBuffer, Capacity(n), size, allocates) ==
            if hasBuffer then CheckFailed else if allocates then Overrun else NoMemory
  {
    HalfWordIsLargest(n);
  }

  /** Beyond that the size is cut to 32 bits: the buffer is overrun exactly if it can be had and, where there is one
      already, the rounded size is more than it holds. */
  lemma CutSize(hasBuffer: bool, n: nat, size: nat, allocates: bool)
    requires n <= WORD / 2 && WORD <= size && size % WORD <= WORD / 2
    ensures var grows := !hasBuffer || PowerAbove(size % WORD) > Capacity(n);
            OutcomeOf(hasBuffer, Capacity(n), size, allocates) ==
            if !grows then CheckFailed else if allocates then Overrun else NoMemory
  {
    HalfWordIsLargest(n);
    RoundedCoversIff(size);
  }

  class Message {
    var buffer: array?<Byte>
    var bufferLength: nat
    var dataLength: nat
    var sizeRead: nat

    ghost predicate Shape()
      reads this
    {
      && (if buffer == null then bufferLength == 0 else buffer.Length == bufferLength)
      && dataLength <= bufferLength
      && sizeRead <= bufferLength
    }

    /** The capacity is always the least power of two that holds the data. */
    ghost predicate Valid()
      reads this
    {
      Shape() && bufferLength == Capacity(dataLength) && dataLength <= WORD / 2
    }

    /** Everything in the buffer, whether written or not. */
    ghost function Stored(): (s: seq<Byte>)
      requires Shape()
      reads this, buffer
      ensures |s| == bufferLength
    {
      if buffer == null then [] else buffer[..]
    }

    ghost function Contents(): seq<Byte>
      requires Shape()
      reads this, buffer
    {
      Stored()[..dataLength]
    }

    constructor ()
      ensures Valid() && buffer == null && Contents() == [] && sizeRead == 0
    {
      buffer, bufferLength, dataLength, sizeRead := null, 0, 0, 0;
    }

    /** `malloc` or `realloc`; `allocates` says whether it succeeds. */
    method Resize(size: nat, allocates: bool) returns (success: bool)
      requires Shape() && (buffer != null ==> size > bufferLength)
      modifies this`buffer, this`bufferLength
      ensures Shape() && success == allocates
      ensures if success then fresh(buffer) && bufferLength == size else buffer == old(buffer)
      ensures !success ==> Stored() == old(Stored())
      ensures Stored()[..old(bufferLength)] == old(Stored())
    {
      if !allocates {
        return false;
      }
      var resized := new Byte[size];
      if buffer != null {
        for i := 0 to bufferLength
          modifies resized
          invariant forall j | 0 <= j < i :: resized[j] == buffer[j]
        {
          resized[i] := buffer[i];
        }
      }
      ghost var before := Stored();
      buffer, bufferLength := resized, size;
      assert Stored()[..|before|] == before;
      return true;
    }

    /** Requires what `Resize` checks, and that only. */
    method Reserve(size: nat, allocates: bool) returns (success: bool)
      requires Shape() && (buffer != null && size > bufferLength ==> Rounded(size) > bufferLength)
      modifies this`buffer, this`bufferLength
      ensures Shape() && (success <==> size <= old(bufferLength) || allocates)
      ensures buffer != old(buffer) ==> fresh(buffer)
      ensures bufferLength == if old(bufferLength) < size && success then Rounded(size) else old(bufferLength)
      ensures Stored()[..old(bufferLength)] == old(Stored())
    {
      if bufferLength >= size {
        return true;
      }
      var rounded := NextPowerOfTwoSize(size % WORD);
      success := Resize(rounded, allocates);
    }

    /** Appends the bytes of a value, of which every C++ object has at least one. */
    method Encode(value: seq<Byte>, allocates: bool) returns (outcome: Outcome)
      requires Valid() && value != []
      modifies this, buffer
      ensures outcome == OutcomeOf(old(buffer) != null, old(bufferLength), old(dataLength) + |value|, allocates)
      ensures outcome.Appended? <==>
                old(dataLength) + |value| <= WORD / 2 && (old(dataLength) + |value| <= old(bufferLength) || allocates)
      ensures buffer != old(buffer) ==> fresh(buffer)
      ensures outcome.Appended? || outcome.NoMemory? ==> Valid() && sizeRead == old(sizeRead)
      ensures outcome.Appended? ==> Contents() == old(Contents()) + value
      ensures outcome.NoMemory? ==> Contents() == old(Contents())
    {
      var size := dataLength + |value|;
      AppendedIff(buffer != null, dataLength, size, allocates);
      CapacityGrows(dataLength, size);
      ghost var before := Contents();
      if buffer != null && size > bufferLength && Rounded(size) <= bufferLength {
        return CheckFailed;
      }
      var success := Reserve(size, allocates);
      assert Contents() == before;
      if !success {
        return NoMemory;
      }
      if size > bufferLength {
        return Overrun;
      }
      Write(buffer, dataLength, value);
      assert buffer[..size] == before + value;
      dataLength := size;
      outcome := Appended;
    }

    /** Reads the next `size` bytes. Only the capacity limits a read, not the data. */
    method Decode(size: nat) returns (success: bool, value: seq<Byte>)
      requires Valid() && size > 0
      modifies this`sizeRead
      ensures Valid() && Contents() == old(Contents())
      ensures success <==> old(sizeRead) + size <= bufferLength
      ensures sizeRead == if success then old(sizeRead) + size else old(sizeRead)
      ensures success ==> value == Stored()[old(sizeRead)..sizeRead]
      ensures success && sizeRead <= dataLength ==> value == Contents()[old(sizeRead)..sizeRead]
    {
      if sizeRead + size > bufferLength {
        return false, [];
      }
      value := buffer[sizeRead..sizeRead + size];
      sizeRead := sizeRead + size;
      success := true;
    }

    method ResetRead()
      requires Valid()
      modifies this`sizeRead
      ensures Valid() && Contents() == old(Contents()) && sizeRead == 0
    {
      sizeRead := 0;
    }

    /** `Encode`, within the limit: it then fails, and changes nothing, only if memory runs out. */
    method EncodeOne(value: seq<Byte>, allocates: bool) returns (success: bool)
      requires Valid() && value != [] && dataLength + |value| <= WORD / 2
      modifies this, buffer
      ensures Valid() && sizeRead == old(sizeRead) && (buffer != old(buffer) ==> fresh(buffer))
      ensures allocates ==> success
      ensures Contents() == if success then old(Contents()) + value else old(Contents())
    {
      AppendedIff(buffer != null, dataLength, dataLength + |value|, allocates);
      var outcome := Encode(value, allocates);
      success := outcome.Appended?;
    }

    /** Encodes the values in order; `allocates[i]` says whether memory can be had for value `i`. */
    method EncodeAll(values: seq<seq<Byte>>, allocates: seq<bool>) returns (success: bool)
      requires Valid() && AllSome(values) && dataLength + |Concat(values)| <= WORD / 2 && |allocates| == |values|
      modifies this, buffer
      ensures Valid() && sizeRead == old(sizeRead) && (buffer != old(buffer) ==> fresh(buffer))
      ensures false !in allocates ==> success
      ensures success ==> Contents() == old(Contents()) + Concat(values)
    {
      ghost var before := Contents();
      WrittenEnds(before, values);
      for i := 0 to |values|
        invariant Valid() && sizeRead == old(sizeRead) && (buffer != old(buffer) ==> fresh(buffer))
        invariant Contents() == Written(before, values, i)
      {
        WrittenStep(before, values, i);
        assert |Contents()| == dataLength;
        success := EncodeOne(values[i], allocates[i]);
        if !success {
          return;
        }
      }
      success := true;
    }

    /** Decodes values of the given sizes in order; where `values` were written, `values` are read. */
    method DecodeAll(sizes: seq<nat>, ghost values: seq<seq<Byte>>) returns (success: bool, back: seq<seq<Byte>>)
      requires Valid() && AllSome(values) && HasSizes(values, sizes)
      requires sizeRead <= dataLength && Concat(values) <= Contents()[sizeRead..]
      modifies this`sizeRead
      ensures Valid() && Contents() == old(Contents())
      ensures success && back == values && sizeRead == old(sizeRead) + |Concat(values)|
    {
      back := [];
      ghost var start, data := sizeRead, Contents();
      for i := 0 to |sizes|
        invariant Valid() && Contents() == data
        invariant back == values[..i] && sizeRead == start + |Concat(values[..i])|
      {
        ghost var at := sizeRead;
        WrittenAt(values, i, data, start);
        var ok, value := Decode(sizes[i]);
        assert value == data[at..at + sizes[i]] == values[i];
        back := back + [value];
      }
      assert values[..|sizes|] == values;
      success := true;
    }
  }

  // ---- Sequences of values ----

  function Concat(values: seq<seq<Byte>>): seq<Byte> {
    if values == [] then [] else Concat(values[..|values| - 1]) + values[|values| - 1]
  }

  predicate AllSome(values: seq<seq<Byte>>) { forall i | 0 <= i < |values| :: values[i] != [] }

  predicate HasSizes(values: seq<seq<Byte>>, sizes: seq<nat>) {
    |values| == |sizes| && forall i | 0 <= i < |sizes| :: |values[i]| == sizes[i]
  }

  lemma ConcatPush(values: seq<seq<Byte>>, value: seq<Byte>)
    ensures Concat(values + [value]) == Concat(values) + value
  {}

  lemma {:induction false} ConcatStep(values: seq<seq<Byte>>, i: nat)
    requires i < |values|
    ensures Concat(values[..i + 1]) == Concat(values[..i]) + values[i]
    ensures Concat(values[..i + 1]) <= Concat(values)
    decreases |values| - i
  {
    assert values[..i + 1] == values[..i] + [values[i]];
    ConcatPush(values[..i], values[i]);
    if i + 1 < |values| {
      ConcatStep(values, i + 1);
    } else {
      assert values[..i + 1] == values;
    }
  }

  lemma MiddleFrom(data: seq<Byte>, start: nat, a: seq<Byte>, x: seq<Byte>)
    requires start <= |data| && a + x <= data[start..]
    ensures start + |a| + |x| <= |data| && data[start + |a|..start + |a| + |x|] == x
  {
    forall i | 0 <= i < |x| ensures data[start + |a| + i] == x[i] {
      assert (a + x)[|a| + i] == x[i] && data[start..][|a| + i] == data[start + |a| + i];
    }
  }

  /** Where the values were written from `start`, value `i` is found behind the ones before it. */
  lemma WrittenAt(values: seq<seq<Byte>>, i: nat, data: seq<Byte>, start: nat)
    requires start <= |data| && Concat(values) <= data[start..] && i < |values|
    ensures var at := start + |Concat(values[..i])|;
            at + |values[i]| <= |data| && data[at..at + |values[i]|] == values[i]
    ensures |Concat(values[..i + 1])| == |Concat(values[..i])| + |values[i]|
    ensures values[..i] + [values[i]] == values[..i + 1]
  {
    ConcatStep(values, i);
    MiddleFrom(data, start, Concat(values[..i]), values[i]);
  }

  /** The bytes `before`, followed by the first `i` values. */
  ghost function Written(before: seq<Byte>, values: seq<seq<Byte>>, i: nat): seq<Byte>
    requires i <= |values|
  {
    before + Concat(values[..i])
  }

  lemma WrittenStep(before: seq<Byte>, values: seq<seq<Byte>>, i: nat)
    requires i < |values|
    ensures Written(before, values, i) + values[i] == Written(before, values, i + 1)
    ensures |Written(before, values, i + 1)| <= |before| + |Concat(values)|
  {
    ConcatStep(values, i);
    assert before + (Concat(values[..i]) + values[i]) == before + Concat(values[..i]) + values[i];
  }

  lemma WrittenEnds(before: seq<Byte>, values: seq<seq<Byte>>)
    ensures Written(before, values, 0) == before && Written(before, values, |values|) == before + Concat(values)
  {
    assert before + [] == before && values[..|values|] == values;
  }

  function Sizes(values: seq<seq<Byte>>): (sizes: seq<nat>)
    ensures HasSizes(values, sizes)
  {
    if values == [] then [] else Sizes(values[..|values| - 1]) + [|values[|values| - 1]|]
  }

  /** Any values that fit, written to a new message and read back in the same order, come back, and
      nothing is left to read; the message takes up the least power of two that holds them. */
  method RoundTrip(values: seq<seq<Byte>>) returns (back: seq<seq<Byte>>, read: nat, written: nat, capacity: nat)
    requires AllSome(values) && |Concat(values)| <= WORD / 2
    ensures back == values
    ensures read == written == |Concat(values)| && capacity == Capacity(written)
  {
    var message := new Message();
    var ok := message.EncodeAll(values, seq(|values|, i => true));
    assert message.Contents() == Concat(values);
    message.ResetRead();
    ok, back := message.DecodeAll(Sizes(values), values);
    read, written, capacity := message.sizeRead, message.dataLength, message.bufferLength;
  }

  // ---- Owned objects ----

  /** A `unique_ptr`: null, or an object with its type tag and serialised body. */
  datatype Pointer = Null | To(tag: seq<Byte>, body: seq<Byte>)

  const TAG_SIZE: nat := 8

  /** The tag is a `size_t`; the body may be empty. */
  predicate IsPointer(p: Pointer) { p.To? ==> |p.tag| == TAG_SIZE }

  /** What is written for a pointer: whether it is not null, the tag, the body if it has any bytes. */
  function Fields(p: Pointer): seq<seq<Byte>> {
    if p.Null? then [[0]] else [[1], p.tag] + if p.body == [] then [] else [p.body]
  }

  /** Reads a pointer into `target`. The flag is read as "is null", where encoding wrote "is not null".
      `create` says how many bytes an object made for a tag reads, if one is made. */
  method DecodePointer(m: Message, target: Pointer, create: seq<Byte> -> Option<nat>)
    returns (success: bool, result: Pointer)
    requires m.Valid()
    modifies m`sizeRead
    ensures m.Valid() && m.Contents() == old(m.Contents())
    ensures var at, stored := old(m.sizeRead), m.Stored();
            if at == m.bufferLength then !success && result == target
            else if stored[at] != 0 then success && result == target
            else if at + 1 + TAG_SIZE > m.bufferLength then !success && result == target
            else
              var body, tag := at + 1 + TAG_SIZE, stored[at + 1..at + 1 + TAG_SIZE];
              var created := create(tag);
              if created.None? || body + created.value > m.bufferLength then !success && result == target
              else success && result == To(tag, stored[body..body + created.value])
  {
    var flag;
    success, flag := m.Decode(1);
    if !success {
      return false, target;
    }
    if flag[0] != 0 {
      return true, target;
    }
    success, result := DecodeObject(m, target, create);
  }

  /** The rest of it, behind the flag. */
  method DecodeObject(m: Message, target: Pointer, create: seq<Byte> -> Option<nat>)
    returns (success: bool, result: Pointer)
    requires m.Valid()
    modifies m`sizeRead
    ensures m.Valid() && m.Contents() == old(m.Contents())
    ensures var at, stored := old(m.sizeRead), m.Stored();
            if at + TAG_SIZE > m.bufferLength then !success && result == target
            else
              var body, tag := at + TAG_SIZE, stored[at..at + TAG_SIZE];
              var created := create(tag);
              if created.None? || body + created.value > m.bufferLength then !success && result == target
              else success && result == To(tag, stored[body..body + created.value])
  {
    result := target;
    var tag, body;
    success, tag := m.Decode(TAG_SIZE);
    if !success {
      return;
    }
    var created := create(tag);
    if created.None? {
      return false, target;
    }
    body := [];
    if created.value > 0 {
      success, body := m.Decode(created.value);
    }
    if success {
      result := To(tag, body);
    }
  }

  /** Owned objects do not survive a round trip: an object is read back as whatever the target already
      held, and null is not read back at all. It is right only where the target was right before. */
  method PointerRoundTrip(p: Pointer, target: Pointer, create: seq<Byte> -> Option<nat>)
    returns (success: bool, result: Pointer)
    requires IsPointer(p) && |Concat(Fields(p))| <= WORD / 2
    ensures success <==> p.To?
    ensures result == target
    ensures success && result == p <==> p.To? && target == p
  {
    var m := new Message();
    success := m.EncodeAll(Fields(p), seq(|Fields(p)|, i => true));
    assert m.Contents() == Concat(Fields(p));
    PointerBytes(p);
    m.ResetRead();
    success, result := DecodePointer(m, target, create);
  }

  /** A flag that is zero for null; for an object, one, its tag and its body. */
  lemma PointerBytes(p: Pointer)
    ensures Concat(Fields(p)) == if p.Null? then [0] else [1] + p.tag + p.body
    ensures p.Null? ==> Capacity(|Concat(Fields(p))|) == 1
  {
    var none: seq<seq<Byte>> := [];
    if p.Null? {
      ConcatPush(none, [0]);
      assert none + [[0]] == Fields(p);
    } else {
      ConcatPush(none, [1]);
      ConcatPush(none + [[1]], p.tag);
      assert none + [[1]] + [p.tag] == [[1], p.tag];
      ConcatPush([[1], p.tag], p.body);
    }
  }
}
