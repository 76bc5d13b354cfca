/** The SSH wire format: uint32 and string (section 5 of RFC 4251), written and read byte by byte. */
module SshWire {
  import opened Support

  type byte = b: int | 0 <= b < 256

  type Bytes = seq<byte>

  const TWO_TO_THE_32 := 0x1_0000_0000

  // ---- the format ----

  /** Big-endian, most significant byte first. */
  function Uint32(n: nat): (r: Bytes)
    requires n < TWO_TO_THE_32
    ensures |r| == 4
  {
    [n / 0x100_0000, n / 0x1_0000 % 0x100, n / 0x100 % 0x100, n % 0x100]
  }

  function Uint32Value(b: Bytes): nat
    requires |b| == 4
  {
    ((b[0] as int * 0x100 + b[1]) * 0x100 + b[2]) * 0x100 + b[3]
  }

  /** What `encodeSshString` writes: `setUint32` keeps the length modulo 2^32. */
  function SshString(value: Bytes): Bytes {
    Uint32(|value| % TWO_TO_THE_32) + value
  }

  function Flatten(values: seq<Bytes>): Bytes {
    if values == [] then [] else Flatten(values[..|values| - 1]) + values[|values| - 1]
  }

  // ---- reading off the front ----

  function TakeBytes(b: Bytes, n: nat): Option<(Bytes, Bytes)> {
    if n <= |b| then Some((b[..n], b[n..])) else None
  }

  function TakeUint32(b: Bytes): Option<(nat, Bytes)> {
    if 4 <= |b| then Some((Uint32Value(b[..4]), b[4..])) else None
  }

  function TakeString(b: Bytes): Option<(Bytes, Bytes)> {
    var (length, rest) :- TakeUint32(b);
    TakeBytes(rest, length)
  }

  lemma StringBytes(value: Bytes)
    requires |value| < TWO_TO_THE_32
    ensures SshString(value) == Uint32(|value|) + value
  {}

  lemma StringThenRest(value: Bytes, rest: Bytes)
    requires |value| < TWO_TO_THE_32
    ensures SshString(value) + rest == Uint32(|value|) + (value + rest)
  {}

  /** The bytes weigh 2^24, 2^16, 2^8 and 1. */
  lemma BigEndian(n: nat)
    requires n < TWO_TO_THE_32
    ensures var b := Uint32(n); b[0] as int * 16_777_216 + b[1] as int * 65_536 + b[2] as int * 256 + b[3] == n
  {
    Uint32Inverse(n);
  }

  lemma Uint32Inverse(n: nat)
    requires n < TWO_TO_THE_32
    ensures Uint32Value(Uint32(n)) == n
  {
    BytesOf(n);
    var q := n / 0x100;
    BytesOf(q);
    BytesOf(q / 0x100);
  }

  /** Dividing by another 256 drops another byte. */
  lemma BytesOf(n: nat)
    ensures n / 0x1_0000 == n / 0x100 / 0x100 && n / 0x100_0000 == n / 0x1_0000 / 0x100
  {}

  lemma Uint32Unique(b: Bytes)
    requires |b| == 4
    ensures Uint32Value(b) < TWO_TO_THE_32 && Uint32(Uint32Value(b)) == b
  {
    var high := b[0] as int * 0x100 + b[1];
    var n := Uint32Value(b);
    LastByte(b[0], b[1]);
    LastByte(high, b[2]);
    LastByte(high * 0x100 + b[2], b[3]);
    BytesOf(n);
    assert Uint32(n) == [b[0], b[1], b[2], b[3]];
  }

  lemma LastByte(q: nat, b: byte)
    ensures (q * 0x100 + b) / 0x100 == q && (q * 0x100 + b) % 0x100 == b
  {}

  lemma TakeWrittenUint32(n: nat, rest: Bytes)
    requires n < TWO_TO_THE_32
    ensures TakeUint32(Uint32(n) + rest) == Some((n, rest))
  {
    Uint32Inverse(n);
    assert (Uint32(n) + rest)[..4] == Uint32(n);
    assert (Uint32(n) + rest)[4..] == rest;
  }

  /** A written string is read back, with everything after it left over, exactly when its length fits 32 bits. */
  lemma TakeWrittenStringIff(value: Bytes, rest: Bytes)
    ensures TakeString(SshString(value) + rest) == Some((value, rest)) <==> |value| < TWO_TO_THE_32
  {
    var n := |value| % TWO_TO_THE_32;
    assert SshString(value) + rest == Uint32(n) + (value + rest);
    TakeWrittenUint32(n, value + rest);
    if |value| < TWO_TO_THE_32 {
      assert (value + rest)[..n] == value;
      assert (value + rest)[n..] == rest;
    } else {
      assert |(value + rest)[..n]| < |value|;
    }
  }

  lemma TakenUint32WasWritten(b: Bytes)
    requires TakeUint32(b).Some?
    ensures var (n, rest) := TakeUint32(b).value; n < TWO_TO_THE_32 && b == Uint32(n) + rest
  {
    Uint32Unique(b[..4]);
    assert b == b[..4] + b[4..];
  }

  /** Whatever is read as a string was written as that string. */
  lemma TakenStringWasWritten(b: Bytes)
    requires TakeString(b).Some?
    ensures var (value, rest) := TakeString(b).value; |value| < TWO_TO_THE_32 && b == SshString(value) + rest
  {
    TakenUint32WasWritten(b);
    var (length, tail) := TakeUint32(b).value;
    var (value, rest) := TakeString(b).value;
    assert tail == value + rest && |value| == length;
    assert SshString(value) == Uint32(length) + value;
    assert Uint32(length) + (value + rest) == (Uint32(length) + value) + rest;
  }

  function TakeStrings(b: Bytes, count: nat): Option<(seq<Bytes>, Bytes)> {
    if count == 0 then Some(([], b))
    else
      var (first, rest) :- TakeString(b);
      var (others, left) :- TakeStrings(rest, count - 1);
      Some(([first] + others, left))
  }

  function WrittenStrings(values: seq<Bytes>): Bytes {
    if values == [] then [] else SshString(values[0]) + WrittenStrings(values[1..])
  }

  lemma FirstWritten(values: seq<Bytes>, rest: Bytes)
    requires values != []
    ensures WrittenStrings(values) + rest == SshString(values[0]) + (WrittenStrings(values[1..]) + rest)
  {}

  function SshStrings(values: seq<Bytes>): seq<Bytes> {
    seq(|values|, i requires 0 <= i < |values| => SshString(values[i]))
  }

  lemma {:induction false} FlattenFromFront(head: Bytes, values: seq<Bytes>)
    ensures Flatten([head] + values) == head + Flatten(values)
    decreases |values|
  {
    var all := [head] + values;
    if values == [] {
      assert all[..|all| - 1] == [];
    } else {
      assert all[..|all| - 1] == [head] + values[..|values| - 1];
      FlattenFromFront(head, values[..|values| - 1]);
    }
  }

  /** Strings written one after another are what the writers' concatenation of the encoded strings holds. */
  lemma {:induction false} ConcatenatedStringsAreWritten(values: seq<Bytes>)
    ensures Flatten(SshStrings(values)) == WrittenStrings(values)
  {
    if values != [] {
      ConcatenatedStringsAreWritten(values[1..]);
      assert SshStrings(values) == [SshString(values[0])] + SshStrings(values[1..]);
      FlattenFromFront(SshString(values[0]), SshStrings(values[1..]));
    }
  }

  /** Strings written one after another are read back in order. */
  lemma {:induction false} StringsReadBackInOrder(values: seq<Bytes>, rest: Bytes)
    requires forall v :: v in values ==> |v| < TWO_TO_THE_32
    ensures TakeStrings(WrittenStrings(values) + rest, |values|) == Some((values, rest))
  {
    if values == [] {
      assert WrittenStrings(values) + rest == rest;
    } else {
      var tail := WrittenStrings(values[1..]) + rest;
      FirstWritten(values, rest);
      TakeWrittenStringIff(values[0], tail);
      StringsReadBackInOrder(values[1..], rest);
      assert [values[0]] + values[1..] == values;
    }
  }

  /** The writers' concatenation of encoded strings is read back in order, with the rest left over. */
  lemma ConcatenatedStringsReadBack(values: seq<Bytes>, rest: Bytes)
    requires forall v :: v in values ==> |v| < TWO_TO_THE_32
    ensures TakeStrings(Flatten(SshStrings(values)) + rest, |values|) == Some((values, rest))
  {
    ConcatenatedStringsAreWritten(values);
    StringsReadBackInOrder(values, rest);
  }

  // ---- the writers ----

  method EncodeUint32(value: nat) returns (encoded: array<byte>)
    ensures fresh(encoded) && encoded[..] == Uint32(value % TWO_TO_THE_32)
  {
    encoded := new byte[4];
    var n := value % TWO_TO_THE_32;
    encoded[0] := n / 0x100_0000;
    encoded[1] := n / 0x1_0000 % 0x100;
    encoded[2] := n / 0x100 % 0x100;
    encoded[3] := n % 0x100;
  }

  /** `Uint8Array.prototype.set`. */
  method Set(target: array<byte>, source: Bytes, offset: nat)
    requires offset + |source| <= target.Length
    modifies target
    ensures target[..] == old(target[..offset]) + source + old(target[offset + |source|..])
  {
    for k := 0 to |source|
      invariant target[..] == old(target[..offset]) + source[..k] + old(target[offset + k..])
    {
      target[offset + k] := source[k];
      assert source[..k + 1] == source[..k] + [source[k]];
    }
    assert source[..|source|] == source;
  }

  method EncodeSshString(value: Bytes) returns (encoded: array<byte>)
    ensures fresh(encoded) && encoded[..] == SshString(value)
  {
    encoded := new byte[4 + |value|];
    var length := EncodeUint32(|value|);
    Set(encoded, length[..], 0);
    Set(encoded, value, 4);
    assert encoded[..4] == length[..];
  }

  method Concatenate(values: seq<Bytes>) returns (result: array<byte>)
    ensures fresh(result) && result[..] == Flatten(values)
  {
    var length := 0;
    for k := 0 to |values|
      invariant length == |Flatten(values[..k])|
    {
      assert values[..k + 1][..k] == values[..k];
      length := length + |values[k]|;
    }
    result := new byte[length];
    assert values[..|values|] == values;
    var offset := 0;
    for k := 0 to |values|
      invariant offset == |Flatten(values[..k])| && offset <= length == |Flatten(values)|
      invariant result[..offset] == Flatten(values[..k])
    {
      assert values[..k + 1][..k] == values[..k];
      PrefixFits(values, k + 1);
      Set(result, values[k], offset);
      offset := offset + |values[k]|;
      assert result[..offset] == Flatten(values[..k]) + values[k];
    }
    assert result[..] == result[..offset];
  }

  lemma {:induction false} PrefixFits(values: seq<Bytes>, k: nat)
    requires k <= |values|
    ensures |Flatten(values[..k])| <= |Flatten(values)|
    decreases |values| - k
  {
    if k == |values| {
      assert values[..k] == values;
    } else {
      assert values[..k + 1][..k] == values[..k];
      PrefixFits(values, k + 1);
    }
  }

  // ---- the reader ----

  class BinaryReader {
    const bytes: Bytes
    var offset: nat

    ghost predicate Valid()
      reads this
    {
      offset <= |bytes|
    }

    /** What has not been read yet. */
    ghost function Rest(): Bytes
      requires Valid()
      reads this
    {
      bytes[offset..]
    }

    constructor (bytes: Bytes)
      ensures Valid() && Rest() == bytes
    {
      this.bytes := bytes;
      offset := 0;
    }

    /** No read leaves the buffer; a failed read throws. */
    method ReadBytes(length: int) returns (value: Option<Bytes>)
      requires Valid()
      modifies this
      ensures Valid()
      ensures value.Some? <==> 0 <= length <= |old(Rest())|
      ensures value.Some? ==> Some((value.value, Rest())) == TakeBytes(old(Rest()), length)
      ensures value.None? ==> Rest() == old(Rest())
    {
      if length < 0 || offset + length > |bytes| {
        return None;
      }
      assert bytes[offset..offset + length] == bytes[offset..][..length];
      assert bytes[offset + length..] == bytes[offset..][length..];
      value := Some(bytes[offset..offset + length]);
      offset := offset + length;
    }

    method ReadUint32() returns (value: Option<nat>)
      requires Valid()
      modifies this
      ensures Valid()
      ensures value.Some? <==> TakeUint32(old(Rest())).Some?
      ensures value.Some? ==> Some((value.value, Rest())) == TakeUint32(old(Rest()))
    {
      var b :- ReadBytes(4);
      return Some((((b[0] as int * 0x100 + b[1]) * 0x100 + b[2]) * 0x100 + b[3]) % TWO_TO_THE_32);
    }

    method ReadString() returns (value: Option<Bytes>)
      requires Valid()
      modifies this
      ensures Valid()
      ensures value.Some? <==> TakeString(old(Rest())).Some?
      ensures value.Some? ==> Some((value.value, Rest())) == TakeString(old(Rest()))
    {
      var length :- ReadUint32();
      value := ReadBytes(length);
    }

    method Remaining() returns (count: nat)
      requires Valid()
      ensures count == |Rest()|
    {
      count := |bytes| - offset;
    }
  }
}
