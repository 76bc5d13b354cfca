/** The unencrypted OpenSSH Ed25519 private-key container, from its decoded bytes. */
module OpenSshKeys {
  import opened Support
  import opened SshWire

  const ED25519_PUBLIC_KEY_BYTES := 32
  const ED25519_PRIVATE_KEY_BYTES := 64
  const UNENCRYPTED_BLOCK_SIZE := 8

  // "openssh-key-v1\0", "none" and "ssh-ed25519" in ASCII
  const OPENSSH_MAGIC: Bytes := [111, 112, 101, 110, 115, 115, 104, 45, 107, 101, 121, 45, 118, 49, 0]
  const NONE: Bytes := [110, 111, 110, 101]
  const ED25519_KEY_TYPE: Bytes := [115, 115, 104, 45, 101, 100, 50, 53, 53, 49, 57]

  /** Every rejection is one thrown OpenSshKeyValidationError; `None` stands for it. */
  datatype ParsedKey = ParsedKey(publicKeyBlob: Bytes, publicKey: Bytes, seed: Bytes)

  // ---- the format ----

  function PublicKeyBlob(publicKey: Bytes): Bytes {
    SshString(ED25519_KEY_TYPE) + SshString(publicKey)
  }

  /** 1, 2, 3, ... */
  function Padding(n: nat): (r: Bytes)
    requires n <= UNENCRYPTED_BLOCK_SIZE
    ensures |r| == n
    ensures forall k :: 0 <= k < n ==> r[k] == k + 1
  {
    if n == 0 then [] else Padding(n - 1) + [n]
  }

  function PrivateFields(publicKey: Bytes, seed: Bytes, check: nat, comment: Bytes): Bytes
    requires check < TWO_TO_THE_32
  {
    Uint32(check) + (Uint32(check) + (SshString(ED25519_KEY_TYPE) + (SshString(publicKey)
      + (SshString(seed + publicKey) + SshString(comment)))))
  }

  /** A full block of padding when the fields are already aligned. */
  function PrivateKeyBlob(publicKey: Bytes, seed: Bytes, check: nat, comment: Bytes): Bytes
    requires check < TWO_TO_THE_32
  {
    var fields := PrivateFields(publicKey, seed, check, comment);
    fields + Padding(UNENCRYPTED_BLOCK_SIZE - |fields| % UNENCRYPTED_BLOCK_SIZE)
  }

  function Container(publicKeyBlob: Bytes, privateKeyBlob: Bytes): Bytes {
    OPENSSH_MAGIC + (SshString(NONE) + (SshString(NONE) + (SshString([]) + (Uint32(1)
      + (SshString(publicKeyBlob) + SshString(privateKeyBlob))))))
  }

  ghost predicate Encodable(publicKey: Bytes, seed: Bytes, check: nat, comment: Bytes) {
    && |publicKey| == ED25519_PUBLIC_KEY_BYTES && |seed| == ED25519_PUBLIC_KEY_BYTES
    && check < TWO_TO_THE_32 && |comment| < TWO_TO_THE_32
    && |PrivateKeyBlob(publicKey, seed, check, comment)| < TWO_TO_THE_32
  }

  function Encoding(publicKey: Bytes, seed: Bytes, check: nat, comment: Bytes): Bytes
    requires check < TWO_TO_THE_32
  {
    Container(PublicKeyBlob(publicKey), PrivateKeyBlob(publicKey, seed, check, comment))
  }

  // ---- the parser ----

  method EqualBytes(left: Bytes, right: Bytes) returns (equal: bool)
    ensures equal <==> left == right
  {
    if |left| != |right| {
      return false;
    }
    var difference := 0;
    for k := 0 to |left|
      invariant difference == 0 <==> left[..k] == right[..k]
    {
      OrIsZero(difference, Xor(left[k], right[k]));
      XorIsZero(left[k], right[k]);
      assert left[..k + 1] == left[..k] + [left[k]] && right[..k + 1] == right[..k] + [right[k]];
      difference := Or(difference, Xor(left[k], right[k]));
    }
    assert left[..|left|] == left && right[..|right|] == right;
    return difference == 0;
  }

  /** Bitwise exclusive or of non-negative integers. */
  function Xor(a: nat, b: nat): nat {
    if a == 0 && b == 0 then 0 else 2 * Xor(a / 2, b / 2) + (if a % 2 != b % 2 then 1 else 0)
  }

  /** Bitwise or of non-negative integers. */
  function Or(a: nat, b: nat): nat {
    if a == 0 && b == 0 then 0 else 2 * Or(a / 2, b / 2) + (if a % 2 == 1 || b % 2 == 1 then 1 else 0)
  }

  lemma {:induction false} OrIsZero(a: nat, b: nat)
    ensures Or(a, b) == 0 <==> a == 0 && b == 0
  {
    if a != 0 || b != 0 {
      OrIsZero(a / 2, b / 2);
    }
  }

  lemma {:induction false} XorIsZero(a: nat, b: nat)
    ensures Xor(a, b) == 0 <==> a == b
  {
    if a != 0 || b != 0 {
      XorIsZero(a / 2, b / 2);
    }
  }

  function TakePublicKeyBlob(b: Bytes): Option<Bytes> {
    var rest :- TakeExpected(b, ED25519_KEY_TYPE);
    var (publicKey, left) :- TakeString(rest);
    if |publicKey| == ED25519_PUBLIC_KEY_BYTES && left == [] then Some(publicKey) else None
  }

  function TakeCheckValues(b: Bytes): Option<(nat, Bytes)> {
    var (first, rest) :- TakeUint32(b);
    var (second, left) :- TakeUint32(rest);
    if first == second then Some((first, left)) else None
  }

  function TakeExpected(b: Bytes, expected: Bytes): Option<Bytes> {
    var (value, rest) :- TakeString(b);
    if value == expected then Some(rest) else None
  }

  /** Public key, seed and comment of the private fields, and what follows them. */
  function TakeKeyMaterial(b: Bytes): Option<(Bytes, Bytes, Bytes, Bytes)> {
    var (publicKey, r1) :- TakeString(b);
    var (privateKey, r2) :- TakeString(r1);
    var (comment, padding) :- TakeString(r2);
    if && |publicKey| == ED25519_PUBLIC_KEY_BYTES && |privateKey| == ED25519_PRIVATE_KEY_BYTES
       && privateKey[ED25519_PUBLIC_KEY_BYTES..] == publicKey
    then Some((publicKey, privateKey[..ED25519_PUBLIC_KEY_BYTES], comment, padding)) else None
  }

  predicate PaddingOk(padding: Bytes, total: nat) {
    0 < |padding| <= UNENCRYPTED_BLOCK_SIZE && total % UNENCRYPTED_BLOCK_SIZE == 0 && padding == Padding(|padding|)
  }

  function TakePrivateKeyBlob(b: Bytes): Option<(Bytes, Bytes)> {
    var (check, r1) :- TakeCheckValues(b);
    var r2 :- TakeExpected(r1, ED25519_KEY_TYPE);
    var (publicKey, seed, comment, padding) :- TakeKeyMaterial(r2);
    if PaddingOk(padding, |b|) then Some((publicKey, seed)) else None
  }

  /** Magic, cipher, KDF, KDF options, and a key count of one. */
  function TakeHeader(b: Bytes): Option<Bytes> {
    var (magic, r0) :- TakeBytes(b, |OPENSSH_MAGIC|);
    var r1 :- TakeExpected(r0, NONE);
    var r2 :- TakeExpected(r1, NONE);
    var r3 :- TakeExpected(r2, []);
    var (keys, rest) :- TakeUint32(r3);
    if magic == OPENSSH_MAGIC && keys == 1 then Some(rest) else None
  }

  /** The two blobs of a container. */
  function TakeContainer(b: Bytes): Option<(Bytes, Bytes)> {
    var r4 :- TakeHeader(b);
    var (publicKeyBlob, r5) :- TakeString(r4);
    var (privateKeyBlob, left) :- TakeString(r5);
    if left == [] then Some((publicKeyBlob, privateKeyBlob)) else None
  }

  function Parse(b: Bytes): Option<ParsedKey> {
    var (publicKeyBlob, privateKeyBlob) :- TakeContainer(b);
    var outer :- TakePublicKeyBlob(publicKeyBlob);
    var (publicKey, seed) :- TakePrivateKeyBlob(privateKeyBlob);
    if publicKey == outer then Some(ParsedKey(publicKeyBlob, outer, seed)) else None
  }

  method ParsePublicKeyBlob(publicKeyBlob: Bytes) returns (r: Option<Bytes>)
    ensures r == TakePublicKeyBlob(publicKeyBlob)
  {
    var reader := new BinaryReader(publicKeyBlob);
    var supported := ReadExpected(reader, ED25519_KEY_TYPE);
    if !supported {
      return None;
    }
    var publicKey :- reader.ReadString();
    var remaining := reader.Remaining();
    if |publicKey| != ED25519_PUBLIC_KEY_BYTES || remaining != 0 {
      return None;
    }
    return Some(publicKey);
  }

  /** `decodeText(reader.readString()) !== expected` throws; ASCII text decodes to itself only. */
  method ReadExpected(reader: BinaryReader, expected: Bytes) returns (ok: bool)
    requires reader.Valid()
    modifies reader
    ensures reader.Valid()
    ensures ok <==> TakeExpected(old(reader.Rest()), expected).Some?
    ensures ok ==> Some(reader.Rest()) == TakeExpected(old(reader.Rest()), expected)
  {
    var value := reader.ReadString();
    ok := value == Some(expected);
  }

  method ReadKeyMaterial(reader: BinaryReader) returns (r: Option<(Bytes, Bytes)>)
    requires reader.Valid()
    modifies reader
    ensures reader.Valid()
    ensures var taken := TakeKeyMaterial(old(reader.Rest()));
            && (r.Some? <==> taken.Some?)
            && (r.Some? ==> r.value == (taken.value.0, taken.value.1) && reader.Rest() == taken.value.3)
  {
    var publicKey :- reader.ReadString();
    var privateKey :- reader.ReadString();
    var _ :- reader.ReadString();
    if |publicKey| != ED25519_PUBLIC_KEY_BYTES || |privateKey| != ED25519_PRIVATE_KEY_BYTES {
      return None;
    }
    var consistent := EqualBytes(privateKey[ED25519_PUBLIC_KEY_BYTES..], publicKey);
    if !consistent {
      return None;
    }
    return Some((publicKey, privateKey[..ED25519_PUBLIC_KEY_BYTES]));
  }

  method ReadPadding(reader: BinaryReader, total: nat) returns (ok: bool)
    requires reader.Valid()
    modifies reader
    ensures reader.Valid()
    ensures ok <==> PaddingOk(old(reader.Rest()), total)
  {
    var paddingLength := reader.Remaining();
    if paddingLength == 0 || paddingLength > UNENCRYPTED_BLOCK_SIZE || total % UNENCRYPTED_BLOCK_SIZE != 0 {
      return false;
    }
    var read := reader.ReadBytes(paddingLength);
    var padding := read.value;
    for k := 0 to |padding|
      invariant forall j :: 0 <= j < k ==> padding[j] == j + 1
    {
      if padding[k] != k + 1 {
        assert padding[k] != Padding(|padding|)[k];
        return false;
      }
    }
    assert padding == Padding(|padding|);
    return true;
  }

  method ParsePrivateKeyBlob(privateKeyBlob: Bytes) returns (r: Option<(Bytes, Bytes)>)
    ensures r == TakePrivateKeyBlob(privateKeyBlob)
  {
    var reader := new BinaryReader(privateKeyBlob);
    var firstCheckValue :- reader.ReadUint32();
    var secondCheckValue :- reader.ReadUint32();
    if firstCheckValue != secondCheckValue {
      return None;
    }
    var supported := ReadExpected(reader, ED25519_KEY_TYPE);
    if !supported {
      return None;
    }
    var keys :- ReadKeyMaterial(reader);
    var padded := ReadPadding(reader, |privateKeyBlob|);
    if !padded {
      return None;
    }
    return Some(keys);
  }

  method ReadHeader(reader: BinaryReader) returns (ok: bool)
    requires reader.Valid()
    modifies reader
    ensures reader.Valid()
    ensures ok <==> TakeHeader(old(reader.Rest())).Some?
    ensures ok ==> Some(reader.Rest()) == TakeHeader(old(reader.Rest()))
  {
    var magic := reader.ReadBytes(|OPENSSH_MAGIC|);
    if magic.None? {
      return false;
    }
    var isOpenSsh := EqualBytes(magic.value, OPENSSH_MAGIC);
    if !isOpenSsh {
      return false;
    }
    var noCipher := ReadExpected(reader, NONE);
    if !noCipher {
      return false;
    }
    var noKdf := ReadExpected(reader, NONE);
    if !noKdf {
      return false;
    }
    var noOptions := ReadExpected(reader, []);
    if !noOptions {
      return false;
    }
    var keys := reader.ReadUint32();
    return keys == Some(1);
  }

  method ReadContainer(decoded: Bytes) returns (r: Option<(Bytes, Bytes)>)
    ensures r == TakeContainer(decoded)
  {
    var reader := new BinaryReader(decoded);
    var header := ReadHeader(reader);
    if !header {
      return None;
    }
    var publicKeyBlob :- reader.ReadString();
    var privateKeyBlob :- reader.ReadString();
    var remaining := reader.Remaining();
    if remaining != 0 {
      return None;
    }
    return Some((publicKeyBlob, privateKeyBlob));
  }

  method ParseOpenSshEd25519PrivateKey(decoded: Bytes) returns (r: Option<ParsedKey>)
    ensures r == Parse(decoded)
  {
    var blobs :- ReadContainer(decoded);
    var (publicKeyBlob, privateKeyBlob) := blobs;
    var outerPublicKey :- ParsePublicKeyBlob(publicKeyBlob);
    var inner :- ParsePrivateKeyBlob(privateKeyBlob);
    var consistent := EqualBytes(inner.0, outerPublicKey);
    if !consistent {
      return None;
    }
    return Some(ParsedKey(publicKeyBlob, outerPublicKey, inner.1));
  }

  // ---- completeness: every encoding parses to its own key ----

  lemma TakeExpectedWritten(value: Bytes, rest: Bytes)
    requires |value| < TWO_TO_THE_32
    ensures TakeExpected(SshString(value) + rest, value) == Some(rest)
  {
    TakeWrittenStringIff(value, rest);
  }

  lemma PublicBlobTaken(publicKey: Bytes)
    requires |publicKey| == ED25519_PUBLIC_KEY_BYTES
    ensures TakePublicKeyBlob(PublicKeyBlob(publicKey)) == Some(publicKey)
  {
    TakeExpectedWritten(ED25519_KEY_TYPE, SshString(publicKey));
    TakeWrittenStringIff(publicKey, []);
    assert SshString(publicKey) + [] == SshString(publicKey);
  }

  lemma KeyMaterialTaken(publicKey: Bytes, seed: Bytes, comment: Bytes, padding: Bytes)
    requires |publicKey| == ED25519_PUBLIC_KEY_BYTES && |seed| == ED25519_PUBLIC_KEY_BYTES && |comment| < TWO_TO_THE_32
    ensures TakeKeyMaterial(SshString(publicKey) + (SshString(seed + publicKey) + (SshString(comment) + padding)))
              == Some((publicKey, seed, comment, padding))
  {
    TakeWrittenStringIff(publicKey, SshString(seed + publicKey) + (SshString(comment) + padding));
    TakeWrittenStringIff(seed + publicKey, SshString(comment) + padding);
    TakeWrittenStringIff(comment, padding);
    assert (seed + publicKey)[ED25519_PUBLIC_KEY_BYTES..] == publicKey;
    assert (seed + publicKey)[..ED25519_PUBLIC_KEY_BYTES] == seed;
  }

  lemma PaddingFollowsFields(publicKey: Bytes, seed: Bytes, check: nat, comment: Bytes, padding: Bytes)
    requires check < TWO_TO_THE_32
    ensures PrivateFields(publicKey, seed, check, comment) + padding
              == Uint32(check) + (Uint32(check) + (SshString(ED25519_KEY_TYPE) + (SshString(publicKey)
                 + (SshString(seed + publicKey) + (SshString(comment) + padding)))))
  {}

  lemma PrivateBlobTaken(publicKey: Bytes, seed: Bytes, check: nat, comment: Bytes, padding: Bytes)
    requires |publicKey| == ED25519_PUBLIC_KEY_BYTES && |seed| == ED25519_PUBLIC_KEY_BYTES
    requires check < TWO_TO_THE_32 && |comment| < TWO_TO_THE_32
    ensures var blob := PrivateFields(publicKey, seed, check, comment) + padding;
            TakePrivateKeyBlob(blob) == if PaddingOk(padding, |blob|) then Some((publicKey, seed)) else None
  {
    var material := SshString(publicKey) + (SshString(seed + publicKey) + (SshString(comment) + padding));
    var typed := SshString(ED25519_KEY_TYPE) + material;
    PaddingFollowsFields(publicKey, seed, check, comment, padding);
    TakeWrittenUint32(check, Uint32(check) + typed);
    TakeWrittenUint32(check, typed);
    TakeExpectedWritten(ED25519_KEY_TYPE, material);
    KeyMaterialTaken(publicKey, seed, comment, padding);
  }

  /** The private fields followed by any padding: accepted exactly when it is the block's own padding. */
  lemma PrivateBlobTakenIff(publicKey: Bytes, seed: Bytes, check: nat, comment: Bytes, padding: Bytes)
    requires |publicKey| == ED25519_PUBLIC_KEY_BYTES && |seed| == ED25519_PUBLIC_KEY_BYTES
    requires check < TWO_TO_THE_32 && |comment| < TWO_TO_THE_32
    ensures var fields := PrivateFields(publicKey, seed, check, comment);
            TakePrivateKeyBlob(fields + padding) ==
            if padding == Padding(UNENCRYPTED_BLOCK_SIZE - |fields| % UNENCRYPTED_BLOCK_SIZE) then Some((publicKey, seed)) else None
  {
    var fields := PrivateFields(publicKey, seed, check, comment);
    PrivateBlobTaken(publicKey, seed, check, comment, padding);
    OnlyPadding(|fields|, padding, |fields + padding|);
  }

  /** Exactly one padding completes a block: 1 to 8 counting bytes. */
  lemma OnlyPadding(fields: nat, padding: Bytes, total: nat)
    requires total == fields + |padding|
    ensures PaddingOk(padding, total) <==> padding == Padding(UNENCRYPTED_BLOCK_SIZE - fields % UNENCRYPTED_BLOCK_SIZE)
  {
    BlockEnds(fields, |padding|);
  }

  lemma BlockEnds(fields: nat, n: nat)
    ensures 0 < n <= UNENCRYPTED_BLOCK_SIZE && (fields + n) % UNENCRYPTED_BLOCK_SIZE == 0
       <==> n == UNENCRYPTED_BLOCK_SIZE - fields % UNENCRYPTED_BLOCK_SIZE
  {}

  lemma HeaderTaken(rest: Bytes)
    ensures TakeHeader(OPENSSH_MAGIC + (SshString(NONE) + (SshString(NONE) + (SshString([]) + (Uint32(1) + rest))))) == Some(rest)
  {
    var r3 := Uint32(1) + rest;
    var r2 := SshString([]) + r3;
    var r1 := SshString(NONE) + r2;
    var r0 := SshString(NONE) + r1;
    assert (OPENSSH_MAGIC + r0)[..|OPENSSH_MAGIC|] == OPENSSH_MAGIC;
    assert (OPENSSH_MAGIC + r0)[|OPENSSH_MAGIC|..] == r0;
    TakeExpectedWritten(NONE, r1);
    TakeExpectedWritten(NONE, r2);
    TakeExpectedWritten([], r3);
    TakeWrittenUint32(1, rest);
  }

  lemma ContainerTaken(publicKeyBlob: Bytes, privateKeyBlob: Bytes)
    requires |publicKeyBlob| < TWO_TO_THE_32 && |privateKeyBlob| < TWO_TO_THE_32
    ensures TakeContainer(Container(publicKeyBlob, privateKeyBlob)) == Some((publicKeyBlob, privateKeyBlob))
  {
    HeaderTaken(SshString(publicKeyBlob) + SshString(privateKeyBlob));
    TakeWrittenStringIff(publicKeyBlob, SshString(privateKeyBlob));
    TakeWrittenStringIff(privateKeyBlob, []);
    assert SshString(privateKeyBlob) + [] == SshString(privateKeyBlob);
  }

  /** Every encoding of a key pair, check value and comment is accepted and yields that key. */
  lemma ParserIsComplete(publicKey: Bytes, seed: Bytes, check: nat, comment: Bytes)
    requires Encodable(publicKey, seed, check, comment)
    ensures Parse(Encoding(publicKey, seed, check, comment)) == Some(ParsedKey(PublicKeyBlob(publicKey), publicKey, seed))
  {
    ContainerTaken(PublicKeyBlob(publicKey), PrivateKeyBlob(publicKey, seed, check, comment));
    PublicBlobTaken(publicKey);
    var fields := PrivateFields(publicKey, seed, check, comment);
    var padding := Padding(UNENCRYPTED_BLOCK_SIZE - |fields| % UNENCRYPTED_BLOCK_SIZE);
    PrivateBlobTakenIff(publicKey, seed, check, comment, padding);
  }

  // ---- the bytes of the format ----

  /** Magic, "none" twice, no options, and one key, each with its length. */
  const HEADER_BYTES: Bytes :=
    [111, 112, 101, 110, 115, 115, 104, 45, 107, 101, 121, 45, 118, 49, 0, 0, 0, 0, 4, 110, 111, 110, 101,
     0, 0, 0, 4, 110, 111, 110, 101, 0, 0, 0, 0, 0, 0, 0, 1]

  /** "ssh-ed25519" with its length. */
  const KEY_TYPE_BYTES: Bytes := [0, 0, 0, 11, 115, 115, 104, 45, 101, 100, 50, 53, 53, 49, 57]

  lemma HeaderBytes(rest: Bytes)
    ensures OPENSSH_MAGIC + (SshString(NONE) + (SshString(NONE) + (SshString([]) + (Uint32(1) + rest)))) == HEADER_BYTES + rest
  {
    FieldsBytes();
    var fields := [0, 0, 0, 4, 110, 111, 110, 101, 0, 0, 0, 4, 110, 111, 110, 101, 0, 0, 0, 0, 0, 0, 0, 1];
    assert SshString(NONE) + (SshString(NONE) + (SshString([]) + (Uint32(1) + rest))) == fields + rest;
    assert OPENSSH_MAGIC + (fields + rest) == (OPENSSH_MAGIC + fields) + rest;
    assert OPENSSH_MAGIC + fields == HEADER_BYTES;
  }

  lemma FieldsBytes()
    ensures SshString(NONE) == [0, 0, 0, 4, 110, 111, 110, 101] && SshString([]) == [0, 0, 0, 0] && Uint32(1) == [0, 0, 0, 1]
  {
    assert Uint32(4) == [0, 0, 0, 4] && Uint32(0) == [0, 0, 0, 0];
  }

  lemma KeyTypeBytes()
    ensures SshString(ED25519_KEY_TYPE) == KEY_TYPE_BYTES
  {
    assert Uint32(11) == [0, 0, 0, 11];
  }

  lemma TypedKeyBytes(publicKey: Bytes, rest: Bytes)
    requires |publicKey| == ED25519_PUBLIC_KEY_BYTES
    ensures SshString(ED25519_KEY_TYPE) + (SshString(publicKey) + rest) == KEY_TYPE_BYTES + ([0, 0, 0, 32] + (publicKey + rest))
    ensures PublicKeyBlob(publicKey) == KEY_TYPE_BYTES + ([0, 0, 0, 32] + publicKey)
  {
    KeyTypeBytes();
    assert Uint32(32) == [0, 0, 0, 32];
    StringThenRest(publicKey, rest);
  }

  lemma PrivateFieldsBytes(publicKey: Bytes, seed: Bytes, check: nat, comment: Bytes, padding: Bytes)
    requires |publicKey| == ED25519_PUBLIC_KEY_BYTES && |seed| == ED25519_PUBLIC_KEY_BYTES && check < TWO_TO_THE_32 && |comment| < TWO_TO_THE_32
    ensures PrivateFields(publicKey, seed, check, comment) + padding
              == Uint32(check) + (Uint32(check) + (KEY_TYPE_BYTES + ([0, 0, 0, 32] + (publicKey + ([0, 0, 0, 64]
                 + (seed + (publicKey + (Uint32(|comment|) + (comment + padding)))))))))
  {
    var rest := SshString(comment) + padding;
    PaddingFollowsFields(publicKey, seed, check, comment, padding);
    TypedKeyBytes(publicKey, SshString(seed + publicKey) + rest);
    StringThenRest(comment, padding);
    StringThenRest(seed + publicKey, rest);
    assert Uint32(64) == [0, 0, 0, 64];
    assert (seed + publicKey) + rest == seed + (publicKey + rest);
  }

  lemma FieldsLength(publicKey: Bytes, seed: Bytes, check: nat, comment: Bytes)
    requires |publicKey| == ED25519_PUBLIC_KEY_BYTES && |seed| == ED25519_PUBLIC_KEY_BYTES && check < TWO_TO_THE_32 && |comment| < TWO_TO_THE_32
    ensures |PrivateFields(publicKey, seed, check, comment)| == 131 + |comment|
  {}

  lemma BlobsBytes(publicKey: Bytes, private: Bytes)
    requires |publicKey| == ED25519_PUBLIC_KEY_BYTES && |private| < TWO_TO_THE_32
    ensures SshString(PublicKeyBlob(publicKey)) + SshString(private)
              == [0, 0, 0, 51] + (KEY_TYPE_BYTES + ([0, 0, 0, 32] + (publicKey + (Uint32(|private|) + private))))
  {
    TypedKeyBytes(publicKey, []);
    assert Uint32(51) == [0, 0, 0, 51];
    StringThenRest(PublicKeyBlob(publicKey), SshString(private));
  }

  /** An encoding byte by byte: the header, the public half, and the private half with its padding. */
  lemma EncodingBytes(publicKey: Bytes, seed: Bytes, check: nat, comment: Bytes, padding: Bytes)
    requires Encodable(publicKey, seed, check, comment)
    requires |padding| == 8 - (|comment| + 3) % 8 && forall k :: 0 <= k < |padding| ==> padding[k] == k + 1
    ensures var private :=
              Uint32(check) + (Uint32(check) + (KEY_TYPE_BYTES + ([0, 0, 0, 32] + (publicKey + ([0, 0, 0, 64]
              + (seed + (publicKey + (Uint32(|comment|) + (comment + padding)))))))));
            && |private| == 131 + |comment| + |padding| < TWO_TO_THE_32
            && Encoding(publicKey, seed, check, comment)
               == HEADER_BYTES + ([0, 0, 0, 51] + (KEY_TYPE_BYTES + ([0, 0, 0, 32] + (publicKey + (Uint32(|private|) + private)))))
  {
    var private := PrivateKeyBlob(publicKey, seed, check, comment);
    FieldsLength(publicKey, seed, check, comment);
    assert padding == Padding(UNENCRYPTED_BLOCK_SIZE - |PrivateFields(publicKey, seed, check, comment)| % UNENCRYPTED_BLOCK_SIZE);
    PrivateFieldsBytes(publicKey, seed, check, comment, padding);
    BlobsBytes(publicKey, private);
    HeaderBytes(SshString(PublicKeyBlob(publicKey)) + SshString(private));
  }

  // ---- soundness: nothing else is accepted ----

  lemma TakenExpectedWasWritten(b: Bytes, expected: Bytes)
    requires TakeExpected(b, expected).Some?
    ensures |expected| < TWO_TO_THE_32 && b == SshString(expected) + TakeExpected(b, expected).value
  {
    TakenStringWasWritten(b);
  }

  lemma TakenPublicBlobWasWritten(b: Bytes)
    requires TakePublicKeyBlob(b).Some?
    ensures b == PublicKeyBlob(TakePublicKeyBlob(b).value) && |TakePublicKeyBlob(b).value| == ED25519_PUBLIC_KEY_BYTES
  {
    TakenExpectedWasWritten(b, ED25519_KEY_TYPE);
    var rest := TakeExpected(b, ED25519_KEY_TYPE).value;
    TakenStringWasWritten(rest);
    var publicKey := TakeString(rest).value.0;
    assert rest == SshString(publicKey) + [] == SshString(publicKey);
  }

  lemma TakenKeyMaterialWasWritten(b: Bytes)
    requires TakeKeyMaterial(b).Some?
    ensures var (publicKey, seed, comment, padding) := TakeKeyMaterial(b).value;
            && |publicKey| == ED25519_PUBLIC_KEY_BYTES && |seed| == ED25519_PUBLIC_KEY_BYTES && |comment| < TWO_TO_THE_32
            && b == SshString(publicKey) + (SshString(seed + publicKey) + (SshString(comment) + padding))
  {
    TakenStringWasWritten(b);
    var (publicKey, r1) := TakeString(b).value;
    TakenStringWasWritten(r1);
    var (privateKey, r2) := TakeString(r1).value;
    TakenStringWasWritten(r2);
    assert privateKey == privateKey[..ED25519_PUBLIC_KEY_BYTES] + publicKey;
  }

  lemma TakenCheckValuesWereWritten(b: Bytes)
    requires TakeCheckValues(b).Some?
    ensures var (check, rest) := TakeCheckValues(b).value; check < TWO_TO_THE_32 && b == Uint32(check) + (Uint32(check) + rest)
  {
    TakenUint32WasWritten(b);
    TakenUint32WasWritten(TakeUint32(b).value.1);
  }

  lemma TakenFieldsWereWritten(b: Bytes) returns (check: nat, comment: Bytes, padding: Bytes)
    requires TakePrivateKeyBlob(b).Some?
    ensures check < TWO_TO_THE_32 && |comment| < TWO_TO_THE_32 && PaddingOk(padding, |b|)
    ensures var (publicKey, seed) := TakePrivateKeyBlob(b).value;
            && |publicKey| == ED25519_PUBLIC_KEY_BYTES && |seed| == ED25519_PUBLIC_KEY_BYTES
            && b == PrivateFields(publicKey, seed, check, comment) + padding
  {
    TakenCheckValuesWereWritten(b);
    var (k, r1) := TakeCheckValues(b).value;
    TakenExpectedWasWritten(r1, ED25519_KEY_TYPE);
    var r2 := TakeExpected(r1, ED25519_KEY_TYPE).value;
    TakenKeyMaterialWasWritten(r2);
    var (publicKey, seed, c, p) := TakeKeyMaterial(r2).value;
    check, comment, padding := k, c, p;
    PaddingFollowsFields(publicKey, seed, check, comment, padding);
  }

  lemma TakenPrivateBlobWasWritten(b: Bytes) returns (check: nat, comment: Bytes)
    requires TakePrivateKeyBlob(b).Some?
    ensures check < TWO_TO_THE_32 && |comment| < TWO_TO_THE_32
    ensures var (publicKey, seed) := TakePrivateKeyBlob(b).value;
            && |publicKey| == ED25519_PUBLIC_KEY_BYTES && |seed| == ED25519_PUBLIC_KEY_BYTES
            && b == PrivateKeyBlob(publicKey, seed, check, comment)
  {
    var padding: Bytes;
    check, comment, padding := TakenFieldsWereWritten(b);
    var (publicKey, seed) := TakePrivateKeyBlob(b).value;
    OnlyPadding(|PrivateFields(publicKey, seed, check, comment)|, padding, |b|);
  }

  lemma TakenHeaderWasWritten(b: Bytes)
    requires TakeHeader(b).Some?
    ensures b == OPENSSH_MAGIC + (SshString(NONE) + (SshString(NONE) + (SshString([]) + (Uint32(1) + TakeHeader(b).value))))
  {
    var r0 := b[|OPENSSH_MAGIC|..];
    assert b == OPENSSH_MAGIC + r0;
    TakenExpectedWasWritten(r0, NONE);
    var r1 := TakeExpected(r0, NONE).value;
    TakenExpectedWasWritten(r1, NONE);
    var r2 := TakeExpected(r1, NONE).value;
    TakenExpectedWasWritten(r2, []);
    TakenUint32WasWritten(TakeExpected(r2, []).value);
  }

  lemma TakenContainerWasWritten(b: Bytes)
    requires TakeContainer(b).Some?
    ensures var (publicKeyBlob, privateKeyBlob) := TakeContainer(b).value;
            b == Container(publicKeyBlob, privateKeyBlob) && |privateKeyBlob| < TWO_TO_THE_32
  {
    TakenHeaderWasWritten(b);
    var r4 := TakeHeader(b).value;
    TakenStringWasWritten(r4);
    var r5 := TakeString(r4).value.1;
    TakenStringWasWritten(r5);
    var privateKeyBlob := TakeString(r5).value.0;
    assert r5 == SshString(privateKeyBlob) + [] == SshString(privateKeyBlob);
  }

  /** Anything accepted is the encoding of the returned key under some check value and comment. */
  lemma ParserIsSound(b: Bytes) returns (check: nat, comment: Bytes)
    requires Parse(b).Some?
    ensures var key := Parse(b).value;
            && Encodable(key.publicKey, key.seed, check, comment)
            && b == Encoding(key.publicKey, key.seed, check, comment)
            && key.publicKeyBlob == PublicKeyBlob(key.publicKey)
  {
    TakenContainerWasWritten(b);
    var (publicKeyBlob, privateKeyBlob) := TakeContainer(b).value;
    TakenPublicBlobWasWritten(publicKeyBlob);
    check, comment := TakenPrivateBlobWasWritten(privateKeyBlob);
  }

  /** One byte string is the encoding of one key pair. */
  lemma EncodingDeterminesTheKey(p1: Bytes, s1: Bytes, c1: nat, m1: Bytes, p2: Bytes, s2: Bytes, c2: nat, m2: Bytes)
    requires Encodable(p1, s1, c1, m1) && Encodable(p2, s2, c2, m2)
    requires Encoding(p1, s1, c1, m1) == Encoding(p2, s2, c2, m2)
    ensures p1 == p2 && s1 == s2
  {
    ParserIsComplete(p1, s1, c1, m1);
    ParserIsComplete(p2, s2, c2, m2);
  }
}
