/** Git's SSHSIG container and its armour. */
module SshSignatures {
  import opened Support
  import opened SshWire
  import OpenSshKeys

  // "SSHSIG", "git", "sha512" in ASCII
  const SSHSIG_MAGIC: Bytes := [83, 83, 72, 83, 73, 71]
  const GIT_NAMESPACE: Bytes := [103, 105, 116]
  const SHA512_ALGORITHM: Bytes := [115, 104, 97, 53, 49, 50]
  const SSHSIG_VERSION := 1
  const ARMOR_LINE_LENGTH := 70

  function SignatureBlob(rawSignature: Bytes): Bytes {
    SshString(OpenSshKeys.ED25519_KEY_TYPE) + SshString(rawSignature)
  }

  function SshSig(publicKeyBlob: Bytes, rawSignature: Bytes): Bytes {
    SSHSIG_MAGIC + (Uint32(SSHSIG_VERSION) + (SshString(publicKeyBlob) + (SshString(GIT_NAMESPACE) + (SshString([])
      + (SshString(SHA512_ALGORITHM) + SshString(SignatureBlob(rawSignature)))))))
  }

  function SignedData(digest: Bytes): Bytes {
    SSHSIG_MAGIC + (SshString(GIT_NAMESPACE) + (SshString([]) + (SshString(SHA512_ALGORITHM) + SshString(digest))))
  }

  /** A verifier's reading of the container: version, then five strings, then the two halves of the signature. */
  function TakeSshSig(b: Bytes): Option<(Bytes, Bytes)> {
    var (magic, r0) :- TakeBytes(b, |SSHSIG_MAGIC|);
    var (version, r1) :- TakeUint32(r0);
    var (publicKeyBlob, r2) :- TakeString(r1);
    var r3 :- OpenSshKeys.TakeExpected(r2, GIT_NAMESPACE);
    var r4 :- OpenSshKeys.TakeExpected(r3, []);
    var r5 :- OpenSshKeys.TakeExpected(r4, SHA512_ALGORITHM);
    var (signatureBlob, left) :- TakeString(r5);
    var rawSignature :- TakeSignatureBlob(signatureBlob);
    if magic == SSHSIG_MAGIC && version == SSHSIG_VERSION && left == [] then Some((publicKeyBlob, rawSignature)) else None
  }

  function TakeSignatureBlob(b: Bytes): Option<Bytes> {
    var rest :- OpenSshKeys.TakeExpected(b, OpenSshKeys.ED25519_KEY_TYPE);
    var (rawSignature, left) :- TakeString(rest);
    if left == [] then Some(rawSignature) else None
  }

  lemma SignatureBlobTaken(rawSignature: Bytes)
    requires |rawSignature| < TWO_TO_THE_32
    ensures TakeSignatureBlob(SignatureBlob(rawSignature)) == Some(rawSignature)
  {
    OpenSshKeys.TakeExpectedWritten(OpenSshKeys.ED25519_KEY_TYPE, SshString(rawSignature));
    TakeWrittenStringIff(rawSignature, []);
    assert SshString(rawSignature) + [] == SshString(rawSignature);
  }

  lemma TailTaken(rest: Bytes)
    ensures OpenSshKeys.TakeExpected(SshString(GIT_NAMESPACE) + (SshString([]) + (SshString(SHA512_ALGORITHM) + rest)), GIT_NAMESPACE)
              == Some(SshString([]) + (SshString(SHA512_ALGORITHM) + rest))
    ensures OpenSshKeys.TakeExpected(SshString([]) + (SshString(SHA512_ALGORITHM) + rest), []) == Some(SshString(SHA512_ALGORITHM) + rest)
    ensures OpenSshKeys.TakeExpected(SshString(SHA512_ALGORITHM) + rest, SHA512_ALGORITHM) == Some(rest)
  {
    OpenSshKeys.TakeExpectedWritten(GIT_NAMESPACE, SshString([]) + (SshString(SHA512_ALGORITHM) + rest));
    OpenSshKeys.TakeExpectedWritten([], SshString(SHA512_ALGORITHM) + rest);
    OpenSshKeys.TakeExpectedWritten(SHA512_ALGORITHM, rest);
  }

  /** The container carries exactly its key blob and its raw signature. */
  lemma SshSigReadsBack(publicKeyBlob: Bytes, rawSignature: Bytes)
    requires |publicKeyBlob| < TWO_TO_THE_32 && |SignatureBlob(rawSignature)| < TWO_TO_THE_32
    ensures TakeSshSig(SshSig(publicKeyBlob, rawSignature)) == Some((publicKeyBlob, rawSignature))
  {
    var r5 := SshString(SignatureBlob(rawSignature));
    var r2 := SshString(GIT_NAMESPACE) + (SshString([]) + (SshString(SHA512_ALGORITHM) + r5));
    var r1 := SshString(publicKeyBlob) + r2;
    var r0 := Uint32(SSHSIG_VERSION) + r1;
    assert (SSHSIG_MAGIC + r0)[..|SSHSIG_MAGIC|] == SSHSIG_MAGIC;
    assert (SSHSIG_MAGIC + r0)[|SSHSIG_MAGIC|..] == r0;
    TakeWrittenUint32(SSHSIG_VERSION, r1);
    TakeWrittenStringIff(publicKeyBlob, r2);
    TailTaken(r5);
    SignatureBlobTaken(rawSignature);
    TakeWrittenStringIff(SignatureBlob(rawSignature), []);
    assert r5 + [] == r5;
  }

  /** What is signed is never itself a signature container, and it determines the digest. */
  lemma SignedDataIsItsOwnDomain(digest: Bytes, other: Bytes, publicKeyBlob: Bytes, rawSignature: Bytes)
    requires |digest| < TWO_TO_THE_32 && |other| < TWO_TO_THE_32
    ensures SignedData(digest) != SshSig(publicKeyBlob, rawSignature)
    ensures SignedData(digest) == SignedData(other) ==> digest == other
  {
    var n := |SSHSIG_MAGIC|;
    var a, b := SignedData(digest), SshSig(publicKeyBlob, rawSignature);
    assert a[n + 3] == 3 && b[n + 3] == 1;
    if SignedData(digest) == SignedData(other) {
      var x := SshString(GIT_NAMESPACE) + (SshString([]) + (SshString(SHA512_ALGORITHM) + SshString(digest)));
      var y := SshString(GIT_NAMESPACE) + (SshString([]) + (SshString(SHA512_ALGORITHM) + SshString(other)));
      assert x == SignedData(digest)[n..] == SignedData(other)[n..] == y;
      TailTaken(SshString(digest));
      TailTaken(SshString(other));
      TakeWrittenStringIff(digest, []);
      TakeWrittenStringIff(other, []);
      assert SshString(digest) + [] == SshString(digest) && SshString(other) + [] == SshString(other);
    }
  }

  // ---- the bytes of the format ----

  /** "git", nothing, and "sha512", each with its length. */
  const NAMESPACE_BYTES: Bytes := [0, 0, 0, 3, 103, 105, 116, 0, 0, 0, 0, 0, 0, 0, 6, 115, 104, 97, 53, 49, 50]

  lemma NamespaceBytes(rest: Bytes)
    ensures SshString(GIT_NAMESPACE) + (SshString([]) + (SshString(SHA512_ALGORITHM) + rest)) == NAMESPACE_BYTES + rest
  {
    assert Uint32(3) == [0, 0, 0, 3] && Uint32(0) == [0, 0, 0, 0] && Uint32(6) == [0, 0, 0, 6];
    assert SshString(GIT_NAMESPACE) + (SshString([]) + SshString(SHA512_ALGORITHM)) == NAMESPACE_BYTES;
  }

  /** The signed text, byte by byte. */
  lemma SignedDataBytes(digest: Bytes)
    requires |digest| < TWO_TO_THE_32
    ensures SignedData(digest) == [83, 83, 72, 83, 73, 71] + (NAMESPACE_BYTES + (Uint32(|digest|) + digest))
  {
    NamespaceBytes(SshString(digest));
  }

  lemma SignatureBlobBytes(rawSignature: Bytes)
    requires |rawSignature| < TWO_TO_THE_32
    ensures SignatureBlob(rawSignature) == OpenSshKeys.KEY_TYPE_BYTES + (Uint32(|rawSignature|) + rawSignature)
    ensures |SignatureBlob(rawSignature)| == 19 + |rawSignature|
  {
    OpenSshKeys.KeyTypeBytes();
    StringBytes(rawSignature);
  }

  /** The container, byte by byte. */
  lemma SshSigBytes(publicKeyBlob: Bytes, rawSignature: Bytes)
    requires |publicKeyBlob| < TWO_TO_THE_32 && |rawSignature| + 19 < TWO_TO_THE_32
    ensures SshSig(publicKeyBlob, rawSignature)
              == [83, 83, 72, 83, 73, 71] + ([0, 0, 0, 1] + (Uint32(|publicKeyBlob|) + (publicKeyBlob + (NAMESPACE_BYTES
                 + (Uint32(19 + |rawSignature|) + (OpenSshKeys.KEY_TYPE_BYTES + (Uint32(|rawSignature|) + rawSignature)))))))
  {
    var blob := SignatureBlob(rawSignature);
    SignatureBlobBytes(rawSignature);
    StringBytes(blob);
    NamespaceBytes(SshString(blob));
    assert Uint32(1) == [0, 0, 0, 1];
    StringThenRest(publicKeyBlob, NAMESPACE_BYTES + SshString(blob));
  }

  // ---- the writers ----

  method CreateSignatureBlob(rawSignature: Bytes) returns (signatureBlob: array<byte>)
    ensures fresh(signatureBlob)
    ensures signatureBlob[..] == SshString(OpenSshKeys.ED25519_KEY_TYPE) + SshString(rawSignature)
  {
    var keyType := EncodeSshString(OpenSshKeys.ED25519_KEY_TYPE);
    var raw := EncodeSshString(rawSignature);
    signatureBlob := Concatenate([keyType[..], raw[..]]);
    FlattenTwo(keyType[..], raw[..]);
  }

  method CreateSshSig(publicKeyBlob: Bytes, rawSignature: Bytes) returns (sshsig: array<byte>)
    ensures fresh(sshsig) && sshsig[..] == SshSig(publicKeyBlob, rawSignature)
  {
    var signatureBlob := CreateSignatureBlob(rawSignature);
    var version := EncodeUint32(SSHSIG_VERSION);
    var key := EncodeSshString(publicKeyBlob);
    var namespace := EncodeSshString(GIT_NAMESPACE);
    var reserved := EncodeSshString([]);
    var algorithm := EncodeSshString(SHA512_ALGORITHM);
    var signature := EncodeSshString(signatureBlob[..]);
    sshsig := Concatenate([SSHSIG_MAGIC, version[..], key[..], namespace[..], reserved[..], algorithm[..], signature[..]]);
    FlattenSeven(SSHSIG_MAGIC, version[..], key[..], namespace[..], reserved[..], algorithm[..], signature[..]);
  }

  method CreateGitSshSigSignedData(digest: Bytes) returns (data: array<byte>)
    ensures fresh(data) && data[..] == SignedData(digest)
  {
    var namespace := EncodeSshString(GIT_NAMESPACE);
    var reserved := EncodeSshString([]);
    var algorithm := EncodeSshString(SHA512_ALGORITHM);
    var hash := EncodeSshString(digest);
    data := Concatenate([SSHSIG_MAGIC, namespace[..], reserved[..], algorithm[..], hash[..]]);
    FlattenFive(SSHSIG_MAGIC, namespace[..], reserved[..], algorithm[..], hash[..]);
  }

  lemma FlattenLast(values: seq<Bytes>, last: Bytes)
    ensures Flatten(values + [last]) == Flatten(values) + last
  {
    assert (values + [last])[..|values|] == values;
  }

  lemma FlattenTwo(a: Bytes, b: Bytes)
    ensures Flatten([a, b]) == a + b
  {
    FlattenLast([], a);
    FlattenLast([a], b);
    assert [] + [a] == [a] && [a] + [b] == [a, b];
  }

  lemma FlattenFive(a: Bytes, b: Bytes, c: Bytes, d: Bytes, e: Bytes)
    ensures Flatten([a, b, c, d, e]) == a + (b + (c + (d + e)))
  {
    FlattenTwo(a, b);
    FlattenLast([a, b], c);
    FlattenLast([a, b, c], d);
    FlattenLast([a, b, c, d], e);
    assert [a, b] + [c] == [a, b, c] && [a, b, c] + [d] == [a, b, c, d] && [a, b, c, d] + [e] == [a, b, c, d, e];
  }

  lemma FlattenSeven(a: Bytes, b: Bytes, c: Bytes, d: Bytes, e: Bytes, f: Bytes, g: Bytes)
    ensures Flatten([a, b, c, d, e, f, g]) == a + (b + (c + (d + (e + (f + g)))))
  {
    FlattenFive(a, b, c, d, e);
    FlattenLast([a, b, c, d, e], f);
    FlattenLast([a, b, c, d, e, f], g);
    assert [a, b, c, d, e] + [f] == [a, b, c, d, e, f] && [a, b, c, d, e, f] + [g] == [a, b, c, d, e, f, g];
  }

  // ---- armour ----

  /** The lines joined with newlines. */
  function Joined(lines: seq<string>): string {
    if lines == [] then ""
    else if |lines| == 1 then lines[0]
    else Joined(lines[..|lines| - 1]) + "\n" + lines[|lines| - 1]
  }

  function Glued(lines: seq<string>): string {
    if lines == [] then "" else Glued(lines[..|lines| - 1]) + lines[|lines| - 1]
  }

  /** The greedy `.{1,70}` matches of a text without line breaks. */
  method ArmorLines(base64: string) returns (lines: seq<string>)
    requires '\n' !in base64 && '\r' !in base64
    ensures Glued(lines) == base64
    ensures forall k :: 0 <= k < |lines| ==> 1 <= |lines[k]| <= ARMOR_LINE_LENGTH && '\n' !in lines[k]
    ensures forall k :: 0 <= k < |lines| - 1 ==> |lines[k]| == ARMOR_LINE_LENGTH
  {
    lines := [];
    var offset := 0;
    while offset < |base64|
      invariant 0 <= offset <= |base64|
      invariant Glued(lines) == base64[..offset]
      invariant forall k :: 0 <= k < |lines| ==> 1 <= |lines[k]| <= ARMOR_LINE_LENGTH && '\n' !in lines[k]
      invariant forall k :: 0 <= k < |lines| - 1 ==> |lines[k]| == ARMOR_LINE_LENGTH
      invariant offset < |base64| ==> forall k :: 0 <= k < |lines| ==> |lines[k]| == ARMOR_LINE_LENGTH
    {
      var end := Min(offset + ARMOR_LINE_LENGTH, |base64|);
      var line := base64[offset..end];
      assert (lines + [line])[..|lines|] == lines;
      assert base64[..end] == base64[..offset] + line;
      lines := lines + [line];
      offset := end;
    }
    assert base64[..offset] == base64;
  }

  /** `base64` is the platform's encoder. */
  method CreateArmoredGitSshSig(publicKeyBlob: Bytes, rawSignature: Bytes, base64: Bytes -> string) returns (armour: string)
    requires forall b :: '\n' !in base64(b) && '\r' !in base64(b)
    ensures exists lines: seq<string> ::
              && armour == "-----BEGIN SSH SIGNATURE-----\n" + Joined(lines) + "\n-----END SSH SIGNATURE-----\n"
              && WithoutBreaks(Joined(lines)) == base64(SshSig(publicKeyBlob, rawSignature))
              && (forall k :: 0 <= k < |lines| ==> 1 <= |lines[k]| <= ARMOR_LINE_LENGTH)
              && forall k :: 0 <= k < |lines| - 1 ==> |lines[k]| == ARMOR_LINE_LENGTH
  {
    var sshsig := CreateSshSig(publicKeyBlob, rawSignature);
    var lines := ArmorLines(base64(sshsig[..]));
    ArmourUnwraps(lines);
    armour := "-----BEGIN SSH SIGNATURE-----\n" + Joined(lines) + "\n-----END SSH SIGNATURE-----\n";
  }

  function WithoutBreaks(text: string): string {
    if text == "" then "" else WithoutBreaks(text[..|text| - 1]) + (if text[|text| - 1] == '\n' then "" else [text[|text| - 1]])
  }

  lemma {:induction false} WithoutBreaksAppends(a: string, b: string)
    ensures WithoutBreaks(a + b) == WithoutBreaks(a) + WithoutBreaks(b)
  {
    if b == "" {
      assert a + b == a;
    } else {
      assert (a + b)[..|a + b| - 1] == a + b[..|b| - 1];
      WithoutBreaksAppends(a, b[..|b| - 1]);
    }
  }

  lemma {:induction false} NoBreaksToRemove(text: string)
    requires '\n' !in text
    ensures WithoutBreaks(text) == text
  {
    if text != "" {
      NoBreaksToRemove(text[..|text| - 1]);
      assert text == text[..|text| - 1] + [text[|text| - 1]];
    }
  }

  /** Removing the line breaks of the armour's body gives back the text that was wrapped. */
  lemma {:induction false} ArmourUnwraps(lines: seq<string>)
    requires forall k :: 0 <= k < |lines| ==> '\n' !in lines[k]
    ensures WithoutBreaks(Joined(lines)) == Glued(lines)
  {
    if lines != [] {
      var rest, last := lines[..|lines| - 1], lines[|lines| - 1];
      ArmourUnwraps(rest);
      NoBreaksToRemove(last);
      if |lines| == 1 {
        assert Glued(lines) == "" + last;
      } else {
        WithoutBreaksAppends(Joined(rest) + "\n", last);
        WithoutBreaksAppends(Joined(rest), "\n");
        assert WithoutBreaks("\n") == "";
      }
    }
  }
}
