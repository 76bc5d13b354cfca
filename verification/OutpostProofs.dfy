/** Signed machine proofs and the table of spent nonces. */
module OutpostProofs {
  import opened Support
  import opened CanonicalText

  const PROOF_DOMAIN := "openoutposts-connect-v1"
  const PROOF_MAX_AGE_MS := 2 * MINUTE_MS
  const NONCE_TTL_MS := 5 * MINUTE_MS

  /** SHA-256 as an injective constructor. */
  datatype NonceHash = Sha256(text: string)

  datatype Nonce = Nonce(outpostId: string, expiresAt: int)

  type Nonces = map<NonceHash, Nonce>

  /** The batch of one request: purge what expired by its clock reading, then insert its nonce. */
  datatype Batch = Batch(hash: NonceHash, outpostId: string, now: int)

  function Purged(nonces: Nonces, now: int): Nonces {
    map h | h in nonces && nonces[h].expiresAt > now :: nonces[h]
  }

  /** The insert meets the primary key. */
  predicate Fits(nonces: Nonces, b: Batch) {
    b.hash in nonces ==> nonces[b.hash].expiresAt <= b.now
  }

  /** A failed insert rolls the purge back. */
  function Commit(nonces: Nonces, b: Batch): Nonces {
    if Fits(nonces, b) then Purged(nonces, b.now)[b.hash := Nonce(b.outpostId, b.now + NONCE_TTL_MS)] else nonces
  }

  function CommitAll(nonces: Nonces, batches: seq<Batch>): Nonces
    decreases |batches|
  {
    if batches == [] then nonces else Commit(CommitAll(nonces, batches[..|batches| - 1]), batches[|batches| - 1])
  }

  // ---- one request ----

  datatype OutpostRecord = OutpostRecord(
    id: string,
    ownerUserId: Option<string>,
    publicKey: Option<string>,
    keyAlgorithm: Option<string>,
    keyFingerprint: Option<string>,
    confirmedAt: Option<int>,
    revokedAt: Option<int>)

  datatype Request = Request(
    httpMethod: string,
    path: string,
    timestamp: Option<string>,
    nonce: Option<string>,
    signature: Option<string>,
    fingerprint: Option<string>)

  datatype Options = Options(allowUnconfirmed: bool, allowRevoked: bool)

  /** `Number`, base64url decoding and Ed25519 verification (signature, key, message); `None` where they throw. */
  datatype Platform = Platform(
    safeInteger: string -> Option<int>,
    base64UrlDecode: string -> Option<string>,
    verify: (string, string, string) -> Option<bool>)

  datatype Reason =
    | Inactive
    | NotConfirmed
    | Incomplete
    | FingerprintMismatch
    | OutsideTheWindow
    | InvalidEncoding
    | InvalidLengths
    | NotVerifiable
    | InvalidSignature
    | AlreadyUsed

  datatype Identity = Identity(keyFingerprint: string, ownerUserId: string)

  function CanonicalOutpostProof(httpMethod: string, path: string, outpostId: string, timestamp: string, nonce: string): string {
    JoinWith('\n', [PROOF_DOMAIN, httpMethod, path, outpostId, timestamp, nonce])
  }

  /** Null and the empty string are both false. */
  predicate Truthy(value: Option<string>) {
    value.Some? && value.value != ""
  }

  function HashOf(outpostId: string, nonce: string): NonceHash {
    Sha256(outpostId + ":" + nonce)
  }

  predicate MachineMayProve(outpost: OutpostRecord, options: Options) {
    && (outpost.revokedAt.None? || options.allowRevoked)
    && Truthy(outpost.ownerUserId) && Truthy(outpost.publicKey) && Truthy(outpost.keyFingerprint)
    && outpost.keyAlgorithm == Some("ed25519")
    && (outpost.confirmedAt.Some? || options.allowUnconfirmed)
  }

  predicate TimestampInWindow(platform: Platform, timestamp: string, now: int) {
    var timestampMs := platform.safeInteger(timestamp);
    timestampMs.Some? && -PROOF_MAX_AGE_MS <= now - timestampMs.value <= PROOF_MAX_AGE_MS
  }

  predicate DecodesTo(platform: Platform, text: string, least: nat, most: nat) {
    platform.base64UrlDecode(text).Some? && least <= |platform.base64UrlDecode(text).value| <= most
  }

  /** A complete proof under the recorded key, over the request, this machine, and this timestamp and nonce. */
  predicate ProofHolds(platform: Platform, request: Request, outpost: OutpostRecord, now: int) {
    && Truthy(request.timestamp) && Truthy(request.nonce) && Truthy(request.signature)
    && Truthy(request.fingerprint) && request.fingerprint == outpost.keyFingerprint
    && TimestampInWindow(platform, request.timestamp.value, now)
    && outpost.publicKey.Some?
    && DecodesTo(platform, outpost.publicKey.value, 32, 32)
    && DecodesTo(platform, request.signature.value, 64, 64)
    && platform.base64UrlDecode(request.nonce.value).Some? && |platform.base64UrlDecode(request.nonce.value).value| >= 16
    && platform.verify(platform.base64UrlDecode(request.signature.value).value,
                       platform.base64UrlDecode(outpost.publicKey.value).value,
                       CanonicalOutpostProof(request.httpMethod, request.path, outpost.id, request.timestamp.value, request.nonce.value))
       == Some(true)
  }

  class OutpostProofVerifier {
    var nonces: Nonces

    constructor ()
      ensures nonces == map[]
    {
      nonces := map[];
    }

    /** Other requests' batches that run while this one is suspended. */
    method Await(others: seq<Batch>)
      modifies this
      ensures nonces == CommitAll(old(nonces), others)
    {
      ghost var before := nonces;
      for i := 0 to |others|
        invariant nonces == CommitAll(before, others[..i])
      {
        var accepted := Spend(others[i]);
        assert others[..i + 1][..i] == others[..i];
      }
      assert others[..|others|] == others;
    }

    method Spend(b: Batch) returns (inserted: bool)
      modifies this
      ensures inserted <==> Fits(old(nonces), b)
      ensures nonces == Commit(old(nonces), b)
      ensures inserted <==> b.hash in old(nonces) ==> old(nonces)[b.hash].expiresAt <= b.now
      ensures !inserted ==> nonces == old(nonces)
      ensures inserted ==>
                && b.hash in nonces && nonces[b.hash] == Nonce(b.outpostId, b.now + 5 * MINUTE_MS)
                && forall h :: h != b.hash ==>
                     && (h in nonces <==> h in old(nonces) && b.now < old(nonces)[h].expiresAt)
                     && (h in nonces ==> nonces[h] == old(nonces)[h])
    {
      var before := nonces;
      nonces := map h | h in nonces && nonces[h].expiresAt > b.now :: nonces[h];
      inserted := b.hash !in nonces;
      if inserted {
        nonces := nonces[b.hash := Nonce(b.outpostId, b.now + NONCE_TTL_MS)];
      } else {
        nonces := before;
      }
    }

    /** Accepts exactly a holding proof whose nonce the batch could still spend; nothing else touches the table. */
    method VerifyOutpostMachineProof(platform: Platform, request: Request, outpost: OutpostRecord, options: Options,
                                     now: int, others: seq<Batch>)
      returns (r: Result<Identity, Reason>)
      modifies this
      ensures var mine := Batch(HashOf(outpost.id, if request.nonce.Some? then request.nonce.value else ""), outpost.id, now);
              var valid := MachineMayProve(outpost, options) && ProofHolds(platform, request, outpost, now);
              && (r.Success? <==> valid && Fits(CommitAll(old(nonces), others), mine))
              && (r == Failure(AlreadyUsed) <==> valid && !Fits(CommitAll(old(nonces), others), mine))
              && nonces == if valid then CommitAll(old(nonces), others + [mine]) else old(nonces)
      ensures r == Failure(NotConfirmed) <==> MachineMayProve(outpost, Options(true, options.allowRevoked))
                                              && outpost.confirmedAt.None? && !options.allowUnconfirmed
      ensures r == Failure(Inactive) <==> !MachineMayProve(outpost, Options(true, options.allowRevoked))
      ensures r == Failure(Inactive) <==>
                || (outpost.revokedAt.Some? && !options.allowRevoked)
                || outpost.ownerUserId in {None, Some("")} || outpost.publicKey in {None, Some("")}
                || outpost.keyFingerprint in {None, Some("")} || outpost.keyAlgorithm != Some("ed25519")
      ensures r == Failure(Incomplete) <==>
                && MachineMayProve(outpost, options)
                && !(Truthy(request.timestamp) && Truthy(request.nonce) && Truthy(request.signature) && Truthy(request.fingerprint))
      ensures r == Failure(FingerprintMismatch) <==>
                && MachineMayProve(outpost, options) && Truthy(request.timestamp) && Truthy(request.nonce) && Truthy(request.signature)
                && Truthy(request.fingerprint) && request.fingerprint != outpost.keyFingerprint
      ensures r == Failure(OutsideTheWindow) <==>
                && MachineMayProve(outpost, options) && Truthy(request.timestamp) && Truthy(request.nonce) && Truthy(request.signature)
                && Truthy(request.fingerprint) && request.fingerprint == outpost.keyFingerprint
                && !TimestampInWindow(platform, request.timestamp.value, now)
      ensures r.Success? ==> Some(r.value.keyFingerprint) == outpost.keyFingerprint
                             && Some(r.value.ownerUserId) == outpost.ownerUserId
    {
      if (outpost.revokedAt.Some? && !options.allowRevoked) || !Truthy(outpost.ownerUserId) || !Truthy(outpost.publicKey)
         || outpost.keyAlgorithm != Some("ed25519") || !Truthy(outpost.keyFingerprint) {
        return Failure(Inactive);
      }
      if !options.allowUnconfirmed && outpost.confirmedAt.None? {
        return Failure(NotConfirmed);
      }
      if !Truthy(request.timestamp) || !Truthy(request.nonce) || !Truthy(request.signature) || !Truthy(request.fingerprint) {
        return Failure(Incomplete);
      }
      if request.fingerprint != outpost.keyFingerprint {
        return Failure(FingerprintMismatch);
      }
      var timestampMs := platform.safeInteger(request.timestamp.value);
      if timestampMs.None? || now - timestampMs.value > PROOF_MAX_AGE_MS || timestampMs.value - now > PROOF_MAX_AGE_MS {
        return Failure(OutsideTheWindow);
      }
      var publicKey := platform.base64UrlDecode(outpost.publicKey.value);
      var signature := platform.base64UrlDecode(request.signature.value);
      var nonceBytes := platform.base64UrlDecode(request.nonce.value);
      if publicKey.None? || signature.None? || nonceBytes.None? {
        return Failure(InvalidEncoding);
      }
      if |publicKey.value| != 32 || |signature.value| != 64 || |nonceBytes.value| < 16 {
        return Failure(InvalidLengths);
      }
      var verified := platform.verify(signature.value, publicKey.value,
                                      CanonicalOutpostProof(request.httpMethod, request.path, outpost.id,
                                                            request.timestamp.value, request.nonce.value));
      if verified.None? {
        return Failure(NotVerifiable);
      }
      if !verified.value {
        return Failure(InvalidSignature);
      }
      Await(others);
      var mine := Batch(HashOf(outpost.id, request.nonce.value), outpost.id, now);
      assert (others + [mine])[..|others|] == others;
      var inserted := Spend(mine);
      if !inserted {
        return Failure(AlreadyUsed);
      }
      return Success(Identity(outpost.keyFingerprint.value, outpost.ownerUserId.value));
    }
  }

  /** A base64url nonce holds no colon, so its hash names the machine and the nonce. */
  lemma HashNamesTheNonce(outpostId: string, nonce: string, outpostId': string, nonce': string)
    requires ':' !in nonce && ':' !in nonce'
    ensures HashOf(outpostId, nonce) == HashOf(outpostId', nonce') <==> outpostId == outpostId' && nonce == nonce'
  {
    if HashOf(outpostId, nonce) == HashOf(outpostId', nonce') {
      LastSplit(':', outpostId, nonce, outpostId', nonce');
    }
  }

  /** The signed text, line by line. */
  lemma SignedText(m: string, p: string, o: string, t: string, n: string)
    ensures CanonicalOutpostProof(m, p, o, t, n) == "openoutposts-connect-v1\n" + (m + "\n" + (p + "\n" + (o + "\n" + (t + "\n" + n))))
  {
    JoinsNext('\n', t, [n]);
    JoinsNext('\n', o, [t, n]);
    JoinsNext('\n', p, [o, t, n]);
    JoinsNext('\n', m, [p, o, t, n]);
    JoinsNext('\n', PROOF_DOMAIN, [m, p, o, t, n]);
    assert PROOF_DOMAIN + "\n" == "openoutposts-connect-v1\n";
  }

  /** The signed text names the request, the machine, the timestamp and the nonce. */
  lemma SignedTextDeterminesTheProof(m: string, p: string, o: string, t: string, n: string,
                                     m': string, p': string, o': string, t': string, n': string)
    requires forall field :: field in [m, p, o, t, m', p', o', t'] ==> '\n' !in field
    ensures CanonicalOutpostProof(m, p, o, t, n) == CanonicalOutpostProof(m', p', o', t', n') <==>
            m == m' && p == p' && o == o' && t == t' && n == n'
  {
    if CanonicalOutpostProof(m, p, o, t, n) == CanonicalOutpostProof(m', p', o', t', n') {
      var fields, same := [PROOF_DOMAIN, m, p, o, t, n], [PROOF_DOMAIN, m', p', o', t', n'];
      var all := [m, p, o, t, m', p', o', t'];
      assert all[0] in all && all[1] in all && all[2] in all && all[3] in all
          && all[4] in all && all[5] in all && all[6] in all && all[7] in all;
      SameCountJoinsApart('\n', fields, same);
      assert fields[1] == same[1] && fields[2] == same[2] && fields[3] == same[3] && fields[4] == same[4] && fields[5] == same[5];
    }
  }

  // ---- replays ----

  /** What one signature covers, as far as replays go. */
  datatype Proof = Proof(outpostId: string, nonce: string, timestampMs: int)

  /** A request that passed every check before its batch. */
  datatype Attempt = Attempt(proof: Proof, readAt: int, commitAt: int) {
    function Delay(): int { commitAt - readAt }

    function Spending(): Batch {
      Batch(HashOf(proof.outpostId, proof.nonce), proof.outpostId, readAt)
    }
  }

  function Batches(run: seq<Attempt>): seq<Batch> {
    seq(|run|, i requires 0 <= i < |run| => run[i].Spending())
  }

  function Before(nonces: Nonces, run: seq<Attempt>, i: nat): Nonces
    requires i <= |run|
  {
    CommitAll(nonces, Batches(run)[..i])
  }

  predicate Accepted(nonces: Nonces, run: seq<Attempt>, i: nat)
    requires i < |run|
  {
    Fits(Before(nonces, run, i), run[i].Spending())
  }

  /** The timestamp check passed, and batches commit in the order of a clock that never goes back. */
  ghost predicate Plausible(run: seq<Attempt>) {
    && (forall i :: 0 <= i < |run| ==>
          && -PROOF_MAX_AGE_MS <= run[i].readAt - run[i].proof.timestampMs <= PROOF_MAX_AGE_MS
          && run[i].readAt <= run[i].commitAt)
    && forall i, j :: 0 <= i < j < |run| ==> run[i].commitAt <= run[j].commitAt
  }

  lemma BeforeNext(nonces: Nonces, run: seq<Attempt>, i: nat)
    requires i < |run|
    ensures Before(nonces, run, i + 1) == Commit(Before(nonces, run, i), run[i].Spending())
  {
    assert Batches(run)[..i + 1][..i] == Batches(run)[..i];
  }

  /** A spent nonce stays until some clock reading reaches its expiry. */
  lemma {:induction false} SpentNonceStays(nonces: Nonces, run: seq<Attempt>, i: nat, j: nat, h: NonceHash, until: int)
    requires i <= j <= |run|
    requires h in Before(nonces, run, i) && Before(nonces, run, i)[h].expiresAt >= until
    requires forall k :: i <= k < j ==> run[k].readAt < until
    ensures h in Before(nonces, run, j) && Before(nonces, run, j)[h].expiresAt >= until
    decreases j
  {
    if i < j {
      SpentNonceStays(nonces, run, i, j - 1, h, until);
      BeforeNext(nonces, run, j - 1);
      assert run[j - 1].readAt < until;
    }
  }

  /** A second acceptance of one proof commits at least 60 seconds after its request read the clock. */
  lemma SecondAcceptanceIsLate(nonces: Nonces, run: seq<Attempt>, i: nat, j: nat)
    requires Plausible(run) && i < j < |run| && run[i].proof == run[j].proof
    requires Accepted(nonces, run, i) && Accepted(nonces, run, j)
    ensures run[j].Delay() >= MINUTE_MS
  {
    if run[j].Delay() < MINUTE_MS {
      var h := run[i].Spending().hash;
      BeforeNext(nonces, run, i);
      var until := Before(nonces, run, i + 1)[h].expiresAt;
      assert until == run[i].readAt + NONCE_TTL_MS;
      forall k | i + 1 <= k < j + 1 ensures run[k].readAt < until {
        assert run[k].commitAt <= run[j].commitAt;
      }
      SpentNonceStays(nonces, run, i + 1, j, h, until);
    }
  }

  ghost predicate AcceptedTwice(nonces: Nonces, run: seq<Attempt>) {
    exists i: nat, j: nat :: i < j < |run| && run[i].proof == run[j].proof && Accepted(nonces, run, i) && Accepted(nonces, run, j)
  }

  ghost predicate Prompt(run: seq<Attempt>, limit: int) {
    forall i :: 0 <= i < |run| ==> run[i].Delay() < limit
  }

  ghost predicate SingleUseWithin(limit: int) {
    forall nonces: Nonces, run: seq<Attempt> :: Plausible(run) && Prompt(run, limit) ==> !AcceptedTwice(nonces, run)
  }

  /** The machine's clock is two minutes ahead; the replay waits exactly a minute and another request purges the nonce. */
  function LateReplay(): seq<Attempt> {
    var proof, other := Proof("machine", "nonce", 2 * MINUTE_MS), Proof("machine", "another", 5 * MINUTE_MS);
    [Attempt(proof, 0, 0), Attempt(other, 5 * MINUTE_MS, 5 * MINUTE_MS), Attempt(proof, 4 * MINUTE_MS, 5 * MINUTE_MS)]
  }

  lemma LateReplayIsAcceptedTwice()
    ensures Plausible(LateReplay()) && AcceptedTwice(map[], LateReplay())
    ensures Prompt(LateReplay(), MINUTE_MS + 1)
  {
    var run := LateReplay();
    var empty: Nonces := map[];
    var first, other := run[0].Spending(), run[1].Spending();
    assert other.hash != first.hash by {
      HashNamesTheNonce("machine", "nonce", "machine", "another");
      assert "nonce" != "another";
    }
    var spent := Commit(empty, first);
    assert spent[first.hash].expiresAt == 5 * MINUTE_MS;
    assert first.hash !in Commit(spent, other);
    assert Before(empty, run, 0) == empty;
    BeforeNext(empty, run, 0);
    BeforeNext(empty, run, 1);
    assert Accepted(empty, run, 0) && Accepted(empty, run, 2) && run[0].proof == run[2].proof;
  }

  /** A signed proof is accepted at most once exactly when every batch commits within 60 seconds of its clock reading. */
  lemma SingleUseIff(limit: int)
    ensures SingleUseWithin(limit) <==> limit <= MINUTE_MS
  {
    if limit <= MINUTE_MS {
      forall nonces: Nonces, run: seq<Attempt> | Plausible(run) && Prompt(run, limit) ensures !AcceptedTwice(nonces, run) {
        if AcceptedTwice(nonces, run) {
          var i: nat, j: nat :| i < j < |run| && run[i].proof == run[j].proof && Accepted(nonces, run, i) && Accepted(nonces, run, j);
          SecondAcceptanceIsLate(nonces, run, i, j);
          assert false;
        }
      }
    } else {
      LateReplayIsAcceptedTwice();
      assert Prompt(LateReplay(), limit);
    }
  }
}
