/** From enrollment to connection: a confirmed machine proves itself with exactly the key it enrolled. */
module OutpostConnect {
  import opened Support
  import opened OutpostEnrollments
  import Proofs = OutpostProofs

  /** The columns of the stored row that the proof check reads. */
  function RecordOf(id: string, o: Outpost): Proofs.OutpostRecord {
    Proofs.OutpostRecord(id, o.ownerUserId, o.publicKey, o.keyAlgorithm, o.keyFingerprint, o.confirmedAt, o.revokedAt)
  }

  /** Whatever is committed later, a stored machine keeps its key, algorithm and fingerprint, and its owner. */
  lemma MachineKeepsItsKey(db: Db, run: seq<Commit>, i: nat, j: nat, o: string)
    requires Ok(db) && Legal(db, run) && i <= j <= |run| && o in At(db, run, i).outposts
    ensures o in At(db, run, j).outposts
    ensures var before, after := At(db, run, i).outposts[o], At(db, run, j).outposts[o];
            && after.publicKey == before.publicKey && after.keyAlgorithm == before.keyAlgorithm
            && after.keyFingerprint == before.keyFingerprint
            && (before.ownerUserId.Some? ==> after.ownerUserId == before.ownerUserId)
  {
    RunKeepsOk(db, run, i, j);
    assert OutpostGrew(At(db, run, i).outposts[o], At(db, run, j).outposts[o]);
  }

  lemma ConsumedRow(db: Db, run: seq<Commit>, i: nat)
    requires i < |run| && run[i].statement.ConsumeStatement? && ConsumesAt(db, run, i, run[i].statement.enrollmentId)
    ensures var m, before, after := run[i].statement.machine, At(db, run, i), At(db, run, i + 1);
            && run[i].statement.enrollmentId in before.enrollments && m.outpostId in after.outposts
            && var o := after.outposts[m.outpostId];
               && o.publicKey == Some(m.publicKey) && o.keyAlgorithm == Some("ed25519") && o.keyFingerprint == Some(m.keyFingerprint)
               && o.ownerUserId == Some(before.enrollments[run[i].statement.enrollmentId].ownerUserId)
  {}

  /**
   * At any later time, the machine that an enrollment created may connect exactly once it is confirmed and while it
   * is not revoked; its stored columns are those it submitted. Key, fingerprint and owner are taken not to be empty.
   */
  lemma EnrolledMachineMayProveIff(db: Db, run: seq<Commit>, i: nat, j: nat)
    requires Ok(db) && Legal(db, run) && i < j <= |run|
    requires run[i].statement.ConsumeStatement? && ConsumesAt(db, run, i, run[i].statement.enrollmentId)
    requires var id, m := run[i].statement.enrollmentId, run[i].statement.machine;
             m.publicKey != "" && m.keyFingerprint != "" && id in At(db, run, i).enrollments && At(db, run, i).enrollments[id].ownerUserId != ""
    ensures run[i].statement.machine.outpostId in At(db, run, j).outposts
    ensures var m := run[i].statement.machine;
            var o := At(db, run, j).outposts[m.outpostId];
            && o.publicKey == Some(m.publicKey) && o.keyFingerprint == Some(m.keyFingerprint)
            && (Proofs.MachineMayProve(RecordOf(m.outpostId, o), Proofs.Options(false, false)) <==> o.confirmedAt.Some? && o.revokedAt.None?)
  {
    var m := run[i].statement.machine;
    ConsumedRow(db, run, i);
    MachineKeepsItsKey(db, run, i + 1, j, m.outpostId);
  }

  /** Nonce, signature and key have the lengths the check demands once decoded. */
  predicate DecodedLengthsOk(platform: Proofs.Platform, publicKey: string, signature: string, nonce: string) {
    && platform.base64UrlDecode(publicKey).Some? && |platform.base64UrlDecode(publicKey).value| == 32
    && platform.base64UrlDecode(signature).Some? && |platform.base64UrlDecode(signature).value| == 64
    && platform.base64UrlDecode(nonce).Some? && |platform.base64UrlDecode(nonce).value| >= 16
  }

  /**
   * The proof of a row that carries a machine's key holds exactly when it is complete and timely, names the row's
   * fingerprint, and its signature over this very text verifies under the submitted key.
   */
  lemma ProofHoldsUnderTheSubmittedKeyIff(platform: Proofs.Platform, request: Proofs.Request, id: string, o: Outpost, m: Machine, now: int)
    requires o.publicKey == Some(m.publicKey) && o.keyFingerprint == Some(m.keyFingerprint) && m.keyFingerprint != ""
    ensures Proofs.ProofHolds(platform, request, RecordOf(id, o), now) <==>
            match (request.timestamp, request.nonce, request.signature)
            case (Some(timestamp), Some(nonce), Some(signature)) =>
              && timestamp != "" && nonce != "" && signature != "" && request.fingerprint == Some(m.keyFingerprint)
              && platform.safeInteger(timestamp).Some? && -120_000 <= now - platform.safeInteger(timestamp).value <= 120_000
              && DecodedLengthsOk(platform, m.publicKey, signature, nonce)
              && platform.verify(platform.base64UrlDecode(signature).value, platform.base64UrlDecode(m.publicKey).value,
                                 "openoutposts-connect-v1\n" + (request.httpMethod + "\n" + (request.path + "\n"
                                 + (id + "\n" + (timestamp + "\n" + nonce))))) == Some(true)
            case _ => false
  {
    if request.timestamp.Some? && request.nonce.Some? {
      Proofs.SignedText(request.httpMethod, request.path, id, request.timestamp.value, request.nonce.value);
    }
  }
}
