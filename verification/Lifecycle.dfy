/** The life of a repair: verified, approved, signed and only then deployed. Whoever edits the candidate in
    between, only a state that was signed as it stands passes the deployment gate.
    Source: src/difoundry/repair.py:195-209, 826-828, 866-986. */
module Lifecycle {
  import opened Wrappers

  datatype Report = Report(reportId: string, passed: bool)

  datatype ApprovalStatus = Pending | Approved | Rejected

  datatype Approval = Approval(status: ApprovalStatus, approver: string, reason: string, at: int)

  datatype Status = Proposed | Verified | VerificationFailed | ApprovedStatus | RejectedStatus | Signed | Deployed

  datatype Signature<D> = Signature(keyId: string, signedPayload: D, digest: D)

  /** The content is everything the candidate hash covers: patches, scope, risk and the rest of the candidate. */
  datatype Candidate<C, D> = Candidate(
    content: C, hash: D, verification: Option<Report>, approval: Approval, signature: Option<Signature<D>>, status: Status)

  /** The hash of the content, the hash that is signed, and the keyed digest. */
  datatype Crypto<!C, !D, !K> = Crypto(
    contentHash: C -> D, signingHash: (D, Option<Report>, Approval) -> D, mac: (K, D) -> D)

  datatype Error = NotVerified | NotApproved | BadSignature | NotSigned | ApplyFailed

  predicate Passed<C, D>(c: Candidate<C, D>) {
    c.verification.Some? && c.verification.value.passed
  }

  function Rehashed<C, D, K>(c: Candidate<C, D>, crypto: Crypto<C, D, K>): Candidate<C, D>
  {
    c.(hash := crypto.contentHash(c.content))
  }

  /* ---------- the operations ---------- */

  function Verifying<C, D, K>(c: Candidate<C, D>, crypto: Crypto<C, D, K>, report: Report): Candidate<C, D>
  {
    Rehashed(c.(verification := Some(report), status := if report.passed then Verified else VerificationFailed), crypto)
  }

  function Approving<C, D, K>(c: Candidate<C, D>, crypto: Crypto<C, D, K>, approval: Approval): Result<Candidate<C, D>, Error>
  {
    if !Passed(c) then Failure(NotVerified)
    else Success(Rehashed(c.(approval := approval.(status := Approved), status := ApprovedStatus, signature := None), crypto))
  }

  function Rejecting<C, D, K>(c: Candidate<C, D>, crypto: Crypto<C, D, K>, approval: Approval): Candidate<C, D>
  {
    Rehashed(c.(approval := approval.(status := Rejected), status := RejectedStatus, signature := None), crypto)
  }

  function SignatureOf<C, D, K>(c: Candidate<C, D>, crypto: Crypto<C, D, K>, key: K, keyId: string): Signature<D>
  {
    var payload := crypto.signingHash(crypto.contentHash(c.content), c.verification, c.approval);
    Signature(keyId, payload, crypto.mac(key, payload))
  }

  function Signing<C, D, K>(c: Candidate<C, D>, crypto: Crypto<C, D, K>, key: K, keyId: string): Result<Candidate<C, D>, Error>
  {
    if c.approval.status != Approved then Failure(NotApproved)
    else if !Passed(c) then Failure(NotVerified)
    else Success(Rehashed(c, crypto).(signature := Some(SignatureOf(c, crypto, key, keyId)), status := Signed))
  }

  predicate SignatureHolds<C, D(==), K>(c: Candidate<C, D>, crypto: Crypto<C, D, K>, key: K) {
    && c.signature.Some?
    && crypto.contentHash(c.content) == c.hash
    && crypto.signingHash(c.hash, c.verification, c.approval) == c.signature.value.signedPayload
    && crypto.mac(key, crypto.signingHash(c.hash, c.verification, c.approval)) == c.signature.value.digest
  }

  /** The deployment gate, and whether applying the patches then succeeds. */
  function Deploying<C, D(==), K>(c: Candidate<C, D>, crypto: Crypto<C, D, K>, key: K, applies: bool): Result<Candidate<C, D>, Error>
  {
    if !SignatureHolds(c, crypto, key) then Failure(BadSignature)
    else if c.status != Signed then Failure(NotSigned)
    else if !Passed(c) then Failure(NotVerified)
    else if !applies then Failure(ApplyFailed)
    else Success(c.(status := Deployed))
  }

  /** The mutable candidate the services share. */
  class RepairCandidate<C, D(==), K> {
    const crypto: Crypto<C, D, K>
    var content: C
    var hash: D
    var verification: Option<Report>
    var approval: Approval
    var signature: Option<Signature<D>>
    var status: Status

    ghost function Now(): Candidate<C, D>
      reads this
    {
      Candidate(content, hash, verification, approval, signature, status)
    }

    constructor (crypto: Crypto<C, D, K>, content: C)
      ensures this.crypto == crypto && this.content == content && hash == crypto.contentHash(content)
      ensures verification.None? && approval == Approval(Pending, "", "", 0) && signature.None? && status == Proposed
    {
      this.crypto, this.content, hash := crypto, content, crypto.contentHash(content);
      verification, approval, signature, status := None, Approval(Pending, "", "", 0), None, Proposed;
    }

    method RecordVerification(report: Report)
      modifies this
      ensures Now() == Verifying(old(Now()), crypto, report)
    {
      verification := Some(report);
      status := if report.passed then Verified else VerificationFailed;
      hash := crypto.contentHash(content);
    }

    method Approve(approver: string, reason: string, at: int) returns (r: Result<(), Error>)
      modifies this
      ensures match Approving(old(Now()), crypto, Approval(Approved, approver, reason, at))
              case Success(c) => r == Success(()) && Now() == c
              case Failure(e) => r == Failure(e) && Now() == old(Now())
    {
      if verification.None? || !verification.value.passed {
        return Failure(NotVerified);
      }
      approval := Approval(Approved, approver, reason, at);
      status := ApprovedStatus;
      signature := None;
      hash := crypto.contentHash(content);
      r := Success(());
    }

    method Reject(approver: string, reason: string)
      modifies this
      ensures Now() == Rejecting(old(Now()), crypto, Approval(Rejected, approver, reason, 0))
    {
      approval := Approval(Rejected, approver, reason, 0);
      status := RejectedStatus;
      signature := None;
      hash := crypto.contentHash(content);
    }

    method Sign(key: K, keyId: string) returns (r: Result<(), Error>)
      modifies this
      ensures match Signing(old(Now()), crypto, key, keyId)
              case Success(c) => r == Success(()) && Now() == c
              case Failure(e) => r == Failure(e) && Now() == old(Now())
    {
      if approval.status != Approved {
        return Failure(NotApproved);
      }
      if verification.None? || !verification.value.passed {
        return Failure(NotVerified);
      }
      hash := crypto.contentHash(content);
      var payload := crypto.signingHash(hash, verification, approval);
      signature := Some(Signature(keyId, payload, crypto.mac(key, payload)));
      status := Signed;
      r := Success(());
    }

    method Verify(key: K) returns (ok: bool)
      ensures ok == SignatureHolds(Now(), crypto, key)
    {
      if signature.None? {
        return false;
      }
      var actual := crypto.contentHash(content);
      if actual != hash {
        return false;
      }
      var payload := crypto.signingHash(hash, verification, approval);
      if payload != signature.value.signedPayload {
        return false;
      }
      ok := crypto.mac(key, payload) == signature.value.digest;
    }

    method Deploy(key: K, applies: bool) returns (r: Result<(), Error>)
      modifies this
      ensures match Deploying(old(Now()), crypto, key, applies)
              case Success(c) => r == Success(()) && Now() == c
              case Failure(e) => r == Failure(e) && Now() == old(Now())
    {
      var ok := Verify(key);
      if !ok {
        return Failure(BadSignature);
      }
      if status != Signed {
        return Failure(NotSigned);
      }
      if verification.None? || !verification.value.passed {
        return Failure(NotVerified);
      }
      if !applies {
        return Failure(ApplyFailed);
      }
      status := Deployed;
      r := Success(());
    }
  }

  /* ---------- runs with arbitrary edits ---------- */

  /** What one successful signing covered. */
  datatype Issue<C, D, K> = Issue(key: K, digest: D, content: C, verification: Option<Report>, approval: Approval)

  datatype World<C, D, K> = World(candidate: Candidate<C, D>, issued: seq<Issue<C, D, K>>)

  /** The services' operations, and an edit of every field by anyone. */
  datatype Action<C, D, K> =
    | RecordReport(report: Report)
    | Grant(approval: Approval)
    | Refuse(approval: Approval)
    | SignWith(key: K, keyId: string)
    | Ship(key: K, applies: bool)
    | Edit(candidate: Candidate<C, D>)

  function Act<C, D(==), K>(w: World<C, D, K>, crypto: Crypto<C, D, K>, a: Action<C, D, K>): World<C, D, K>
  {
    var c := w.candidate;
    match a
    case RecordReport(report) => w.(candidate := Verifying(c, crypto, report))
    case Grant(approval) =>
      var r := Approving(c, crypto, approval); if r.Success? then w.(candidate := r.value) else w
    case Refuse(approval) => w.(candidate := Rejecting(c, crypto, approval))
    case SignWith(key, keyId) =>
      var r := Signing(c, crypto, key, keyId);
      if r.Success? then
        World(r.value, w.issued + [Issue(key, SignatureOf(c, crypto, key, keyId).digest, c.content, c.verification, c.approval)])
      else w
    case Ship(key, applies) =>
      var r := Deploying(c, crypto, key, applies); if r.Success? then w.(candidate := r.value) else w
    case Edit(candidate) => w.(candidate := candidate)
  }

  /** Hashes and digests do not collide. K is the key as the digest uses it: HMAC-SHA256 pads a key shorter than its
      block with zero bytes and hashes a longer one, so byte strings with one padded block are one key here. */
  ghost predicate Injective<C(!new), D(!new), K(!new)>(crypto: Crypto<C, D, K>) {
    && (forall x, y :: crypto.contentHash(x) == crypto.contentHash(y) ==> x == y)
    && (forall d, v, a, d', v', a' :: crypto.signingHash(d, v, a) == crypto.signingHash(d', v', a') ==> d == d' && v == v' && a == a')
    && (forall k, h, k', h' :: crypto.mac(k, h) == crypto.mac(k', h') ==> k == k' && h == h')
  }

  /** A digest that remembers everything it was computed from. */
  datatype Digest<C, K> =
    | OfContent(content: C)
    | OfSigning(hash: Digest<C, K>, verification: Option<Report>, approval: Approval)
    | OfKey(key: K, payload: Digest<C, K>)

  function Remembering<C, K>(): Crypto<C, Digest<C, K>, K>
  {
    Crypto(
      (c: C) => OfContent(c),
      (d: Digest<C, K>, v: Option<Report>, a: Approval) => OfSigning(d, v, a),
      (k: K, d: Digest<C, K>) => OfKey(k, d))
  }

  /** Hashes and digests without collisions exist, for any content and any keys. */
  lemma InjectiveCryptoExists<C(!new), K(!new)>()
    ensures Injective(Remembering<C, K>())
  {
  }

  ghost predicate IssuedWith<C, D, K>(w: World<C, D, K>, key: K, digest: D) {
    exists i :: 0 <= i < |w.issued| && w.issued[i].key == key && w.issued[i].digest == digest
  }

  /** A digest that is valid under some key has been issued: nobody can produce one without signing, though
      anyone may copy one. */
  ghost predicate Genuine<C, D(!new), K(!new)>(w: World<C, D, K>, crypto: Crypto<C, D, K>, signature: Option<Signature<D>>) {
    signature.Some? ==> forall key, h :: crypto.mac(key, h) == signature.value.digest ==> IssuedWith(w, key, signature.value.digest)
  }

  ghost predicate Sincere<C, D, K>(crypto: Crypto<C, D, K>, i: Issue<C, D, K>) {
    && i.digest == crypto.mac(i.key, crypto.signingHash(crypto.contentHash(i.content), i.verification, i.approval))
    && i.verification.Some? && i.verification.value.passed && i.approval.status == Approved
  }

  ghost predicate Inv<C, D(!new), K(!new)>(w: World<C, D, K>, crypto: Crypto<C, D, K>) {
    && Genuine(w, crypto, w.candidate.signature)
    && forall i :: 0 <= i < |w.issued| ==> Sincere(crypto, w.issued[i])
  }

  /** An edit may carry only a signature that was issued before, or a bogus one. */
  ghost predicate Honest<C, D(!new), K(!new)>(w: World<C, D, K>, crypto: Crypto<C, D, K>, a: Action<C, D, K>) {
    a.Edit? ==> Genuine(w, crypto, a.candidate.signature)
  }

  lemma ActKeepsInv<C(!new), D(!new), K(!new)>(w: World<C, D, K>, crypto: Crypto<C, D, K>, a: Action<C, D, K>)
    requires Injective(crypto) && Inv(w, crypto) && Honest(w, crypto, a)
    ensures Inv(Act(w, crypto, a), crypto)
  {
    var next := Act(w, crypto, a);
    if next.issued != w.issued {
      var last := next.issued[|w.issued|];
      forall key, h | crypto.mac(key, h) == next.candidate.signature.value.digest
        ensures IssuedWith(next, key, next.candidate.signature.value.digest)
      {
        assert last.key == key && last.digest == next.candidate.signature.value.digest;
      }
    }
  }

  ghost function RunAll<C, D, K>(w: World<C, D, K>, crypto: Crypto<C, D, K>, actions: seq<Action<C, D, K>>): World<C, D, K>
    decreases |actions|
  {
    if actions == [] then w else Act(RunAll(w, crypto, actions[..|actions| - 1]), crypto, actions[|actions| - 1])
  }

  ghost predicate AllHonest<C, D(!new), K(!new)>(w: World<C, D, K>, crypto: Crypto<C, D, K>, actions: seq<Action<C, D, K>>) {
    forall i :: 0 <= i < |actions| ==> Honest(RunAll(w, crypto, actions[..i]), crypto, actions[i])
  }

  lemma {:induction false} RunKeepsInv<C(!new), D(!new), K(!new)>(w: World<C, D, K>, crypto: Crypto<C, D, K>, actions: seq<Action<C, D, K>>)
    requires Injective(crypto) && Inv(w, crypto) && AllHonest(w, crypto, actions)
    ensures Inv(RunAll(w, crypto, actions), crypto)
    decreases |actions|
  {
    if actions != [] {
      var front := actions[..|actions| - 1];
      forall i | 0 <= i < |front| ensures Honest(RunAll(w, crypto, front[..i]), crypto, front[i]) {
        assert front[..i] == actions[..i];
      }
      RunKeepsInv(w, crypto, front);
      ActKeepsInv(RunAll(w, crypto, front), crypto, actions[|actions| - 1]);
    }
  }

  /** Whatever happened before, a deployment goes through only for a candidate whose content, verification
      report and approval were signed with that key exactly as they stand, after verification passed and
      approval was given. */
  lemma {:induction false} OnlySignedStatesDeploy<C(!new), D(!new), K(!new)>(
      c: Candidate<C, D>, crypto: Crypto<C, D, K>, actions: seq<Action<C, D, K>>, key: K)
    requires Injective(crypto) && c.signature.None?
    requires AllHonest(World(c, []), crypto, actions)
    requires Deploying(RunAll(World(c, []), crypto, actions).candidate, crypto, key, true).Success?
    ensures var w := RunAll(World(c, []), crypto, actions);
            exists i :: 0 <= i < |w.issued| && w.issued[i].key == key
              && w.issued[i].content == w.candidate.content
              && w.issued[i].verification == w.candidate.verification && Passed(w.candidate)
              && w.issued[i].approval == w.candidate.approval && w.candidate.approval.status == Approved
  {
    var start := World(c, []);
    RunKeepsInv(start, crypto, actions);
    var w := RunAll(start, crypto, actions);
    var digest := w.candidate.signature.value.digest;
    assert IssuedWith(w, key, digest);
    var i :| 0 <= i < |w.issued| && w.issued[i].key == key && w.issued[i].digest == digest;
    assert Sincere(crypto, w.issued[i]);
  }

  /** What was just signed passes the gate under the key that signed it and under no other. */
  lemma SigningOpensTheGateIff<C(!new), D(!new), K(!new)>(c: Candidate<C, D>, crypto: Crypto<C, D, K>, key: K, keyId: string, other: K)
    requires Injective(crypto)
    ensures Signing(c, crypto, key, keyId).Success? <==> Passed(c) && c.approval.status == Approved
    ensures Signing(c, crypto, key, keyId).Success?
      ==> (Deploying(Signing(c, crypto, key, keyId).value, crypto, other, true).Success? <==> other == key)
  {
    if Signing(c, crypto, key, keyId).Success? {
      var signed := Signing(c, crypto, key, keyId).value;
      if SignatureHolds(signed, crypto, other) {
        SignatureBindsEverything(signed, signed, crypto, key, other);
      }
    }
  }

  /** Under one signature, at most one content, report and approval verify. */
  lemma SignatureBindsEverything<C(!new), D(!new), K(!new)>(a: Candidate<C, D>, b: Candidate<C, D>, crypto: Crypto<C, D, K>, key: K, key': K)
    requires Injective(crypto) && a.signature == b.signature
    requires SignatureHolds(a, crypto, key) && SignatureHolds(b, crypto, key')
    ensures key == key' && a.content == b.content && a.verification == b.verification && a.approval == b.approval
  {
    assert crypto.mac(key, crypto.signingHash(a.hash, a.verification, a.approval)) == crypto.mac(key', crypto.signingHash(b.hash, b.verification, b.approval));
  }

  /** After signing, recording a report keeps the signature only if it is the signed one, an approval put in place of
      the signed one voids it, and approving or rejecting again always does. */
  lemma LaterStepsVoidSignature<C(!new), D(!new), K(!new)>(c: Candidate<C, D>, crypto: Crypto<C, D, K>, key: K,
                                                            report: Report, approval: Approval)
    requires Injective(crypto) && SignatureHolds(c, crypto, key)
    ensures SignatureHolds(Verifying(c, crypto, report), crypto, key) <==> c.verification == Some(report)
    ensures SignatureHolds(c.(approval := approval), crypto, key) <==> c.approval == approval
    ensures !SignatureHolds(Rejecting(c, crypto, approval), crypto, key)
    ensures var again := Approving(c, crypto, approval); again.Success? ==> !SignatureHolds(again.value, crypto, key)
  {
    if SignatureHolds(Verifying(c, crypto, report), crypto, key) {
      SignatureBindsEverything(c, Verifying(c, crypto, report), crypto, key, key);
    }
    if SignatureHolds(c.(approval := approval), crypto, key) {
      SignatureBindsEverything(c, c.(approval := approval), crypto, key, key);
    }
  }

  /* ---------- what each step leaves ---------- */

  /** A report is recorded as it came, and the status says whether it passed. */
  lemma RecordingMeans<C, D, K>(c: Candidate<C, D>, crypto: Crypto<C, D, K>, report: Report)
    ensures Verifying(c, crypto, report) ==
            Candidate(c.content, crypto.contentHash(c.content), Some(report), c.approval, c.signature,
                      if report.passed then Verified else VerificationFailed)
  {
  }

  /** Approval needs a passed report; approving and rejecting record who decided, what and why, and drop any signature. */
  lemma DecidingMeans<C, D, K>(c: Candidate<C, D>, crypto: Crypto<C, D, K>, approval: Approval)
    ensures Approving(c, crypto, approval).Success? <==> c.verification.Some? && c.verification.value.passed
    ensures Approving(c, crypto, approval).Success? ==>
              Approving(c, crypto, approval).value ==
              Candidate(c.content, crypto.contentHash(c.content), c.verification,
                        Approval(Approved, approval.approver, approval.reason, approval.at), None, ApprovedStatus)
    ensures Rejecting(c, crypto, approval) ==
            Candidate(c.content, crypto.contentHash(c.content), c.verification,
                      Approval(Rejected, approval.approver, approval.reason, approval.at), None, RejectedStatus)
  {
  }

  /** A deployment goes through exactly for a candidate that is in signed state with its report passed, whose signature
      holds and whose patches apply; it changes the status alone. The first gate that fails names the error. */
  lemma DeployingMeans<C, D, K>(c: Candidate<C, D>, crypto: Crypto<C, D, K>, key: K, applies: bool)
    ensures var r, holds, passed := Deploying(c, crypto, key, applies), SignatureHolds(c, crypto, key), Passed(c);
            && (r.Success? <==> holds && c.status == Signed && passed && applies)
            && (r.Success? ==> r.value == c.(status := Deployed))
            && (r == Failure(BadSignature) <==> !holds)
            && (r == Failure(NotSigned) <==> holds && c.status != Signed)
            && (r == Failure(NotVerified) <==> holds && c.status == Signed && !passed)
  {
  }

  /** The way through: a candidate that is verified with success, approved, signed and shipped with one key, and whose
      patches apply, is deployed with its content as it was. */
  lemma PathToDeployment<C, D, K>(c: Candidate<C, D>, crypto: Crypto<C, D, K>, report: Report, approval: Approval, key: K, keyId: string)
    requires report.passed
    ensures var verified := Verifying(c, crypto, report);
            Approving(verified, crypto, approval).Success? &&
            var approved := Approving(verified, crypto, approval).value;
            Signing(approved, crypto, key, keyId).Success? &&
            var shipped := Deploying(Signing(approved, crypto, key, keyId).value, crypto, key, true);
            shipped.Success? && shipped.value.status == Deployed && shipped.value.content == c.content
  {
  }

  /** Neither an approval nor an edit. */
  predicate Bystander<C, D, K>(a: Action<C, D, K>)
  {
    !a.Grant? && !a.Edit?
  }

  /** A rejection holds: until somebody approves again, no verification, signing or shipping leads to a deployment. */
  lemma {:induction false} RejectionHolds<C, D(!new), K(!new)>(w: World<C, D, K>, crypto: Crypto<C, D, K>, approval: Approval,
                                                               actions: seq<Action<C, D, K>>)
    requires forall i :: 0 <= i < |actions| ==> Bystander(actions[i])
    ensures var final := RunAll(Act(w, crypto, Refuse(approval)), crypto, actions).candidate;
            final.approval.status == Rejected && final.signature == None && final.status !in {Signed, Deployed}
    decreases |actions|
  {
    if actions != [] {
      var last := |actions| - 1;
      RejectionHolds(w, crypto, approval, actions[..last]);
      assert Bystander(actions[last]);
    }
  }
}
