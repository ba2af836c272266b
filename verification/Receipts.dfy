/** Verifiable receipts: building one, what its hash covers, the verifier's verdict, and the two
    evaluators of endorsement policies.

    SHA-256 is symbolic: a digest is what was hashed, so equal digests have equal contents. */
module Receipts {
  import opened Common

  datatype TransferCommitment = TransferCommitment(
    channelID: string, chaincodeID: string, functionName: string, fromID: string, toID: string,
    amountVND: int, internalRef: string, timestamp: int, nonce: string)

  datatype Endorsement = Endorsement(
    mspID: string, endorserID: string, certFingerprint: string, certificatePEM: string,
    signatureHex: string, timestamp: int, signatureValid: bool, certChainValid: bool)

  datatype Timestamps = Timestamps(
    clientSubmit: int, endorsementTime: int, ordererReceive: int, blockCommit: int, receiptCreated: int)

  datatype Observation = Observation(observedAt: int, anchorType: string, anchorRef: string)

  /** What ComputeReceiptHash hashes, field by field. */
  datatype Hashed = Hashed(
    schemaVersion: string, channelID: string, txID: string,
    commitmentHash: Digest, commitmentOpening: Option<TransferCommitment>, commitmentAlgorithm: string,
    blockNumber: nat, blockHash: string, validationCode: int,
    endorsements: seq<Endorsement>, originMSPID: string, policyID: string, policyMet: bool,
    timestamps: Timestamps, observation: Observation)

  datatype Digest =
    | OfCommitment(commitment: TransferCommitment)
    | OfReceipt(content: Hashed)
    | OtherDigest(text: string)

  datatype Receipt = Receipt(
    schemaVersion: string, channelID: string, txID: string, chaincodeID: string,
    commitmentHash: Digest, commitmentOpening: Option<TransferCommitment>, commitmentAlgorithm: string,
    blockNumber: nat, blockHash: string, txIndex: int,
    validationCode: int, validationCodeName: string,
    endorsements: seq<Endorsement>, originMSPID: string, policyID: string, policyMet: bool,
    timestamps: Timestamps, statusEndpoint: string, observation: Observation,
    internalRef: string, receiptSignature: string, receiptHash: Digest)

  function Content(r: Receipt): Hashed {
    Hashed(r.schemaVersion, r.channelID, r.txID, r.commitmentHash, r.commitmentOpening,
           r.commitmentAlgorithm, r.blockNumber, r.blockHash, r.validationCode, r.endorsements,
           r.originMSPID, r.policyID, r.policyMet, r.timestamps, r.observation)
  }

  predicate HashOk(r: Receipt) {
    OfReceipt(Content(r)) == r.receiptHash
  }

  predicate OpeningOk(r: Receipt) {
    r.commitmentOpening.Some? ==> OfCommitment(r.commitmentOpening.value) == r.commitmentHash
  }

  /******* Endorsement policies *******/

  datatype PolicyConfig = PolicyConfig(policyType: string, requiredMSPs: seq<string>, minEndorsers: int)

  function CountIn(required: seq<string>, valid: set<string>): nat {
    if required == [] then 0
    else CountIn(required[..|required| - 1], valid) + if required[|required| - 1] in valid then 1 else 0
  }

  /** The receipt verifier's reading of a policy, which may not be configured. */
  predicate PolicyHolds(config: Option<PolicyConfig>, valid: set<string>) {
    match config
    case None => |valid| > 0
    case Some(c) =>
      if c.policyType == "AND" then forall m :: m in c.requiredMSPs ==> m in valid
      else if c.policyType == "OR" then exists m :: m in c.requiredMSPs && m in valid
      else if c.policyType == "MAJORITY" then CountIn(c.requiredMSPs, valid) > |c.requiredMSPs| / 2
      else if c.policyType == "MIN" then |valid| >= c.minEndorsers
      else |valid| > 0
  }

  /** The endorsement extractor's reading. */
  predicate EndorsementPolicyHolds(policyType: string, required: seq<string>, valid: set<string>) {
    if policyType == "AND" then forall m :: m in required ==> m in valid
    else if policyType == "OR" then exists m :: m in required && m in valid
    else policyType == "MAJORITY" && CountIn(required, valid) >= |required| / 2 + 1
  }

  method CountRequired(required: seq<string>, valid: set<string>) returns (count: nat)
    ensures count == CountIn(required, valid)
  {
    count := 0;
    for i := 0 to |required|
      invariant count == CountIn(required[..i], valid)
    {
      assert required[..i + 1][..i] == required[..i];
      if required[i] in valid {
        count := count + 1;
      }
    }
    assert required[..|required|] == required;
  }

  method VerifyPolicy(configs: map<string, PolicyConfig>, policyID: string, valid: set<string>) returns (ok: bool)
    ensures ok <==> PolicyHolds(if policyID in configs then Some(configs[policyID]) else None, valid)
  {
    if policyID !in configs {
      return |valid| > 0;
    }
    var config := configs[policyID];
    if config.policyType == "AND" {
      for i := 0 to |config.requiredMSPs|
        invariant forall j :: 0 <= j < i ==> config.requiredMSPs[j] in valid
      {
        if config.requiredMSPs[i] !in valid {
          return false;
        }
      }
      return true;
    } else if config.policyType == "OR" {
      for i := 0 to |config.requiredMSPs|
        invariant forall j :: 0 <= j < i ==> config.requiredMSPs[j] !in valid
      {
        if config.requiredMSPs[i] in valid {
          return true;
        }
      }
      return false;
    } else if config.policyType == "MAJORITY" {
      var count := CountRequired(config.requiredMSPs, valid);
      return count > |config.requiredMSPs| / 2;
    } else if config.policyType == "MIN" {
      return |valid| >= config.minEndorsers;
    }
    return |valid| > 0;
  }

  datatype VerifiedEndorsement = VerifiedEndorsement(mspID: string, signatureValid: bool, certChainValid: bool)

  ghost function ValidEndorsers(es: seq<VerifiedEndorsement>): set<string> {
    set e | e in es && e.signatureValid && e.certChainValid :: e.mspID
  }

  method VerifyEndorsementPolicy(es: seq<VerifiedEndorsement>, policyType: string, required: seq<string>)
    returns (ok: bool)
    ensures ok <==> EndorsementPolicyHolds(policyType, required, ValidEndorsers(es))
  {
    var valid: set<string> := {};
    for i := 0 to |es|
      invariant valid == ValidEndorsers(es[..i])
    {
      assert es[..i + 1] == es[..i] + [es[i]];
      if es[i].signatureValid && es[i].certChainValid {
        valid := valid + {es[i].mspID};
      }
    }
    assert es[..|es|] == es;
    if policyType == "AND" {
      for i := 0 to |required|
        invariant forall j :: 0 <= j < i ==> required[j] in valid
      {
        if required[i] !in valid {
          return false;
        }
      }
      return true;
    } else if policyType == "OR" {
      for i := 0 to |required|
        invariant forall j :: 0 <= j < i ==> required[j] !in valid
      {
        if required[i] in valid {
          return true;
        }
      }
      return false;
    } else if policyType == "MAJORITY" {
      var count := CountRequired(required, valid);
      return count >= |required| / 2 + 1;
    }
    return false;
  }

  lemma {:induction false} CountMonotone(required: seq<string>, a: set<string>, b: set<string>)
    requires a <= b
    ensures CountIn(required, a) <= CountIn(required, b)
  {
    if required != [] {
      CountMonotone(required[..|required| - 1], a, b);
    }
  }

  /** More valid organisations never break a policy. */
  lemma PolicyMonotone(config: Option<PolicyConfig>, a: set<string>, b: set<string>)
    requires a <= b && PolicyHolds(config, a)
    ensures PolicyHolds(config, b)
  {
    SubsetCardinality(a, b);
    if config.Some? { CountMonotone(config.value.requiredMSPs, a, b); }
  }

  lemma {:induction false} CountIsIntersection(required: seq<string>, valid: set<string>)
    requires Distinct(required)
    ensures CountIn(required, valid) == |Elements(required) * valid|
  {
    if required == [] {
      assert Elements(required) * valid == {};
    } else {
      var init, last := required[..|required| - 1], required[|required| - 1];
      CountIsIntersection(init, valid);
      assert required == init + [last];
      ElementsAppend(init, last);
      assert last !in Elements(init);
      OneMore(Elements(init), last, valid);
    }
  }

  lemma OneMore(s: set<string>, x: string, valid: set<string>)
    requires x !in s
    ensures |(s + {x}) * valid| == |s * valid| + if x in valid then 1 else 0
  {
    assert (s + {x}) * valid == s * valid + if x in valid then {x} else {};
  }

  /** How many of n different required organisations each kind of policy takes, for either evaluator. */
  lemma PolicyThresholds(c: PolicyConfig, valid: set<string>)
    requires Distinct(c.requiredMSPs)
    ensures var n, met := |c.requiredMSPs|, |Elements(c.requiredMSPs) * valid|;
            && (c.policyType == "AND" ==> (PolicyHolds(Some(c), valid) <==> met == n))
            && (c.policyType == "OR" ==> (PolicyHolds(Some(c), valid) <==> met >= 1))
            && (c.policyType == "MAJORITY" ==> (PolicyHolds(Some(c), valid) <==> 2 * met > n))
            && (c.policyType in ["AND", "OR", "MAJORITY"] ==>
                  (EndorsementPolicyHolds(c.policyType, c.requiredMSPs, valid) <==> PolicyHolds(Some(c), valid)))
  {
    var required := Elements(c.requiredMSPs);
    CountIsIntersection(c.requiredMSPs, valid);
    DistinctCardinality(c.requiredMSPs);
    SubsetCardinality(required * valid, required);
    AllOrSome(required, valid);
    assert forall m :: m in c.requiredMSPs <==> m in required;
    EvaluatorsAgree(c);
  }

  lemma AllOrSome(required: set<string>, valid: set<string>)
    ensures |required * valid| == |required| <==> forall m :: m in required ==> m in valid
    ensures |required * valid| >= 1 <==> exists m :: m in required && m in valid
  {
    if forall m :: m in required ==> m in valid {
      assert required * valid == required;
    } else {
      var m :| m in required && m !in valid;
      SubsetCardinality(required * valid, required - {m});
    }
    if m :| m in required && m in valid {
      assert m in required * valid;
    }
    if |required * valid| >= 1 {
      var m :| m in required * valid;
    }
  }

  lemma {:induction false} CountsOverlap(required: seq<string>, a: set<string>, b: set<string>)
    ensures CountIn(required, a) + CountIn(required, b) <= |required| + CountIn(required, a * b)
  {
    if required != [] {
      CountsOverlap(required[..|required| - 1], a, b);
    }
  }

  lemma {:induction false} CountedIsRequired(required: seq<string>, valid: set<string>)
    requires CountIn(required, valid) > 0
    ensures exists m :: m in required && m in valid
  {
    if required[|required| - 1] !in valid {
      CountedIsRequired(required[..|required| - 1], valid);
    }
  }

  /** Two sets of organisations that meet one majority policy share a required organisation, even if
      the policy lists some more than once. */
  lemma MajoritiesMeet(required: seq<string>, minEndorsers: int, a: set<string>, b: set<string>)
    requires PolicyHolds(Some(PolicyConfig("MAJORITY", required, minEndorsers)), a)
    requires PolicyHolds(Some(PolicyConfig("MAJORITY", required, minEndorsers)), b)
    ensures exists m :: m in required && m in a && m in b
  {
    CountsOverlap(required, a, b);
    CountedIsRequired(required, a * b);
  }

  /** n organisations, told apart by the lengths of their names. */
  ghost function SomeMSPs(n: nat): (r: set<string>)
    ensures |r| == n && forall m :: m in r ==> |m| < n
  {
    if n == 0 then {} else SomeMSPs(n - 1) + {seq(n - 1, i => 'x')}
  }

  /** The two evaluators agree on every set of organisations exactly for AND, OR and MAJORITY policies. */
  lemma EvaluatorsAgree(c: PolicyConfig)
    ensures (forall valid :: PolicyHolds(Some(c), valid)
                             <==> EndorsementPolicyHolds(c.policyType, c.requiredMSPs, valid))
            <==> c.policyType in ["AND", "OR", "MAJORITY"]
  {
    if c.policyType !in ["AND", "OR", "MAJORITY"] {
      var n := if c.minEndorsers < 1 then 1 else c.minEndorsers;
      var valid := SomeMSPs(n);
      assert PolicyHolds(Some(c), valid) && !EndorsementPolicyHolds(c.policyType, c.requiredMSPs, valid);
    }
  }

  /** The gateway's transparency check asks for two organisations, one of them not its own; the second
      half follows from the first. */
  method IsTransparencyPolicyMet(origin: string, mspIDs: seq<string>) returns (met: bool)
    ensures met <==> exists a, b :: a in mspIDs && b in mspIDs && a != "" && b != "" && a != b
  {
    if |mspIDs| == 0 {
      return false;
    }
    var distinct: set<string> := {};
    var hasIndependent := false;
    for i := 0 to |mspIDs|
      invariant distinct == (set m | m in mspIDs[..i] && m != "")
      invariant hasIndependent <==> exists m :: m in distinct && m != origin
    {
      assert mspIDs[..i + 1] == mspIDs[..i] + [mspIDs[i]];
      if mspIDs[i] == "" {
        continue;
      }
      distinct := distinct + {mspIDs[i]};
      if mspIDs[i] != origin {
        hasIndependent := true;
      }
    }
    assert mspIDs[..|mspIDs|] == mspIDs;
    met := |distinct| >= 2 && hasIndependent;
    TwoAreEnough(distinct, origin);
    assert forall m :: m in distinct <==> m in mspIDs && m != "";
  }

  lemma TwoAreEnough(s: set<string>, origin: string)
    ensures |s| >= 2 <==> exists a, b :: a in s && b in s && a != b
    ensures |s| >= 2 ==> exists m :: m in s && m != origin
  {
    if |s| >= 2 {
      var a :| a in s;
      assert |s - {a}| >= 1;
      var b :| b in s - {a};
      assert a != origin || b != origin;
    }
    if a, b :| a in s && b in s && a != b {
      SubsetCardinality({a, b}, s);
    }
  }

  /******* Certificates *******/

  /** What inspecting a certificate shows at verification time: its fingerprint, whether its dates are
      past or yet to come, and the organisations whose trusted CA it chains to, as of now and as of an
      hour after it became valid. */
  datatype Inspection =
    | Undecodable(rawHash: string)
    | Unparsable(fingerprint: string)
    | Certificate(fingerprint: string, expired: bool, chainsNow: set<string>, chainedThen: set<string>)

  datatype Verifier = Verifier(
    trusted: set<string>, policies: map<string, PolicyConfig>,
    checksRevocation: bool, allowsExpired: bool, inspect: string -> Inspection)

  datatype EndorsementError =
    | NoError | BadPEM | BadCertificate | ExpiredCertificate | BadChain | NoTrustedCA | BadFingerprint

  datatype EndorsementResult = EndorsementResult(
    mspID: string, endorserID: string, signatureValid: bool, certChainValid: bool,
    certExpired: bool, certRevoked: bool, error: EndorsementError)

  /** A verifier that allows expired certificates checks chains as of the earlier time. */
  predicate Chains(v: Verifier, cert: Inspection, mspID: string)
    requires cert.Certificate?
  {
    mspID in if v.allowsExpired then cert.chainedThen else cert.chainsNow
  }

  predicate Counts(e: EndorsementResult) {
    e.signatureValid && e.certChainValid && !e.certExpired && !e.certRevoked
  }

  /** The certificate belongs to the organisation: it matches its recorded fingerprint and chains to the
      organisation's CA, or, with no CA or no certificate, is recorded as chaining. */
  ghost predicate ChainOk(v: Verifier, e: Endorsement) {
    if e.certificatePEM == "" then e.certChainValid
    else
      var c := v.inspect(e.certificatePEM);
      && c.Certificate? && c.fingerprint == e.certFingerprint
      && if e.mspID in v.trusted then Chains(v, c, e.mspID) else e.certChainValid
  }

  ghost predicate ExpiredOf(v: Verifier, e: Endorsement) {
    e.certificatePEM != "" && v.inspect(e.certificatePEM).Certificate? && v.inspect(e.certificatePEM).expired
  }

  /** An endorsement counts when its recorded signature is good and its certificate, if the receipt
      carries one, is current and belongs to the organisation. */
  ghost predicate Endorses(v: Verifier, e: Endorsement) {
    e.signatureValid && !ExpiredOf(v, e) && ChainOk(v, e)
  }

  /** The last problem found is the one reported. */
  ghost function Problem(v: Verifier, e: Endorsement): EndorsementError {
    if e.certificatePEM == "" then NoError
    else
      match v.inspect(e.certificatePEM)
      case Undecodable(_) => BadPEM
      case Unparsable(_) => BadCertificate
      case Certificate(fingerprint, expired, _, _) =>
        if fingerprint != e.certFingerprint then BadFingerprint
        else if e.mspID !in v.trusted then NoTrustedCA
        else if expired && !v.allowsExpired then ExpiredCertificate
        else if !Chains(v, v.inspect(e.certificatePEM), e.mspID) then BadChain
        else NoError
  }

  method VerifyEndorsement(v: Verifier, e: Endorsement) returns (r: EndorsementResult)
    ensures r.mspID == e.mspID && r.endorserID == e.endorserID
    ensures r.error == Problem(v, e)
    ensures r.certExpired <==> ExpiredOf(v, e)
    ensures r.certChainValid <==> ChainOk(v, e)
    ensures r.signatureValid <==> e.signatureValid && r.error != BadPEM && r.error != BadCertificate
    ensures !r.certRevoked
    ensures Counts(r) <==> Endorses(v, e)
  {
    var signatureValid, chainValid, expired, revoked := false, false, false, false;
    var error := NoError;
    if e.certificatePEM != "" {
      var cert := v.inspect(e.certificatePEM);
      if cert.Undecodable? {
        return EndorsementResult(e.mspID, e.endorserID, false, false, false, false, BadPEM);
      }
      if cert.Unparsable? {
        return EndorsementResult(e.mspID, e.endorserID, false, false, false, false, BadCertificate);
      }
      if cert.expired {
        expired := true;
        if !v.allowsExpired {
          error := ExpiredCertificate;
        }
      }
      if e.mspID in v.trusted {
        chainValid := Chains(v, cert, e.mspID);
        if !chainValid && error == NoError {
          error := BadChain;
        }
      } else {
        chainValid := e.certChainValid;
        error := NoTrustedCA;
      }
      if e.certFingerprint != cert.fingerprint {
        error := BadFingerprint;
        chainValid := false;
      }
      signatureValid := e.signatureValid;
    } else {
      signatureValid := e.signatureValid;
      chainValid := e.certChainValid;
    }
    if v.checksRevocation && chainValid {
      // The revocation check is a placeholder that answers no.
      revoked := false;
    }
    r := EndorsementResult(e.mspID, e.endorserID, signatureValid, chainValid, expired, revoked, error);
  }

  /** Allowing expired certificates makes no expired one count, and no other one either unless its
      chain broke since it was issued. */
  lemma AllowingExpiredChangesLittle(v: Verifier, e: Endorsement)
    ensures ExpiredOf(v, e) ==> !Endorses(v.(allowsExpired := true), e) && !Endorses(v.(allowsExpired := false), e)
    ensures Endorses(v.(allowsExpired := true), e) && !Endorses(v.(allowsExpired := false), e) ==>
              && e.certificatePEM != "" && !v.inspect(e.certificatePEM).expired
              && e.mspID in v.inspect(e.certificatePEM).chainedThen - v.inspect(e.certificatePEM).chainsNow
  {
  }

  /******* The verdict *******/

  datatype VerifyError =
    | HashMismatch | WrongCommitment | BadOpening | NotCommitted | PolicyNotMet | NoEndorsements

  datatype Warning = MissingOpening | LedgerFallback | BlockZero

  datatype Verdict = Verdict(
    valid: bool, errors: seq<VerifyError>, warnings: seq<Warning>,
    receiptHashValid: bool, commitmentHashMatch: bool, commitmentOpeningValid: bool,
    validationCodeValid: bool, policySatisfied: bool, results: seq<EndorsementResult>)

  ghost function ValidMSPs(v: Verifier, r: Receipt): set<string> {
    set e | e in r.endorsements && Endorses(v, e) :: e.mspID
  }

  ghost predicate PolicySatisfied(v: Verifier, r: Receipt) {
    PolicyHolds(if r.policyID in v.policies then Some(v.policies[r.policyID]) else None, ValidMSPs(v, r))
  }

  /** A committed transaction is trusted without crypto proof only if the receipt carries no proof at
      all, good or bad. */
  ghost predicate Fallback(r: Receipt) {
    && r.validationCode == 0 && r.endorsements != []
    && forall e :: e in r.endorsements ==> e.certificatePEM == "" && !e.signatureValid && !e.certChainValid
  }

  /** The conditions of a valid receipt. */
  ghost predicate Acceptable(v: Verifier, r: Receipt, expected: Option<Digest>) {
    && HashOk(r)
    && (expected.Some? ==> r.commitmentHash == expected.value)
    && OpeningOk(r)
    && r.validationCode == 0
    && r.endorsements != []
    && (PolicySatisfied(v, r) || Fallback(r))
  }

  method CanTrustLedgerValidationFallback(r: Receipt, results: seq<EndorsementResult>) returns (ok: bool)
    ensures ok <==> Fallback(r) && forall i :: 0 <= i < |results| ==> !Counts(results[i])
  {
    if r.validationCode != 0 || |r.endorsements| == 0 {
      return false;
    }
    for i := 0 to |results|
      invariant forall j :: 0 <= j < i ==> !Counts(results[j])
    {
      if Counts(results[i]) {
        return false;
      }
    }
    for i := 0 to |r.endorsements|
      invariant forall j :: 0 <= j < i ==>
                  && r.endorsements[j].certificatePEM == ""
                  && !r.endorsements[j].signatureValid && !r.endorsements[j].certChainValid
    {
      var e := r.endorsements[i];
      if e.certificatePEM != "" || e.signatureValid || e.certChainValid {
        return false;
      }
    }
    return true;
  }

  /** The loop over the endorsements. */
  method VerifyEndorsements(v: Verifier, r: Receipt) returns (results: seq<EndorsementResult>, valid: set<string>)
    ensures |results| == |r.endorsements|
    ensures forall i :: 0 <= i < |results| ==>
              results[i].mspID == r.endorsements[i].mspID && (Counts(results[i]) <==> Endorses(v, r.endorsements[i]))
    ensures valid == ValidMSPs(v, r)
  {
    results, valid := [], {};
    for i := 0 to |r.endorsements|
      invariant |results| == i
      invariant forall j :: 0 <= j < i ==>
                  results[j].mspID == r.endorsements[j].mspID
                  && (Counts(results[j]) <==> Endorses(v, r.endorsements[j]))
      invariant valid == set e | e in r.endorsements[..i] && Endorses(v, e) :: e.mspID
    {
      assert r.endorsements[..i + 1] == r.endorsements[..i] + [r.endorsements[i]];
      var result := VerifyEndorsement(v, r.endorsements[i]);
      results := results + [result];
      if result.signatureValid && result.certChainValid && !result.certExpired && !result.certRevoked {
        valid := valid + {r.endorsements[i].mspID};
      }
    }
    assert r.endorsements[..|r.endorsements|] == r.endorsements;
  }

  /** The errors found in the receipt itself, each exactly when its condition fails, in this order. */
  function ContentReport(r: Receipt, expected: Option<Digest>): seq<VerifyError> {
    (if HashOk(r) then [] else [HashMismatch])
    + (if expected.Some? && r.commitmentHash != expected.value then [WrongCommitment] else [])
    + (if OpeningOk(r) then [] else [BadOpening])
    + (if r.validationCode == 0 then [] else [NotCommitted])
  }

  /** The errors found in its endorsements. */
  function PolicyReport(satisfied: bool, endorsed: bool): seq<VerifyError> {
    (if satisfied then [] else [PolicyNotMet]) + (if endorsed then [] else [NoEndorsements])
  }

  /** The errors a verdict reports. */
  ghost function Report(v: Verifier, r: Receipt, expected: Option<Digest>): seq<VerifyError> {
    ContentReport(r, expected) + PolicyReport(PolicySatisfied(v, r) || Fallback(r), r.endorsements != [])
  }

  /** The warnings, in order; the fallback warns only where the policy alone would have failed. */
  ghost function Warnings(v: Verifier, r: Receipt): seq<Warning> {
    (if r.commitmentOpening.Some? then [] else [MissingOpening])
    + (if !PolicySatisfied(v, r) && Fallback(r) then [LedgerFallback] else [])
    + (if r.blockNumber == 0 then [BlockZero] else [])
  }

  /** The checks of hash, expected hash, opening and validation code. */
  method VerifyContent(r: Receipt, expected: Option<Digest>)
    returns (ok: bool, errors: seq<VerifyError>, warnings: seq<Warning>, hashValid: bool, matches: bool,
             openingValid: bool)
    ensures errors == ContentReport(r, expected)
    ensures ok <==> errors == []
    ensures warnings == if r.commitmentOpening.Some? then [] else [MissingOpening]
    ensures hashValid <==> HashOk(r)
    ensures matches <==> expected.Some? && r.commitmentHash == expected.value
    ensures openingValid <==> r.commitmentOpening.Some? && OpeningOk(r)
  {
    ok, errors, warnings := true, [], [];
    hashValid := HashOk(r);
    if !hashValid {
      ok := false;
      errors := errors + [HashMismatch];
    }
    ghost var first := if HashOk(r) then [] else [HashMismatch];
    assert errors == first;
    matches := expected.Some? && r.commitmentHash == expected.value;
    if expected.Some? && !matches {
      ok := false;
      errors := errors + [WrongCommitment];
    }
    ghost var second := first + if expected.Some? && r.commitmentHash != expected.value then [WrongCommitment] else [];
    assert errors == second;
    openingValid := false;
    if r.commitmentOpening.Some? {
      openingValid := OfCommitment(r.commitmentOpening.value) == r.commitmentHash;
      if !openingValid {
        ok := false;
        errors := errors + [BadOpening];
      }
    } else {
      warnings := warnings + [MissingOpening];
    }
    assert errors == second + if OpeningOk(r) then [] else [BadOpening];
    if r.validationCode != 0 {
      ok := false;
      errors := errors + [NotCommitted];
    }
  }

  /** The checks of the endorsements, the policy and the ledger fallback. */
  method VerifyProof(v: Verifier, r: Receipt)
    returns (ok: bool, errors: seq<VerifyError>, fellBack: bool, satisfied: bool, results: seq<EndorsementResult>)
    ensures ok <==> errors == []
    ensures errors == PolicyReport(PolicySatisfied(v, r) || Fallback(r), r.endorsements != [])
    ensures fellBack <==> !PolicySatisfied(v, r) && Fallback(r)
    ensures satisfied <==> PolicySatisfied(v, r) || Fallback(r)
    ensures |results| == |r.endorsements|
    ensures forall i :: 0 <= i < |results| ==>
              results[i].mspID == r.endorsements[i].mspID && (Counts(results[i]) <==> Endorses(v, r.endorsements[i]))
  {
    var valid;
    results, valid := VerifyEndorsements(v, r);
    satisfied := VerifyPolicy(v.policies, r.policyID, valid);
    ok, errors, fellBack := true, [], false;
    if !satisfied {
      FallbackMeansNoneCounts(v, r);
      fellBack := CanTrustLedgerValidationFallback(r, results);
      satisfied := fellBack;
    }
    if !satisfied {
      ok := false;
      errors := errors + [PolicyNotMet];
    }
    if |r.endorsements| == 0 {
      ok := false;
      errors := errors + [NoEndorsements];
    }
  }

  /** A verdict is valid exactly when it reports no error, which is exactly when every condition
      holds. */
  method VerifyReceipt(v: Verifier, r: Receipt, expected: Option<Digest>) returns (d: Verdict)
    ensures d.errors == Report(v, r, expected)
    ensures d.valid <==> d.errors == []
    ensures d.valid <==> Acceptable(v, r, expected)
    ensures d.warnings == Warnings(v, r)
    ensures d.policySatisfied <==> PolicySatisfied(v, r) || Fallback(r)
    ensures d.receiptHashValid <==> HashOk(r)
    ensures d.commitmentHashMatch <==> expected.Some? && r.commitmentHash == expected.value
    ensures d.commitmentOpeningValid <==> r.commitmentOpening.Some? && OpeningOk(r)
    ensures d.validationCodeValid <==> r.validationCode == 0
    ensures |d.results| == |r.endorsements|
    ensures forall i :: 0 <= i < |d.results| ==>
              d.results[i].mspID == r.endorsements[i].mspID && (Counts(d.results[i]) <==> Endorses(v, r.endorsements[i]))
  {
    var sound, found, warnings, hashValid, matches, openingValid := VerifyContent(r, expected);
    var proved, more, fellBack, satisfied, results := VerifyProof(v, r);
    if fellBack {
      warnings := warnings + [LedgerFallback];
    }
    if r.blockNumber == 0 {
      warnings := warnings + [BlockZero];
    }
    EmptyReport(v, r, expected);
    d := Verdict(sound && proved, found + more, warnings, hashValid, matches, openingValid,
                 r.validationCode == 0, satisfied, results);
  }

  lemma EmptyReport(v: Verifier, r: Receipt, expected: Option<Digest>)
    ensures Report(v, r, expected) == [] <==> Acceptable(v, r, expected)
  {
    var satisfied, endorsed := PolicySatisfied(v, r) || Fallback(r), r.endorsements != [];
    assert PolicyReport(satisfied, endorsed) == [] <==> satisfied && endorsed;
    assert ContentReport(r, expected) == [] <==>
           HashOk(r) && (expected.Some? ==> r.commitmentHash == expected.value) && OpeningOk(r)
           && r.validationCode == 0;
  }

  /** The fallback applies only when no endorsement counts. */
  lemma FallbackMeansNoneCounts(v: Verifier, r: Receipt)
    ensures Fallback(r) ==> ValidMSPs(v, r) == {}
    ensures Fallback(r) ==> forall i :: 0 <= i < |r.endorsements| ==> !Endorses(v, r.endorsements[i])
  {
  }

  /******* What the hash protects *******/

  /** A changed receipt that carries the hash of a good one passes the hash check exactly when none of
      the hashed fields changed. */
  lemma SameHash(r: Receipt, s: Receipt)
    requires HashOk(r) && s.receiptHash == r.receiptHash
    ensures HashOk(s) <==> Content(s) == Content(r)
  {
  }

  /** The fields the hash leaves open, all at once: changing any of them goes unnoticed. */
  lemma UnprotectedFields(v: Verifier, r: Receipt, expected: Option<Digest>, chaincodeID: string, txIndex: int,
                          name: string, endpoint: string, ref: string, signature: string)
    ensures var s := r.(chaincodeID := chaincodeID, txIndex := txIndex, validationCodeName := name,
                        statusEndpoint := endpoint, internalRef := ref, receiptSignature := signature);
            Acceptable(v, s, expected) <==> Acceptable(v, r, expected)
  {
    var s := r.(chaincodeID := chaincodeID, txIndex := txIndex, validationCodeName := name,
                statusEndpoint := endpoint, internalRef := ref, receiptSignature := signature);
    assert ValidMSPs(v, s) == ValidMSPs(v, r);
  }

  /******* Building a receipt *******/

  datatype Builder = Builder(channelID: string, chaincodeID: string, statusEndpoint: string, includeFullCerts: bool)

  /** A zero time is None. */
  datatype EndorsementInput = EndorsementInput(
    mspID: string, endorserID: string, certPEM: string, signatureHex: string, timestamp: Option<int>,
    signatureValid: bool, certChainValid: bool)

  /** Times are in milliseconds. */
  datatype BuildInput = BuildInput(
    txID: string, commitmentHash: Digest, commitmentOpening: Option<TransferCommitment>,
    blockNumber: nat, blockHash: string, txIndex: int, validationCode: int,
    endorsements: seq<EndorsementInput>, originMSPID: string, policyID: string, policyMet: bool,
    internalRef: string, clientSubmit: int, endorsementTime: int, commitTime: int)

  const SCHEMA_VERSION := "v1"
  const COMMITMENT_ALGORITHM := "sha256(json-transfer-commitment-v1)"
  const ANCHOR_TYPE := "fabric_block_header_hash"

  /** The fingerprint of a certificate: the hash of its DER bytes, or of the raw bytes if they are not
      PEM. */
  function Fingerprint(inspection: Inspection): string {
    match inspection
    case Undecodable(rawHash) => rawHash
    case Unparsable(fingerprint) => fingerprint
    case Certificate(fingerprint, _, _, _) => fingerprint
  }

  /** What a receipt records of an endorsement. */
  predicate Records(record: Endorsement, e: EndorsementInput, inspect: string -> Inspection, full: bool) {
    && record.mspID == e.mspID && record.endorserID == e.endorserID && record.signatureHex == e.signatureHex
    && record.signatureValid == e.signatureValid && record.certChainValid == e.certChainValid
    && record.timestamp == (if e.timestamp.Some? then e.timestamp.value else 0)
    && record.certFingerprint == (if e.certPEM == "" then "" else Fingerprint(inspect(e.certPEM)))
    && record.certificatePEM == (if full then e.certPEM else "")
  }

  /** The receipt's other fields are copied from the builder and the input. */
  predicate Describes(r: Receipt, b: Builder, input: BuildInput, now: int, codeName: string) {
    && r.schemaVersion == SCHEMA_VERSION && r.commitmentAlgorithm == COMMITMENT_ALGORITHM
    && r.channelID == b.channelID && r.chaincodeID == b.chaincodeID && r.statusEndpoint == b.statusEndpoint
    && r.txID == input.txID && r.commitmentHash == input.commitmentHash
    && r.commitmentOpening == input.commitmentOpening
    && r.blockNumber == input.blockNumber && r.blockHash == input.blockHash && r.txIndex == input.txIndex
    && r.validationCode == input.validationCode && r.validationCodeName == codeName
    && r.originMSPID == input.originMSPID && r.policyID == input.policyID && r.policyMet == input.policyMet
    && r.internalRef == input.internalRef && r.receiptSignature == ""
    && r.timestamps == Timestamps(input.clientSubmit, input.endorsementTime, 0, input.commitTime, now)
    && r.observation == Observation(now, ANCHOR_TYPE, input.blockHash)
  }

  /** One record per endorsement, in order, and a hash that covers them. */
  method Build(b: Builder, input: BuildInput, inspect: string -> Inspection, now: int, codeName: string)
    returns (r: Receipt)
    ensures HashOk(r) && Describes(r, b, input, now, codeName)
    ensures |r.endorsements| == |input.endorsements|
    ensures forall i :: 0 <= i < |r.endorsements| ==>
              Records(r.endorsements[i], input.endorsements[i], inspect, b.includeFullCerts)
  {
    var records := [];
    for i := 0 to |input.endorsements|
      invariant |records| == i
      invariant forall j :: 0 <= j < i ==> Records(records[j], input.endorsements[j], inspect, b.includeFullCerts)
    {
      var e := input.endorsements[i];
      var fingerprint, pem, timestamp := "", "", 0;
      if e.certPEM != "" {
        fingerprint := Fingerprint(inspect(e.certPEM));
        if b.includeFullCerts {
          pem := e.certPEM;
        }
      }
      if e.timestamp.Some? {
        timestamp := e.timestamp.value;
      }
      records := records + [Endorsement(e.mspID, e.endorserID, fingerprint, pem, e.signatureHex, timestamp,
                                        e.signatureValid, e.certChainValid)];
    }
    var draft := Receipt(
      SCHEMA_VERSION, b.channelID, input.txID, b.chaincodeID,
      input.commitmentHash, input.commitmentOpening, COMMITMENT_ALGORITHM,
      input.blockNumber, input.blockHash, input.txIndex, input.validationCode, codeName,
      records, input.originMSPID, input.policyID, input.policyMet,
      Timestamps(input.clientSubmit, input.endorsementTime, 0, input.commitTime, now),
      b.statusEndpoint, Observation(now, ANCHOR_TYPE, input.blockHash),
      input.internalRef, "", OtherDigest(""));
    r := draft.(receiptHash := OfReceipt(Content(draft)));
  }

  /** The organisations that vouch for an input as a verifier sees it: with full certificates on the
      receipt the certificate decides, without them the record does. */
  ghost predicate Vouches(v: Verifier, e: EndorsementInput, full: bool) {
    && e.signatureValid
    && if full && e.certPEM != "" then
         var c := v.inspect(e.certPEM);
         c.Certificate? && !c.expired && if e.mspID in v.trusted then Chains(v, c, e.mspID) else e.certChainValid
       else e.certChainValid
  }

  /** A freshly built receipt: the fingerprint check never fails, so its verdict depends on the input
      alone. */
  lemma BuiltVerdict(v: Verifier, r: Receipt, b: Builder, input: BuildInput, now: int, codeName: string,
                     expected: Option<Digest>)
    requires HashOk(r) && Describes(r, b, input, now, codeName)
    requires |r.endorsements| == |input.endorsements|
    requires forall i :: 0 <= i < |r.endorsements| ==>
               Records(r.endorsements[i], input.endorsements[i], v.inspect, b.includeFullCerts)
    ensures ValidMSPs(v, r) == set e | e in input.endorsements && Vouches(v, e, b.includeFullCerts) :: e.mspID
    ensures Fallback(r) <==>
            && input.validationCode == 0 && input.endorsements != []
            && forall e :: e in input.endorsements ==>
                 !e.signatureValid && !e.certChainValid && (b.includeFullCerts ==> e.certPEM == "")
  {
    forall i | 0 <= i < |r.endorsements|
      ensures Endorses(v, r.endorsements[i]) <==> Vouches(v, input.endorsements[i], b.includeFullCerts)
    {
      assert Records(r.endorsements[i], input.endorsements[i], v.inspect, b.includeFullCerts);
    }
    BuiltMSPs(v, r, input.endorsements, b.includeFullCerts);
    BuiltFallback(v.inspect, r, input.endorsements, b.includeFullCerts);
  }

  lemma BuiltMSPs(v: Verifier, r: Receipt, inputs: seq<EndorsementInput>, full: bool)
    requires |r.endorsements| == |inputs|
    requires forall i :: 0 <= i < |inputs| ==>
               r.endorsements[i].mspID == inputs[i].mspID && (Endorses(v, r.endorsements[i]) <==> Vouches(v, inputs[i], full))
    ensures ValidMSPs(v, r) == set e | e in inputs && Vouches(v, e, full) :: e.mspID
  {
    var vouched := set e | e in inputs && Vouches(v, e, full) :: e.mspID;
    forall m | m in ValidMSPs(v, r)
      ensures m in vouched
    {
      var i :| 0 <= i < |inputs| && Endorses(v, r.endorsements[i]) && r.endorsements[i].mspID == m;
      assert inputs[i] in inputs;
    }
    forall m | m in vouched
      ensures m in ValidMSPs(v, r)
    {
      var i :| 0 <= i < |inputs| && Vouches(v, inputs[i], full) && inputs[i].mspID == m;
      assert r.endorsements[i] in r.endorsements;
    }
  }

  lemma BuiltFallback(inspect: string -> Inspection, r: Receipt, inputs: seq<EndorsementInput>, full: bool)
    requires |r.endorsements| == |inputs|
    requires forall i :: 0 <= i < |inputs| ==> Records(r.endorsements[i], inputs[i], inspect, full)
    ensures Fallback(r) <==>
            && r.validationCode == 0 && inputs != []
            && forall e :: e in inputs ==>
                 !e.signatureValid && !e.certChainValid && (full ==> e.certPEM == "")
  {
    if Fallback(r) {
      forall e | e in inputs
        ensures !e.signatureValid && !e.certChainValid && (full ==> e.certPEM == "")
      {
        var i :| 0 <= i < |inputs| && inputs[i] == e;
        assert r.endorsements[i] in r.endorsements;
      }
    } else if r.validationCode == 0 && r.endorsements != [] {
      var i :| 0 <= i < |inputs| && !(r.endorsements[i].certificatePEM == ""
                                      && !r.endorsements[i].signatureValid && !r.endorsements[i].certChainValid);
      assert inputs[i] in inputs && Records(r.endorsements[i], inputs[i], inspect, full);
    }
  }

  /******* Rebuilding a receipt from the ledger *******/

  /** A receipt built anew takes over parts of the one it replaces after its hash was computed. */
  function TakeOver(built: Receipt, existing: Receipt): Receipt {
    built.(
    receiptSignature := existing.receiptSignature,
    commitmentAlgorithm :=
      if existing.commitmentAlgorithm != "" then existing.commitmentAlgorithm else built.commitmentAlgorithm,
    observation :=
      if existing.observation.observedAt > 0 || existing.observation.anchorRef != ""
         || existing.observation.anchorType != "" then existing.observation
      else built.observation,
    timestamps := built.timestamps.(ordererReceive := existing.timestamps.ordererReceive))
  }

  /** A rebuilt receipt passes the hash check exactly when nothing it took over differs from what was
      hashed: it fails, for one, whenever the old receipt was observed at another time. */
  lemma RebuiltHash(b: Builder, input: BuildInput, built: Receipt, existing: Receipt, now: int, codeName: string)
    requires HashOk(built) && Describes(built, b, input, now, codeName)
    ensures HashOk(TakeOver(built, existing)) <==>
            && existing.timestamps.ordererReceive == 0
            && (existing.commitmentAlgorithm == "" || existing.commitmentAlgorithm == COMMITMENT_ALGORITHM)
            && ((existing.observation.observedAt <= 0 && existing.observation.anchorRef == ""
                 && existing.observation.anchorType == "")
                || existing.observation == Observation(now, ANCHOR_TYPE, input.blockHash))
  {
    var s := TakeOver(built, existing);
    SameHash(built, s);
  }

  /******* The API's copy of a receipt *******/

  datatype ReceiptDTO = ReceiptDTO(
    schemaVersion: string, channelID: string, txID: string, chaincodeID: string,
    commitmentHash: Digest, commitmentOpening: Option<TransferCommitment>, commitmentAlgorithm: string,
    blockNumber: nat, blockHash: string, txIndex: int,
    validationCode: int, validationCodeName: string,
    endorsements: seq<Endorsement>, originMSPID: string, policyID: string, policyMet: bool,
    timestamps: Timestamps, statusEndpoint: string, observation: Observation,
    internalRef: string, receiptHash: Digest)

  /** What a client sees of a receipt: all of it but the gateway's signature. */
  predicate SameView(dto: ReceiptDTO, r: Receipt) {
    && dto.schemaVersion == r.schemaVersion && dto.channelID == r.channelID && dto.txID == r.txID
    && dto.chaincodeID == r.chaincodeID && dto.commitmentHash == r.commitmentHash
    && dto.commitmentOpening == r.commitmentOpening && dto.commitmentAlgorithm == r.commitmentAlgorithm
    && dto.blockNumber == r.blockNumber && dto.blockHash == r.blockHash && dto.txIndex == r.txIndex
    && dto.validationCode == r.validationCode && dto.validationCodeName == r.validationCodeName
    && dto.endorsements == r.endorsements && dto.originMSPID == r.originMSPID && dto.policyID == r.policyID
    && dto.policyMet == r.policyMet && dto.timestamps == r.timestamps && dto.statusEndpoint == r.statusEndpoint
    && dto.observation == r.observation && dto.internalRef == r.internalRef && dto.receiptHash == r.receiptHash
  }

  method ReceiptToDTO(r: Receipt) returns (dto: ReceiptDTO)
    ensures SameView(dto, r)
  {
    var endorsements := [];
    for i := 0 to |r.endorsements|
      invariant endorsements == r.endorsements[..i]
    {
      var e := r.endorsements[i];
      endorsements := endorsements + [Endorsement(e.mspID, e.endorserID, e.certFingerprint, e.certificatePEM,
                                                  e.signatureHex, e.timestamp, e.signatureValid, e.certChainValid)];
    }
    dto := ReceiptDTO(
      r.schemaVersion, r.channelID, r.txID, r.chaincodeID, r.commitmentHash, r.commitmentOpening,
      r.commitmentAlgorithm, r.blockNumber, r.blockHash, r.txIndex, r.validationCode, r.validationCodeName,
      endorsements, r.originMSPID, r.policyID, r.policyMet, r.timestamps, r.statusEndpoint, r.observation,
      r.internalRef, r.receiptHash);
  }

  method DTOToReceipt(dto: ReceiptDTO) returns (r: Receipt)
    ensures SameView(dto, r) && r.receiptSignature == ""
  {
    var endorsements := [];
    for i := 0 to |dto.endorsements|
      invariant endorsements == dto.endorsements[..i]
    {
      var e := dto.endorsements[i];
      endorsements := endorsements + [Endorsement(e.mspID, e.endorserID, e.certFingerprint, e.certificatePEM,
                                                  e.signatureHex, e.timestamp, e.signatureValid, e.certChainValid)];
    }
    r := Receipt(
      dto.schemaVersion, dto.channelID, dto.txID, dto.chaincodeID, dto.commitmentHash, dto.commitmentOpening,
      dto.commitmentAlgorithm, dto.blockNumber, dto.blockHash, dto.txIndex, dto.validationCode,
      dto.validationCodeName, endorsements, dto.originMSPID, dto.policyID, dto.policyMet, dto.timestamps,
      dto.statusEndpoint, dto.observation, dto.internalRef, "", dto.receiptHash);
  }

  /** A receipt that went out to a client and came back differs at most in its signature, and every
      verdict on it is the verdict on the original. */
  lemma RoundTrip(v: Verifier, r: Receipt, dto: ReceiptDTO, back: Receipt, expected: Option<Digest>)
    requires SameView(dto, r)
    requires SameView(dto, back) && back.receiptSignature == ""
    ensures back == r.(receiptSignature := "")
    ensures Report(v, back, expected) == Report(v, r, expected)
    ensures HashOk(back) <==> HashOk(r)
  {
    assert Content(back) == Content(r);
    assert ValidMSPs(v, back) == ValidMSPs(v, r);
  }
}
