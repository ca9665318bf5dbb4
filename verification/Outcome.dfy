/**
 Binding rules of signature verification (verifier/outcome.go): facts about a signature, a trust
 policy and a claim decide the outcome.  Regular expressions are an arbitrary matching predicate.
 */
module Outcome {

  datatype TrustMode = Unset | Public | TufMirror | StaticBundle

  datatype Constraint = Constraint(issuer: string, subjectPattern: string)

  /** Times are in seconds. */
  datatype Config = Config(mode: TrustMode, source: string, identities: seq<Constraint>, cacheTtl: int)

  const DEFAULT_TTL := 24 * 3600
  const ERROR_TTL := 60

  datatype Claim = Claim(identity: string, ref: string, digest: string)

  datatype Findings = Findings(
    chainValid: bool,
    chainErr: string,
    errClass: string,
    identity: string,
    issuer: string,
    rekorProven: bool,
    subjectName: string,
    rootDigest: string)

  datatype Verdict = Verified | Unconstrained | Failed | IdentityMismatch | SubjectNameMismatch | DigestMismatch | Error

  datatype Ruling = Ruling(verdict: Verdict, reason: string, subjectNameMismatch: bool, facts: Findings, at: int)

  /** Pattern, subject: whether the pattern compiles and matches. */
  type Matcher = (string, string) -> bool

  predicate Satisfies(m: Matcher, c: Constraint, issuer: string, san: string) {
    (c.issuer == "" || c.issuer == issuer) && (c.subjectPattern == "" || m(c.subjectPattern, san))
  }

  predicate Acceptable(m: Matcher, constraints: seq<Constraint>, issuer: string, san: string) {
    exists c :: c in constraints && Satisfies(m, c, issuer, san)
  }

  method IdentityMatches(m: Matcher, constraints: seq<Constraint>, issuer: string, san: string) returns (ok: bool)
    ensures ok <==> exists i :: 0 <= i < |constraints| &&
                      (constraints[i].issuer == "" || constraints[i].issuer == issuer) &&
                      (constraints[i].subjectPattern == "" || m(constraints[i].subjectPattern, san))
  {
    for i := 0 to |constraints|
      invariant forall j :: 0 <= j < i ==> !Satisfies(m, constraints[j], issuer, san)
    {
      var c := constraints[i];
      if c.issuer != "" && c.issuer != issuer {
        continue;
      }
      if c.subjectPattern != "" && !m(c.subjectPattern, san) {
        continue;
      }
      assert Satisfies(m, c, issuer, san);
      return true;
    }
    return false;
  }

  const SHA256 := "sha256:"

  predicate DigestEqual(declared: string, root: string) { declared == root || SHA256 + declared == root }

  /** A trust root other than the public one, or a list of identities, binds the signer. */
  predicate Constrained(cfg: Config) {
    cfg.mode.TufMirror? || cfg.mode.StaticBundle? || cfg.identities != []
  }

  function Decide(m: Matcher, cfg: Config, c: Claim, f: Findings, now: int): Ruling {
    if f.errClass != "" then Ruling(Error, f.errClass, false, f, now)
    else if !f.chainValid then Ruling(Failed, f.chainErr, false, f, now)
    else if !f.rekorProven then Ruling(Failed, "rekor-inclusion-not-proven", false, f, now)
    else if cfg.identities != [] && !Acceptable(m, cfg.identities, f.issuer, f.identity)
      then Ruling(IdentityMismatch, "", false, f, now)
    else if !Constrained(cfg) then Ruling(Unconstrained, "", false, f, now)
    else if c.digest != "" && !DigestEqual(c.digest, f.rootDigest) then Ruling(DigestMismatch, "", false, f, now)
    else if f.subjectName != c.identity && c.digest == "" then Ruling(SubjectNameMismatch, "", false, f, now)
    else Ruling(Verified, "", f.subjectName != c.identity, f, now)
  }

  /** The signature and the log entry hold. */
  ghost predicate Chained(f: Findings) { f.errClass == "" && f.chainValid && f.rekorProven }

  /** Some listed constraint names the issuer, or any, and a pattern the subject matches, or none. */
  ghost predicate Admits(m: Matcher, cfg: Config, f: Findings) {
    exists i :: 0 <= i < |cfg.identities| &&
      (cfg.identities[i].issuer == "" || cfg.identities[i].issuer == f.issuer) &&
      (cfg.identities[i].subjectPattern == "" || m(cfg.identities[i].subjectPattern, f.identity))
  }

  lemma AdmitsAccepts(m: Matcher, cfg: Config, f: Findings)
    ensures Admits(m, cfg, f) <==> Acceptable(m, cfg.identities, f.issuer, f.identity)
  {
    var ids := cfg.identities;
    if Admits(m, cfg, f) {
      var i :| 0 <= i < |ids| && (ids[i].issuer == "" || ids[i].issuer == f.issuer) &&
               (ids[i].subjectPattern == "" || m(ids[i].subjectPattern, f.identity));
      assert ids[i] in ids && Satisfies(m, ids[i], f.issuer, f.identity);
    }
    if Acceptable(m, ids, f.issuer, f.identity) {
      var c :| c in ids && Satisfies(m, c, f.issuer, f.identity);
      var i :| 0 <= i < |ids| && ids[i] == c;
    }
  }

  /** The signer is bound: by a listed constraint, or without a list by a trust root of one's own. */
  ghost predicate SignerBound(m: Matcher, cfg: Config, f: Findings) {
    if cfg.identities != [] then Admits(m, cfg, f) else cfg.mode == TufMirror || cfg.mode == StaticBundle
  }

  ghost predicate DigestHolds(c: Claim, f: Findings) {
    c.digest == f.rootDigest || "sha256:" + c.digest == f.rootDigest
  }

  /** Which verdict is given when.  Verified means the whole chain held: signed, logged, signer bound,
      and the digest, or without one the name, corresponds. */
  lemma VerdictExactly(m: Matcher, cfg: Config, c: Claim, f: Findings, now: int)
    ensures
      var v := Decide(m, cfg, c, f, now).verdict;
      && (v.Error? <==> f.errClass != "")
      && (v.Failed? <==> f.errClass == "" && !(f.chainValid && f.rekorProven))
      && (v.IdentityMismatch? <==> Chained(f) && cfg.identities != [] && !Admits(m, cfg, f))
      && (v.Unconstrained? <==> Chained(f) && cfg.identities == [] && (cfg.mode == Unset || cfg.mode == Public))
      && (v.DigestMismatch? <==> Chained(f) && SignerBound(m, cfg, f) && c.digest != "" && !DigestHolds(c, f))
      && (v.SubjectNameMismatch? <==>
            Chained(f) && SignerBound(m, cfg, f) && c.digest == "" && f.subjectName != c.identity)
      && (v.Verified? <==>
            && Chained(f) && SignerBound(m, cfg, f)
            && if c.digest != "" then DigestHolds(c, f) else f.subjectName == c.identity)
  {
    AdmitsAccepts(m, cfg, f);
  }

  /** The rest of a ruling: its reason, the name noted on a renamed model, the facts and the time. */
  lemma RulingExactly(m: Matcher, cfg: Config, c: Claim, f: Findings, now: int)
    ensures
      var r := Decide(m, cfg, c, f, now);
      && r.facts == f && r.at == now
      && (r.subjectNameMismatch <==> r.verdict.Verified? && f.subjectName != c.identity)
      && (r.verdict.Error? ==> r.reason == f.errClass)
      && (r.verdict.Failed? ==> r.reason == if f.chainValid then "rekor-inclusion-not-proven" else f.chainErr)
      && (!r.verdict.Error? && !r.verdict.Failed? ==> r.reason == "")
  {
  }

  /** Some signer satisfies the policy, so that what was signed is looked at. */
  ghost predicate Binding(m: Matcher, cfg: Config, issuer: string, san: string) {
    Constrained(cfg) && (cfg.identities != [] ==> Acceptable(m, cfg.identities, issuer, san))
  }

  /** Findings that gathering can give: a failure alone, an invalid chain alone, or a valid chain,
      whose inclusion in the log is then proven, with no root digest or a prefixed one. */
  predicate Producible(f: Findings) {
    if f.errClass != "" then f == Findings(false, "", f.errClass, "", "", false, "", "")
    else if !f.chainValid then f == Findings(false, f.chainErr, "", "", "", false, "", "")
    else f.chainErr == "" && f.rekorProven && (f.rootDigest == "" || (SHA256 <= f.rootDigest && f.rootDigest != SHA256))
  }

  /** Findings of a valid chain. */
  function Signed(issuer: string, san: string, subject: string, root: string): Findings {
    Findings(true, "", "", san, issuer, true, subject, root)
  }

  /** A root digest that matches exactly one of two declared ones. */
  lemma TellingRoot(a: string, b: string) returns (d: string)
    requires a != "" && b != "" && a != b
    ensures d != "" && DigestEqual(a, SHA256 + d) != DigestEqual(b, SHA256 + d)
  {
    d := if b == SHA256 + a then b else a;
    assert |SHA256 + (SHA256 + a)| > |a|;
    assert (SHA256 + a)[|SHA256|..] == a && (SHA256 + b)[|SHA256|..] == b;
  }

  /** Two claims get the same answer on all findings that can be gathered exactly when they declare
      the same identity and the same digest, under every policy that some signer satisfies. */
  lemma ClaimsDistinguished(m: Matcher, cfg: Config, a: Claim, b: Claim, issuer: string, san: string, now: int)
    requires Binding(m, cfg, issuer, san)
    ensures (forall f :: Producible(f) ==> Decide(m, cfg, a, f, now) == Decide(m, cfg, b, f, now)) <==>
            a.identity == b.identity && a.digest == b.digest
  {
    if a.digest == b.digest {
      if a.identity != b.identity {
        var f := Signed(issuer, san, a.identity, if a.digest == "" then "" else SHA256 + a.digest);
        assert Producible(f) && Decide(m, cfg, a, f, now) != Decide(m, cfg, b, f, now);
      }
    } else if a.digest == "" || b.digest == "" {
      var f := Signed(issuer, san, if a.digest == "" then a.identity else b.identity, "");
      assert |SHA256 + a.digest| > 0 && |SHA256 + b.digest| > 0;
      assert Producible(f) && Decide(m, cfg, a, f, now) != Decide(m, cfg, b, f, now);
    } else {
      var d := TellingRoot(a.digest, b.digest);
      var f := Signed(issuer, san, "", SHA256 + d);
      assert Producible(f) && Decide(m, cfg, a, f, now) != Decide(m, cfg, b, f, now);
    }
  }
}
