/** Judging a completion report against the evidence a task declared up front. */
module Judgment {
  import opened Outcomes

  datatype EvidenceKind = ArtifactDigest(digest: string) | CommandSucceeded(argv: string)

  datatype EvidenceSpec = EvidenceSpec(evidenceLabel: string, kind: EvidenceKind)

  datatype Observation = Artifact(content: seq<int>) | Command(argv: string, exitCode: int)

  datatype ReportedEvidence = ReportedEvidence(evidenceLabel: string, observation: Observation)

  datatype SubagentReport = SubagentReport(delegationId: string, subagentId: string, taskId: string,
      evidence: seq<ReportedEvidence>)

  datatype RejectionReason = WrongDelegation | ForgedIdentity | MissingEvidence | UndeclaredEvidence | EvidenceMismatch

  datatype Verdict = Verified | Rejected(reason: RejectionReason)

  /** `digest` hashes artifact content. */
  predicate Shows(digest: seq<int> -> string, kind: EvidenceKind, seen: Observation) {
    match (kind, seen)
    case (ArtifactDigest(expected), Artifact(content)) => digest(content) == expected
    case (CommandSucceeded(argv), Command(reported, exitCode)) => argv == reported && exitCode == 0
    case _ => false
  }

  /** The first reported item with a label. */
  function Observed(evidence: seq<ReportedEvidence>, wanted: string): (seen: Option<Observation>)
    ensures seen.None? <==> forall i | 0 <= i < |evidence| :: evidence[i].evidenceLabel != wanted
  {
    if evidence == [] then None
    else if evidence[0].evidenceLabel == wanted then Some(evidence[0].observation)
    else Observed(evidence[1..], wanted)
  }

  /** The reason the first unmet item of the declaration fails for. */
  function FirstUnmet(digest: seq<int> -> string, declared: seq<EvidenceSpec>,
      evidence: seq<ReportedEvidence>): Option<RejectionReason> {
    if declared == [] then None
    else
      match Observed(evidence, declared[0].evidenceLabel)
      case None => Some(MissingEvidence)
      case Some(seen) =>
        if Shows(digest, declared[0].kind, seen) then FirstUnmet(digest, declared[1..], evidence)
            else Some(EvidenceMismatch)
  }

  predicate Declares(declared: seq<EvidenceSpec>, wanted: string) {
    exists i :: 0 <= i < |declared| && declared[i].evidenceLabel == wanted
  }

  function Judge(
    digest: seq<int> -> string, report: SubagentReport, delegationId: string, subagentId: string,
        declared: seq<EvidenceSpec>): Verdict
  {
    if report.delegationId != delegationId then Rejected(WrongDelegation)
    else if report.subagentId != subagentId then Rejected(ForgedIdentity)
    else
      match FirstUnmet(digest, declared, report.evidence)
      case Some(reason) => Rejected(reason)
      case None =>
        if exists i ::
            0 <= i < |report.evidence| && !Declares(declared, report.evidence[i].evidenceLabel)
              then Rejected(UndeclaredEvidence)
        else Verified
  }

  method JudgeReport(
    digest: seq<int> -> string, report: SubagentReport, delegationId: string, subagentId: string,
        declared: seq<EvidenceSpec>)
    returns (verdict: Verdict)
    ensures verdict == Judge(digest, report, delegationId, subagentId, declared)
  {
    if report.delegationId != delegationId {
      return Rejected(WrongDelegation);
    }
    if report.subagentId != subagentId {
      return Rejected(ForgedIdentity);
    }
    var matched: set<string>, i := {}, 0;
    while i < |declared|
      invariant 0 <= i <= |declared|
      invariant FirstUnmet(digest, declared, report.evidence) == FirstUnmet(digest, declared[i..], report.evidence)
      invariant forall w :: w in matched <==> Declares(declared[..i], w)
    {
      var seen := Observed(report.evidence, declared[i].evidenceLabel);
      assert declared[i..][0] == declared[i] && declared[i..][1..] == declared[i + 1..];
      if seen.None? {
        return Rejected(MissingEvidence);
      }
      matched := matched + {declared[i].evidenceLabel};
      if !Shows(digest, declared[i].kind, seen.value) {
        return Rejected(EvidenceMismatch);
      }
      i := i + 1;
      assert declared[..i][i - 1] == declared[i - 1];
      assert forall w ::
          Declares(declared[..i], w) <==> Declares(declared[..i - 1], w) || w == declared[i - 1].evidenceLabel by {
        DeclaresSnoc(declared, i - 1);
      }
    }
    assert declared[..i] == declared;
    if exists j :: 0 <= j < |report.evidence| && report.evidence[j].evidenceLabel !in matched {
      return Rejected(UndeclaredEvidence);
    }
    return Verified;
  }

  lemma DeclaresSnoc(declared: seq<EvidenceSpec>, i: nat)
    requires i < |declared|
    ensures forall w :: Declares(declared[..i + 1], w) <==> Declares(declared[..i], w) || w == declared[i].evidenceLabel
  {
    forall w ensures Declares(declared[..i + 1], w) <==> Declares(declared[..i], w) || w == declared[i].evidenceLabel {
      if Declares(declared[..i], w) {
        var k :| 0 <= k < i && declared[..i][k].evidenceLabel == w;
        assert declared[..i + 1][k].evidenceLabel == w;
      }
      if w == declared[i].evidenceLabel {
        assert declared[..i + 1][i].evidenceLabel == w;
      }
      if Declares(declared[..i + 1], w) {
        var k :| 0 <= k < i + 1 && declared[..i + 1][k].evidenceLabel == w;
        assert k < i ==> declared[..i][k].evidenceLabel == w;
      }
    }
  }

  lemma {:induction false} AllMet(digest: seq<int> -> string, declared: seq<EvidenceSpec>,
      evidence: seq<ReportedEvidence>)
    ensures FirstUnmet(digest, declared, evidence).None? <==>
            forall i | 0 <= i < |declared| ::
              var seen := Observed(evidence, declared[i].evidenceLabel);
              seen.Some? && Shows(digest, declared[i].kind, seen.value)
  {
    if declared == [] {
    } else {
      AllMet(digest, declared[1..], evidence);
      assert forall i | 0 < i < |declared| :: declared[i] == declared[1..][i - 1];
    }
  }

  /**
   * A report is verified exactly when it answers this delegation, comes from
   * the assigned subagent, shows every declared item and contains no other.
   */
  lemma {:induction false} VerifiedIff(
    digest: seq<int> -> string, report: SubagentReport, delegationId: string, subagentId: string,
        declared: seq<EvidenceSpec>)
    ensures Judge(digest, report, delegationId, subagentId, declared).Verified? <==>
            && report.delegationId == delegationId && report.subagentId == subagentId
            && (forall i | 0 <= i < |declared| ::
                  var seen := Observed(report.evidence, declared[i].evidenceLabel);
                  seen.Some? && Shows(digest, declared[i].kind, seen.value))
            && (forall i | 0 <= i < |report.evidence| :: Declares(declared, report.evidence[i].evidenceLabel))
  {
    AllMet(digest, declared, report.evidence);
  }

  // ---------- the verdict in terms of the report alone ----------

  /** Item `i` is the first the report has under this label. */
  predicate FirstUnder(evidence: seq<ReportedEvidence>, wanted: string, i: nat) {
    i < |evidence| && evidence[i].evidenceLabel == wanted && forall j | 0 <= j < i ::
        evidence[j].evidenceLabel != wanted
  }

  /** An artifact whose content has the declared digest, or the declared command line with exit code 0. */
  predicate Demonstrates(digest: seq<int> -> string, kind: EvidenceKind, seen: Observation) {
    || (kind.ArtifactDigest? && seen.Artifact? && digest(seen.content) == kind.digest)
    || (kind.CommandSucceeded? && seen.Command? && seen.argv == kind.argv && seen.exitCode == 0)
  }

  predicate Reported(evidence: seq<ReportedEvidence>, wanted: string) {
    exists i :: 0 <= i < |evidence| && evidence[i].evidenceLabel == wanted
  }

  predicate Met(digest: seq<int> -> string, evidence: seq<ReportedEvidence>, spec: EvidenceSpec) {
    exists i: nat ::
      i < |evidence| && FirstUnder(evidence, spec.evidenceLabel, i)
      && Demonstrates(digest, spec.kind, evidence[i].observation)
  }

  /** Declared item `k` is the first that is not met. */
  predicate FirstNotMet(digest: seq<int> -> string, declared: seq<EvidenceSpec>, evidence: seq<ReportedEvidence>,
      k: nat) {
    && k < |declared| && !Met(digest, evidence, declared[k])
    && forall j | 0 <= j < k :: Met(digest, evidence, declared[j])
  }

  /** The report says something the declaration has no label for. */
  predicate SaysMore(declared: seq<EvidenceSpec>, evidence: seq<ReportedEvidence>) {
    exists i :: 0 <= i < |evidence| && forall k | 0 <= k < |declared| ::
        declared[k].evidenceLabel != evidence[i].evidenceLabel
  }

  lemma {:induction false} ObservedIsFirst(evidence: seq<ReportedEvidence>, wanted: string)
    ensures Observed(evidence, wanted).Some? <==> Reported(evidence, wanted)
    ensures Observed(evidence, wanted).Some?
            ==> exists i: nat ::
                FirstUnder(evidence, wanted, i) && Observed(evidence, wanted).value == evidence[i].observation
  {
    if evidence == [] {
    } else if evidence[0].evidenceLabel == wanted {
      assert FirstUnder(evidence, wanted, 0);
    } else {
      ObservedIsFirst(evidence[1..], wanted);
      if Observed(evidence[1..], wanted).Some? {
        var i: nat :| FirstUnder(evidence[1..], wanted, i)
                      && Observed(evidence[1..], wanted).value == evidence[1..][i].observation;
        assert forall j | 1 <= j < i + 1 :: evidence[j] == evidence[1..][j - 1];
        assert FirstUnder(evidence, wanted, i + 1);
      }
    }
  }

  lemma MetIff(digest: seq<int> -> string, evidence: seq<ReportedEvidence>, spec: EvidenceSpec)
    ensures var seen := Observed(evidence, spec.evidenceLabel);
            Met(digest, evidence, spec) <==> seen.Some? && Shows(digest, spec.kind, seen.value)
  {
    ObservedIsFirst(evidence, spec.evidenceLabel);
  }

  lemma {:induction false} UnmetIsFirst(digest: seq<int> -> string, declared: seq<EvidenceSpec>,
      evidence: seq<ReportedEvidence>)
    ensures match FirstUnmet(digest, declared, evidence)
            case None => forall k | 0 <= k < |declared| :: Met(digest, evidence, declared[k])
            case Some(reason) =>
              exists k: nat :: FirstNotMet(digest, declared, evidence, k)
                && reason == if Reported(evidence, declared[k].evidenceLabel) then EvidenceMismatch else MissingEvidence
  {
    hide Met, Reported, Shows;
    if declared == [] {
    } else {
      MetIff(digest, evidence, declared[0]);
      ObservedIsFirst(evidence, declared[0].evidenceLabel);
      UnmetIsFirst(digest, declared[1..], evidence);
      assert forall k | 1 <= k < |declared| :: declared[k] == declared[1..][k - 1];
      if !Met(digest, evidence, declared[0]) {
        assert FirstNotMet(digest, declared, evidence, 0);
      } else if FirstUnmet(digest, declared, evidence).Some? {
        var k: nat :| FirstNotMet(digest, declared[1..], evidence, k);
        assert FirstNotMet(digest, declared, evidence, k + 1);
      }
    }
  }

  /**
   * The verdict, spelled out: the first check that fails gives the reason, and
   * a report no check fails is verified.
   */
  lemma VerdictMeaning(digest: seq<int> -> string, report: SubagentReport, delegationId: string, subagentId: string,
      declared: seq<EvidenceSpec>)
    ensures var verdict := Judge(digest, report, delegationId, subagentId, declared);
            if report.delegationId != delegationId then verdict == Rejected(WrongDelegation)
            else if report.subagentId != subagentId then verdict == Rejected(ForgedIdentity)
            else if exists k: nat :: FirstNotMet(digest, declared, report.evidence, k) then
              exists k: nat :: FirstNotMet(digest, declared, report.evidence, k)
                && verdict == Rejected(if Reported(report.evidence, declared[k].evidenceLabel) then EvidenceMismatch
                                       else MissingEvidence)
            else verdict == if SaysMore(declared, report.evidence) then Rejected(UndeclaredEvidence) else Verified
  {
    hide FirstUnmet, Reported, Met;
    UnmetIsFirst(digest, declared, report.evidence);
    assert SaysMore(declared, report.evidence)
        <==> exists i :: 0 <= i < |report.evidence| && !Declares(declared, report.evidence[i].evidenceLabel);
  }
}
