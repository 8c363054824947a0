/** One canonical document's identity and metadata: internal/artifact/artifact.go, approval.go and ownership.go. */
module Artifacts {
  import opened Text

  datatype Kind = Brief | Goals | NonGoals | Design | Specification | Decision | UnknownKind(name: string)

  datatype Status = Draft | Active | Superseded | Retired | UnknownStatus(name: string)

  datatype Action = Created | Amended | SupersededBy | RetiredBy | UnknownAction(name: string)

  datatype Role = ProductManager | Architect | DevelopmentManager | Developer | Reviewer | UnknownRole(name: string)

  /** `at` is a moment in time, with zero for the time nobody set. */
  datatype Revision = Revision(action: Action, role: Role, at: nat, reason: string)

  datatype Approval = Approval(revision: int, byOperator: bool, at: nat, reason: string)

  datatype Artifact = Artifact(
    id: string, kind: Kind, title: string, supports: seq<string>, status: Status,
    revisions: seq<Revision>, approvals: seq<Approval>)

  const MAX_TITLE_BYTES := 200
  const MAX_REASON_BYTES := 1024
  const MAX_SUPPORTS_COUNT := 20

  // ---- Validation ----

  predicate Lower(c: char) { 'a' <= c <= 'z' }

  predicate LowerOrDigit(c: char) { Lower(c) || '0' <= c <= '9' }

  /** `domain.ValidateIdentifier`: lower-case letters and digits in hyphen-separated runs, opening with a letter. */
  predicate Identifier(value: string) {
    && value != "" && Lower(value[0]) && value[|value| - 1] != '-'
    && (forall i | 0 <= i < |value| :: LowerOrDigit(value[i]) || value[i] == '-')
    && (forall i | 0 < i < |value| :: value[i] == '-' ==> value[i - 1] != '-')
  }

  // `^[a-z][a-z0-9]*(?:-[a-z0-9]+)*$`: runs of letters and digits, joined by single hyphens.

  function Hyphenated(runs: seq<string>): string {
    if runs == [] then "" else if |runs| == 1 then runs[0] else runs[0] + "-" + Hyphenated(runs[1..])
  }

  predicate IsRun(run: string) {
    run != "" && forall i | 0 <= i < |run| :: 'a' <= run[i] <= 'z' || '0' <= run[i] <= '9'
  }

  ghost predicate AllRuns(runs: seq<string>) { runs != [] && forall k | 0 <= k < |runs| :: IsRun(runs[k]) }

  /** What joined runs are, character by character. */
  predicate WellHyphenated(value: string) {
    && value != "" && value[0] != '-' && value[|value| - 1] != '-'
    && (forall i | 0 <= i < |value| :: LowerOrDigit(value[i]) || value[i] == '-')
    && (forall i | 0 < i < |value| :: value[i] == '-' ==> value[i - 1] != '-')
  }

  lemma {:induction false} JoinedRuns(runs: seq<string>)
    requires AllRuns(runs)
    ensures WellHyphenated(Hyphenated(runs)) && Hyphenated(runs)[0] == runs[0][0]
    decreases |runs|
  {
    assert IsRun(runs[0]);
    RunIsHyphenated(runs[0]);
    if |runs| > 1 {
      JoinedRuns(runs[1..]);
      TwoJoined(runs[0], Hyphenated(runs[1..]));
    }
  }

  lemma RunIsHyphenated(run: string)
    requires IsRun(run)
    ensures WellHyphenated(run) && '-' !in run
  {
    assert forall i | 0 <= i < |run| :: LowerOrDigit(run[i]) && run[i] != '-';
  }

  lemma TwoJoined(run: string, rest: string)
    requires WellHyphenated(run) && WellHyphenated(rest)
    ensures WellHyphenated(run + "-" + rest)
  {
    var value, n := run + "-" + rest, |run|;
    assert value[n] == '-' && value[|value| - 1] == rest[|rest| - 1];
    forall i | 0 <= i < |value| ensures LowerOrDigit(value[i]) || value[i] == '-' {
      assert value[i] == if i < n then run[i] else if i == n then '-' else rest[i - n - 1];
    }
    assert forall i | 0 <= i < n :: value[i] == run[i];
    assert forall i | 0 <= i < |rest| :: value[n + 1 + i] == rest[i];
    forall i | 0 < i < |value| ensures value[i] == '-' ==> value[i - 1] != '-' {
      assert i > n + 1 ==> value[i] == rest[i - n - 1] && value[i - 1] == rest[i - n - 2];
      assert i == n + 1 ==> value[i] == rest[0];
    }
  }

  lemma {:induction false} RunsOf(value: string, from: nat) returns (runs: seq<string>)
    requires WellHyphenated(value) && from <= |value| && '-' !in value[..from]
    ensures AllRuns(runs) && Hyphenated(runs) == value && runs[0][0] == value[0]
    decreases |value|, |value| - from
  {
    assert forall i | 0 <= i < from :: value[i] == value[..from][i];
    if from == |value| {
      assert IsRun(value);
      runs := [value];
    } else if value[from] != '-' {
      assert value[..from + 1] == value[..from] + [value[from]];
      runs := RunsOf(value, from + 1);
    } else {
      var head, rest := value[..from], value[from + 1..];
      assert rest[|rest| - 1] == value[|value| - 1];
      var more := RunsOf(rest, 0);
      assert IsRun(head);
      runs := [head] + more;
      assert runs[1..] == more && value == head + "-" + rest;
    }
  }

  /** An identifier is such runs, the first of them opening with a letter, and nothing else is one. */
  lemma IdentifierExactly(value: string)
    ensures Identifier(value)
       <==> exists runs :: AllRuns(runs) && 'a' <= runs[0][0] <= 'z' && value == Hyphenated(runs)
  {
    if Identifier(value) {
      var runs := RunsOf(value, 0);
      assert AllRuns(runs) && 'a' <= runs[0][0] <= 'z' && value == Hyphenated(runs);
    }
    if runs :| AllRuns(runs) && 'a' <= runs[0][0] <= 'z' && value == Hyphenated(runs) {
      JoinedRuns(runs);
    }
  }

  predicate ReasonValid(reason: string) {
    TrimSpace(reason) != "" && ByteLen(TrimSpace(reason)) <= MAX_REASON_BYTES
  }

  predicate RevisionValid(r: Revision) {
    !r.action.UnknownAction? && !r.role.UnknownRole? && r.at != 0 && ReasonValid(r.reason)
  }

  predicate ApprovalValid(a: Approval) {
    0 <= a.revision && a.byOperator && a.at != 0 && ReasonValid(a.reason)
  }

  predicate SupportsValid(a: Artifact) {
    && |a.supports| <= MAX_SUPPORTS_COUNT
    && forall i | 0 <= i < |a.supports| ::
         Identifier(TrimSpace(a.supports[i])) && TrimSpace(a.supports[i]) != TrimSpace(a.id)
  }

  predicate Ending(action: Action) { action == SupersededBy || action == RetiredBy }

  /** The last revision that ended the document, found by scanning backwards. */
  function Ended(revisions: seq<Revision>): (r: Option<Revision>)
    ensures r.None? <==> forall i | 0 <= i < |revisions| ::
      revisions[i].action != SupersededBy && revisions[i].action != RetiredBy
  {
    if revisions == [] then None
    else if Ending(revisions[|revisions| - 1].action) then Some(revisions[|revisions| - 1])
    else Ended(revisions[..|revisions| - 1])
  }

  /** What the log of approvals has to be: each valid, each naming a recorded revision later than the one before it. */
  predicate InOrder(approvals: seq<Approval>, revisions: nat, valid: Approval -> bool) {
    && (forall i | 0 <= i < |approvals| :: valid(approvals[i]) && 0 <= approvals[i].revision < revisions)
    && (forall i, j | 0 <= i < j < |approvals| :: approvals[i].revision < approvals[j].revision)
  }

  lemma InOrderStep(before: seq<Approval>, last: Approval, revisions: nat, valid: Approval -> bool)
    ensures InOrder(before + [last], revisions, valid)
       <==> && InOrder(before, revisions, valid) && valid(last) && 0 <= last.revision < revisions
            && forall i | 0 <= i < |before| :: before[i].revision < last.revision
  {
    var log := before + [last];
    assert log[|before|] == last;
    assert forall i | 0 <= i < |before| :: log[i] == before[i];
  }

  /** `approvalProblems`, naming the approvals it finds something wrong with; `valid` is `Approval.Validate`. */
  method ApprovalProblems(approvals: seq<Approval>, revisions: nat,
                          valid: Approval -> bool) returns (problems: seq<nat>)
    requires forall a :: valid(a) ==> 0 <= a.revision
    ensures problems == [] <==> InOrder(approvals, revisions, valid)
  {
    problems := [];
    var previous := -1;
    for index := 0 to |approvals|
      invariant forall i | 0 <= i < index :: approvals[i].revision <= previous
      invariant previous == -1 || exists i | 0 <= i < index :: approvals[i].revision == previous
      invariant problems == [] <==> InOrder(approvals[..index], revisions, valid)
    {
      var approval := approvals[index];
      assert approvals[..index + 1] == approvals[..index] + [approval];
      InOrderStep(approvals[..index], approval, revisions, valid);
      if !valid(approval) {
        problems := problems + [index];
      }
      if approval.revision < 0 {
        // `Validate` has reported it already, and nothing further can be said about an index that is not one.
      } else if approval.revision >= revisions {
        problems := problems + [index];
      } else if approval.revision <= previous {
        problems := problems + [index];
      }
      if approval.revision > previous {
        previous := approval.revision;
      }
    }
    assert approvals[..|approvals|] == approvals;
  }

  predicate ApprovalsInOrder(approvals: seq<Approval>, revisions: nat) {
    InOrder(approvals, revisions, ApprovalValid)
  }

  /** `Artifact.Validate` finding nothing wrong. */
  predicate Validates(a: Artifact) {
    && Identifier(a.id)
    && !a.kind.UnknownKind?
    && TrimSpace(a.title) != "" && ByteLen(TrimSpace(a.title)) <= MAX_TITLE_BYTES
    && !a.status.UnknownStatus?
    && SupportsValid(a)
    && a.revisions != [] && (forall i | 0 <= i < |a.revisions| :: RevisionValid(a.revisions[i]))
    && ApprovalsInOrder(a.approvals, |a.revisions|)
    && ((a.status == Superseded || a.status == Retired) <==> Ended(a.revisions).Some?)
  }

  // ---- Approval ----

  datatype ApprovalState = Unapproved | Approved | AmendedSince

  function LatestApproval(a: Artifact): Option<Approval> {
    if a.approvals == [] then None else Some(a.approvals[|a.approvals| - 1])
  }

  function StateOf(a: Artifact): ApprovalState {
    match LatestApproval(a)
    case None => Unapproved
    case Some(latest) => if latest.revision >= |a.revisions| - 1 then Approved else AmendedSince
  }

  function RevisionsSinceApproval(a: Artifact): int {
    if StateOf(a) != AmendedSince then 0 else |a.revisions| - 1 - LatestApproval(a).value.revision
  }

  // ---- Ownership ----

  datatype Capability = ProductMutate | DesignMutate

  /** Which roles hold each capability: the role-capability registry, of which nothing is assumed. */
  type Registry = Capability -> set<Role>

  function Authority(kind: Kind): Option<Capability> {
    match kind
    case Brief | Goals | NonGoals => Some(ProductMutate)
    case Design | Specification | Decision => Some(DesignMutate)
    case UnknownKind(_) => None
  }

  /** `Authorize`. */
  predicate Authorized(registry: Registry, role: Role, kind: Kind) {
    Authority(kind).Some? && role in registry(Authority(kind).value)
  }

  ghost predicate Owns(registry: Registry, role: Role, kind: Kind) {
    Authority(kind).Some? && registry(Authority(kind).value) == {role}
  }

  /** A revision the loaded set reports: recorded by a role other than the single one that owns the kind. */
  ghost predicate ReportedUnauthorized(registry: Registry, a: Artifact, i: nat)
    requires i < |a.revisions|
  {
    exists owner :: Owns(registry, owner, a.kind) && a.revisions[i].role != owner
  }
}
