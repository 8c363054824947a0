/** What the harness may put in the queue without asking, and on whose authority: internal/chat/admission.go, and what a
    goal attribution answers, internal/goal/goal.go. */
module Admission {
  import opened Text

  type Goal(==,!new)
  type Class(==,!new)

  datatype Approval = Approved | Amended | NotApproved

  /** Why a goal did not resolve, which is said of every one that did not. */
  type Said = reason: string | reason != "" witness "the goal is not stated"

  /** What a named goal was found to be. */
  datatype Attribution =
    | Attributed(approval: Approval)
    | Unresolved(reason: Said)
    | Unsettled(reason: Said)

  datatype Reason = PerItem | GoalAmended | GoalNotApproved | Reported(text: string) | Resembling(text: string)

  /** `ApprovalGap`: why the goal is not one the operator approved. */
  function ApprovalGap(a: Attribution): Option<Reason> {
    match a
    case Attributed(Approved) => None
    case Attributed(Amended) => Some(GoalAmended)
    case Attributed(NotApproved) => Some(GoalNotApproved)
    case Unresolved(reason) => Some(Reported(reason))
    case Unsettled(reason) => Some(Reported(reason))
  }

  datatype Policy = Policy(automatic: bool, exempt: seq<Class>)

  predicate AsksPerItem(policy: Policy) { !policy.automatic }

  predicate Exempts(policy: Policy, class_: Option<Class>) { class_.Some? && class_.value in policy.exempt }

  predicate StandsDown(policy: Policy, class_: Option<Class>) { Exempts(policy, class_) && AsksPerItem(policy) }

  /** `admissionGap`: why work is not admitted without asking, and nothing exactly when it is. */
  function Gap(policy: Policy, a: Attribution, class_: Option<Class>): Option<Reason> {
    if StandsDown(policy, class_) then
      if a.Attributed? then None else Some(Reported(a.reason))
    else if AsksPerItem(policy) then Some(PerItem)
    else ApprovalGap(a)
  }

  /** `proposalGate`: what is put to the operator about one proposal. */
  function Gate(policy: Policy, a: Attribution, class_: Option<Class>, resembling: Option<Reason>): Option<Reason> {
    if resembling.Some? then resembling
    else if AsksPerItem(policy) && !Exempts(policy, class_) then None
    else Gap(policy, a, class_)
  }

  datatype Basis = ApprovedGoal(goal: Goal) | ExemptClass(class_: Option<Class>)

  /** `admissionAuthority`. */
  function Authority(policy: Policy, a: Attribution, goal: Goal, class_: Option<Class>): Basis {
    if !AsksPerItem(policy) && ApprovalGap(a).None? then ApprovedGoal(goal) else ExemptClass(class_)
  }

  /** `admissible`, for a proposal and what is asked about it. */
  predicate Admissible(policy: Policy, asking: Option<Reason>, class_: Option<Class>) {
    asking.None? && (Exempts(policy, class_) || !AsksPerItem(policy))
  }

  /** What admits work without asking, from the outside: an approved goal where the project admits on its goals, or a
      goal that resolves and an exempt class where it asks about every item; and nothing else. */
  lemma AdmittedExactly(policy: Policy, a: Attribution, class_: Option<Class>)
    ensures Gap(policy, a, class_).None? <==>
      if policy.automatic then a == Attributed(Approved)
      else a.Attributed? && class_.Some? && class_.value in policy.exempt
  {
  }

  /** Why work is not let in, and why a proposal is put to the operator: what it resembles first, whatever the policy,
      and then what is wrong with its goal, or that the project asks about every item. */
  lemma AskedWhy(policy: Policy, a: Attribution, class_: Option<Class>, resembling: Option<Reason>)
    ensures var exempt := class_.Some? && class_.value in policy.exempt;
      var gap, gate := Gap(policy, a, class_), Gate(policy, a, class_, resembling);
      && (resembling.Some? ==> gate == resembling)
      && (!policy.automatic && !exempt ==> gap == Some(PerItem) && (resembling.None? ==> gate.None?))
      && (policy.automatic && a == Attributed(Amended) ==> gap == Some(GoalAmended))
      && (policy.automatic && a == Attributed(NotApproved) ==> gap == Some(GoalNotApproved))
      && ((policy.automatic || exempt) && !a.Attributed? ==> gap == Some(Reported(a.reason)))
      && ((policy.automatic || exempt) && resembling.None? ==> gate == gap)
  {
  }

  /** The basis named is the one that let the work in: the goal exactly where the goal's approval did, the class exactly
      where the exemption did. */
  lemma BasisIsTheAuthority(policy: Policy, a: Attribution, goal: Goal, class_: Option<Class>)
    requires Gap(policy, a, class_).None?
    ensures var basis := Authority(policy, a, goal, class_);
      if policy.automatic then basis == ApprovedGoal(goal) && a == Attributed(Approved)
      else basis == ExemptClass(class_) && class_.Some? && class_.value in policy.exempt && a.Attributed?
  {
    AdmittedExactly(policy, a, class_);
  }
}
