/** The amendment log, and how what it holds undecided reaches the role that owns it: internal/amendment/decision.go and
    internal/chat/amendment.go. */
module Amendments {
  import opened Text
  import opened StableOrders

  /** What identifies a proposal. Identities are only ever compared. */
  type Id(==,!new)

  type Owner(==,!new)

  /** `bytes` is how long the proposal is once rendered. */
  datatype Proposal = Proposal(id: Id, owner: Owner, bytes: nat)

  datatype Decision = Decision(proposalId: Id, approved: bool)

  datatype Record = Record(proposal: Option<Proposal>, decision: Option<Decision>)

  // ---- The log ----

  function Proposals(records: seq<Record>): seq<Proposal> {
    if records == [] then [] else
      var earlier := Proposals(records[..|records| - 1]);
      var last := records[|records| - 1];
      if last.proposal.Some? then earlier + [last.proposal.value] else earlier
  }

  /** The first decision is the one that stands. */
  function DecisionOn(records: seq<Record>, id: Id): Option<Decision> {
    if records == [] then None
    else if records[0].decision.Some? && records[0].decision.value.proposalId == id then records[0].decision
    else DecisionOn(records[1..], id)
  }

  /** Nothing appended to a log ever changes a decision in it. */
  lemma {:induction false} DecisionStands(records: seq<Record>, more: seq<Record>, id: Id)
    ensures DecisionOn(records, id).Some? ==> DecisionOn(records + more, id) == DecisionOn(records, id)
    ensures DecisionOn(records, id).None? ==> DecisionOn(records + more, id) == DecisionOn(more, id)
    decreases |records|
  {
    if records == [] {
      assert records + more == more;
    } else {
      assert (records + more)[1..] == records[1..] + more;
      DecisionStands(records[1..], more, id);
    }
  }

  lemma {:induction false} DecidedMeans(records: seq<Record>, id: Id)
    ensures DecisionOn(records, id).Some? <==> exists i | 0 <= i < |records| :: Decides(records[i], id)
    decreases |records|
  {
    if records != [] {
      DecidedMeans(records[1..], id);
      assert forall i | 0 < i < |records| :: records[i] == records[1..][i - 1];
    }
  }

  predicate Decides(r: Record, id: Id) { r.decision.Some? && r.decision.value.proposalId == id }

  function PendingOf(records: seq<Record>): seq<Proposal> {
    Kept(Proposals(records), (p: Proposal) => DecisionOn(records, p.id).None?)
  }

  function PendingFor(records: seq<Record>, owner: Owner): seq<Proposal> {
    Kept(PendingOf(records), (p: Proposal) => p.owner == owner)
  }

  method Pending(records: seq<Record>) returns (pending: seq<Proposal>)
    ensures pending == PendingOf(records)
  {
    var proposals := Proposals(records);
    var undecided := (p: Proposal) => DecisionOn(records, p.id).None?;
    pending := [];
    for index := 0 to |proposals|
      invariant pending == Kept(proposals[..index], undecided)
    {
      assert proposals[..index + 1][..index] == proposals[..index];
      if DecisionOn(records, proposals[index].id).Some? {
        continue;
      }
      pending := pending + [proposals[index]];
    }
    assert proposals[..|proposals|] == proposals;
  }

  lemma {:induction false} RaisedMeans(records: seq<Record>, p: Proposal)
    ensures p in Proposals(records) <==> exists i | 0 <= i < |records| :: records[i].proposal == Some(p)
    decreases |records|
  {
    if records != [] {
      var n := |records| - 1;
      RaisedMeans(records[..n], p);
      assert forall i | 0 <= i < n :: records[..n][i] == records[i];
    }
  }

  /** A proposal awaits its owner exactly when it was raised to them and no record decides it, before it or after. */
  lemma PendingMeans(records: seq<Record>, owner: Owner, p: Proposal)
    ensures p in PendingFor(records, owner)
       <==> && p.owner == owner && (exists i | 0 <= i < |records| :: records[i].proposal == Some(p))
            && forall i | 0 <= i < |records| :: !Decides(records[i], p.id)
  {
    KeptMeans(PendingOf(records), (q: Proposal) => q.owner == owner, p);
    KeptMeans(Proposals(records), (q: Proposal) => DecisionOn(records, q.id).None?, p);
    RaisedMeans(records, p);
    DecidedMeans(records, p.id);
  }

  // ---- Which of them one turn delivers ----

  const MAX_DELIVERED := 10
  const MAX_REMEMBERED := 256

  function Bytes(proposals: seq<Proposal>): nat {
    if proposals == [] then 0 else Bytes(proposals[..|proposals| - 1]) + proposals[|proposals| - 1].bytes
  }

  /** As many of them, from the first, as the count and the budget allow, and not one fewer. */
  ghost predicate Fitting(proposals: seq<Proposal>, shown: nat, budget: nat) {
    && shown <= |proposals| && shown <= 10 && Bytes(proposals[..shown]) <= budget
    && (shown < |proposals| && shown < 10 ==> Bytes(proposals[..shown + 1]) > budget)
  }

  function LastOf<T>(s: seq<T>, n: nat): seq<T> { if |s| <= n then s else s[|s| - n..] }

  function Marked(remembered: seq<Id>, id: Id): seq<Id> {
    if id in remembered then remembered else LastOf(remembered + [id], MAX_REMEMBERED)
  }

  function MarkedAll(remembered: seq<Id>, shown: seq<Proposal>): seq<Id> {
    if shown == [] then remembered else Marked(MarkedAll(remembered, shown[..|shown| - 1]), shown[|shown| - 1].id)
  }

  ghost predicate Distinct<T(!new)>(s: seq<T>) { forall i, j | 0 <= i < j < |s| :: s[i] != s[j] }

  /** An id is marked again only once enough others have been marked to age it out. */
  ghost predicate AgedOut(marks: seq<Id>) {
    forall i, j | 0 <= i < j < |marks| && marks[i] == marks[j] :: j - i > 256
  }

  function Undelivered(pending: seq<Proposal>, remembered: seq<Id>): seq<Proposal> {
    Kept(pending, (p: Proposal) => p.id !in remembered)
  }

  /** How many fit, taken in order until the first that does not. */
  method HowMany(undelivered: seq<Proposal>, budget: nat) returns (count: nat)
    ensures Fitting(undelivered, count, budget)
  {
    count := 0;
    var bytes := 0;
    while count < |undelivered|
      invariant count <= |undelivered| && count <= MAX_DELIVERED && bytes == Bytes(undelivered[..count]) <= budget
      decreases |undelivered| - count
    {
      assert undelivered[..count + 1][..count] == undelivered[..count];
      if count == MAX_DELIVERED || bytes + undelivered[count].bytes > budget {
        break;
      }
      bytes := bytes + undelivered[count].bytes;
      count := count + 1;
    }
  }

  class Session {
    /** This process's own set, and the durable list on the conversation's record. */
    var delivered: set<Id>
    var remembered: seq<Id>
    /** Every mark made on the conversation and saved, by whichever process made it, and those this one has made
        since. A mark lost with its process before a save is not among them, and its proposal is shown again. */
    ghost var marks: seq<Id>

    ghost predicate Valid()
      reads this
    {
      && (forall id :: id in delivered <==> id in remembered)
      && remembered == LastOf(marks, MAX_REMEMBERED) && AgedOut(marks)
    }

    /** A process takes the conversation's record up. */
    constructor Adopt(recorded: seq<Id>, ghost earlier: seq<Id>)
      requires recorded == LastOf(earlier, MAX_REMEMBERED) && AgedOut(earlier)
      ensures Valid() && remembered == recorded && marks == earlier
    {
      remembered := recorded;
      delivered := set id | id in recorded;
      marks := earlier;
    }

    method MarkDelivered(id: Id)
      requires Valid()
      modifies this
      ensures Valid() && remembered == Marked(old(remembered), id)
      ensures marks == if id in old(remembered) then old(marks) else old(marks) + [id]
    {
      if id in delivered {
        return;
      }
      MarkAgesOut(marks, id);
      delivered := delivered + {id};
      remembered := remembered + [id];
      marks := marks + [id];
      if |remembered| > MAX_REMEMBERED {
        var dropped := remembered[..|remembered| - MAX_REMEMBERED];
        Split(remembered, |remembered| - MAX_REMEMBERED);
        delivered := delivered - set gone | gone in dropped;
        remembered := remembered[|dropped|..];
      }
    }

    method NotDelivered(pending: seq<Proposal>) returns (undelivered: seq<Proposal>)
      requires Valid()
      ensures undelivered == Undelivered(pending, remembered)
    {
      undelivered := [];
      for index := 0 to |pending|
        invariant undelivered == Undelivered(pending[..index], remembered)
      {
        assert pending[..index + 1][..index] == pending[..index];
        if pending[index].id in delivered {
          continue;
        }
        undelivered := undelivered + [pending[index]];
      }
      assert pending[..|pending|] == pending;
    }

    /** One delivery: what is shown of the proposals pending for this role, and how many it leaves waiting. */
    method Deliver(records: seq<Record>, owner: Owner, budget: nat) returns (shown: seq<Proposal>, remaining: nat)
      requires Valid()
      modifies this
      ensures Valid()
      ensures var undelivered := Undelivered(PendingFor(records, owner), old(remembered));
        && shown <= undelivered && Fitting(undelivered, |shown|, budget) && remaining == |undelivered| - |shown|
      ensures remembered == MarkedAll(old(remembered), shown)
    {
      var undelivered := NotDelivered(PendingFor(records, owner));
      var count := HowMany(undelivered, budget);
      shown := undelivered[..count];
      for index := 0 to |shown|
        invariant Valid() && remembered == MarkedAll(old(remembered), shown[..index])
      {
        assert shown[..index + 1][..index] == shown[..index];
        MarkDelivered(shown[index].id);
      }
      assert shown[..|shown|] == shown;
      remaining := |undelivered| - count;
    }
  }

  /** What is remembered is what was marked last, 256 of it or as many as there were. */
  lemma RemembersTheLast(marks: seq<Id>)
    ensures var last := LastOf(marks, MAX_REMEMBERED);
      && |last| == (if |marks| < 256 then |marks| else 256)
      && forall i | 0 <= i < |last| :: last[i] == marks[|marks| - |last| + i]
  {
  }

  /** What is remembered never repeats, so cutting it in two leaves no id on both sides. */
  lemma Split(remembered: seq<Id>, at: nat)
    requires at <= |remembered|
    ensures forall id :: id in remembered <==> id in remembered[..at] || id in remembered[at..]
  {
    assert remembered == remembered[..at] + remembered[at..];
  }

  lemma MarkAgesOut(marks: seq<Id>, id: Id)
    requires AgedOut(marks) && id !in LastOf(marks, MAX_REMEMBERED)
    ensures AgedOut(marks + [id])
    ensures Distinct(LastOf(marks, MAX_REMEMBERED) + [id])
    ensures LastOf(marks + [id], MAX_REMEMBERED) == LastOf(LastOf(marks, MAX_REMEMBERED) + [id], MAX_REMEMBERED)
  {
    var last := LastOf(marks, MAX_REMEMBERED);
    var from := |marks| - |last|;
    assert forall i | 0 <= i < |last| :: last[i] == marks[from + i];
    assert forall i | from <= i < |marks| :: marks[i] == last[i - from];
  }

  /** What a record remembers has no repeats and stays bounded, whatever was marked before. */
  lemma RememberedIsDistinct(marks: seq<Id>)
    requires AgedOut(marks)
    ensures Distinct(LastOf(marks, MAX_REMEMBERED)) && |LastOf(marks, MAX_REMEMBERED)| <= 256
  {
    var last := LastOf(marks, MAX_REMEMBERED);
    var from := |marks| - |last|;
    assert forall i | 0 <= i < |last| :: last[i] == marks[from + i];
  }

  /** A delivery marks exactly what it showed: nothing else becomes remembered, and all that was shown stays so. */
  lemma {:induction false} DeliveryMarksWhatItShowed(remembered: seq<Id>, shown: seq<Proposal>, id: Id)
    requires |shown| <= MAX_DELIVERED && |remembered| <= MAX_REMEMBERED
    requires forall i | 0 <= i < |shown| :: shown[i].id !in remembered
    ensures var after := MarkedAll(remembered, shown);
      && |after| <= MAX_REMEMBERED
      && (id in after && id !in remembered ==> exists i | 0 <= i < |shown| :: shown[i].id == id)
      && ((exists i | 0 <= i < |shown| :: shown[i].id == id) ==> exists k :: Recent(after, id, k, |shown|))
    decreases |shown|
  {
    if shown != [] {
      var n := |shown| - 1;
      var before := MarkedAll(remembered, shown[..n]);
      var after := MarkedAll(remembered, shown);
      DeliveryMarksWhatItShowed(remembered, shown[..n], id);
      DeliveryMarksWhatItShowed(remembered, shown[..n], shown[n].id);
      assert forall i | 0 <= i < n :: shown[..n][i] == shown[i];
      assert after == Marked(before, shown[n].id);
      var cut := if shown[n].id in before then 0 else |before| + 1 - |after|;
      if exists k :: Recent(before, id, k, n) {
        var k :| Recent(before, id, k, n);
        assert Recent(before, id, k, n);
        assert Recent(after, id, k - cut, n + 1);
      }
      if shown[n].id == id && id !in before {
        assert Recent(after, id, |after| - 1, n + 1);
      }
    }
  }

  /** An id is remembered among the last few. */
  ghost predicate Recent(remembered: seq<Id>, id: Id, k: int, n: nat) {
    0 <= k < |remembered| && remembered[k] == id && k >= |remembered| - n
  }
}
