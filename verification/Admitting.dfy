/** What a reply's proposals come to where every write goes through: which go into the queue, and which are left for the
    operator: `admit` and `admissible` in internal/chat/chat.go, and the gate in internal/chat/admission.go. */
module Admitting {
  import opened Text
  import opened Admission
  import opened Ledger
  import opened LedgerRuns

  /** What lets work in without asking: where the project admits on its goals, a goal the operator approved, as it
      stands; where it asks about every item, an exempt class and a goal that resolves. */
  predicate LetIn(policy: Policy, class_: Option<Class>, a: Attribution) {
    if policy.automatic then a == Attributed(Approval.Approved)
    else a.Attributed? && class_.Some? && class_.value in policy.exempt
  }

  /** The proposal is held undecided, the first of its id. */
  ghost predicate Waits(entries: seq<Entry>, p: Pending) {
    exists k | 0 <= k < |entries| ::
      entries[k] == Entry(p, false) && forall j | 0 <= j < k :: entries[j].pending.id != p.id
  }

  lemma {:induction false} WaitsAwaits(entries: seq<Entry>, p: Pending, from: nat, k: nat)
    requires from <= k < |entries| && entries[k] == Entry(p, false)
    requires forall j | from <= j < k :: entries[j].pending.id != p.id
    ensures AwaitingFrom(entries, p.id, from) == Some(k)
    decreases k - from
  {
    if from < k {
      WaitsAwaits(entries, p, from + 1, k);
    }
  }

  predicate AllThrough(t: Trial) { WentThrough(t.io) && t.created.Some? && WentThrough(t.createdIo) }

  /** One proposal: made, or left as it was. */
  lemma TriedExactly(policy: Policy, s: State, p: Pending, t: Trial)
    requires Waits(s.entries, p) && AllThrough(t)
    ensures var next := Tried(policy, true, s, p, t);
      if p.asking.None? && LetIn(policy, p.proposal.class_, t.attribution) then
        next.made == s.made + [p.id] && forall q | Waits(s.entries, q) && q.id != p.id :: Waits(next.entries, q)
      else next == s
  {
    var k :| 0 <= k < |s.entries| && s.entries[k] == Entry(p, false) && forall j | 0 <= j < k ::
      s.entries[j].pending.id != p.id;
    WaitsAwaits(s.entries, p, 0, k);
    AdmittedExactly(policy, t.attribution, p.proposal.class_);
    var next := Tried(policy, true, s, p, t);
    if p.asking.None? && LetIn(policy, p.proposal.class_, t.attribution) {
      assert next.entries == s.entries[k := Entry(p, true)];
      forall q | Waits(s.entries, q) && q.id != p.id ensures Waits(next.entries, q) {
        OthersWait(s.entries, k, q);
      }
    }
  }

  lemma OthersWait(entries: seq<Entry>, k: nat, q: Pending)
    requires k < |entries| && Waits(entries, q) && entries[k].pending.id != q.id
    ensures Waits(entries[k := Entry(entries[k].pending, true)], q)
  {
    var decided := entries[k := Entry(entries[k].pending, true)];
    var i :| 0 <= i < |entries| && entries[i] == Entry(q, false) && forall j | 0 <= j < i ::
      entries[j].pending.id != q.id;
    assert decided[i] == Entry(q, false);
  }

  /** What may be tried without asking, of what nothing is asked about: anything where the project admits on its goals,
      and where it does not the classes it exempts. */
  lemma TriedWithoutAsking(policy: Policy, class_: Option<Class>, asking: Option<Reason>)
    ensures Admissible(policy, asking, class_)
       <==> asking.None? && (!policy.automatic ==> class_.Some? && class_.value in policy.exempt)
  {
  }

  // ---- A list of them ----

  predicate IsLetIn(policy: Policy, p: Pending, a: Attribution) {
    p.asking.None? && LetIn(policy, p.proposal.class_, a)
  }

  /** What one proposal adds to what is made, and to what is left. */
  function MadeOf(policy: Policy, p: Pending, a: Attribution): seq<ProposalId> {
    if IsLetIn(policy, p, a) then [p.id] else []
  }

  function LeftOf(policy: Policy, p: Pending, a: Attribution): seq<Pending> {
    if IsLetIn(policy, p, a) then [] else [p]
  }

  function MadeFrom(policy: Policy, pending: seq<Pending>, trials: nat -> Trial, at: nat): seq<ProposalId>
    decreases |pending| - at
  {
    if at >= |pending| then [] else
      MadeOf(policy, pending[at], trials(at).attribution) + MadeFrom(policy, pending, trials, at + 1)
  }

  function LeftFrom(policy: Policy, pending: seq<Pending>, trials: nat -> Trial, at: nat): seq<Pending>
    decreases |pending| - at
  {
    if at >= |pending| then [] else
      LeftOf(policy, pending[at], trials(at).attribution) + LeftFrom(policy, pending, trials, at + 1)
  }

  ghost predicate RestWait(entries: seq<Entry>, pending: seq<Pending>, at: nat) {
    forall k | at <= k < |pending| :: Waits(entries, pending[k])
  }

  lemma TriedLeavesRest(policy: Policy, s: State, pending: seq<Pending>, at: nat, t: Trial)
    requires at < |pending| && DistinctIds(pending) && RestWait(s.entries, pending, at) && AllThrough(t)
    ensures RestWait(Tried(policy, true, s, pending[at], t).entries, pending, at + 1)
  {
    TriedExactly(policy, s, pending[at], t);
    assert forall k | at < k < |pending| :: pending[k].id != pending[at].id;
  }

  lemma TriedMakes(policy: Policy, s: State, pending: seq<Pending>, trials: nat -> Trial, at: nat, left: seq<Pending>)
    requires at < |pending| && Waits(s.entries, pending[at]) && AllThrough(trials(at))
    ensures var p, a := pending[at], trials(at).attribution;
      var next := Tried(policy, true, s, p, trials(at));
      && next.made == s.made + MadeOf(policy, p, a)
      && AdmittedFrom(policy, true, s, pending, trials, at, left)
          == AdmittedFrom(policy, true, next, pending, trials, at + 1, left + LeftOf(policy, p, a))
  {
    TriedExactly(policy, s, pending[at], trials(at));
    assert left + [] == left;
  }

  lemma Regrouped<T>(a: seq<T>, b: seq<T>, c: seq<T>)
    ensures (a + b) + c == a + (b + c)
  {
  }

  /** Every one that is let in is made, in order, and every other is left for the operator, in order. */
  lemma {:induction false} AdmitsExactly(policy: Policy, s: State, pending: seq<Pending>, trials: nat -> Trial, at: nat,
                                         left: seq<Pending>)
    requires DistinctIds(pending) && RestWait(s.entries, pending, at) && forall k :: AllThrough(trials(k))
    ensures var out := AdmittedFrom(policy, true, s, pending, trials, at, left);
      && out.state.made == s.made + MadeFrom(policy, pending, trials, at)
      && out.left == left + LeftFrom(policy, pending, trials, at)
    decreases |pending| - at
  {
    if at < |pending| {
      var p, a := pending[at], trials(at).attribution;
      var next := Tried(policy, true, s, p, trials(at));
      TriedMakes(policy, s, pending, trials, at, left);
      TriedLeavesRest(policy, s, pending, at, trials(at));
      AdmitsExactly(policy, next, pending, trials, at + 1, left + LeftOf(policy, p, a));
      Regrouped(s.made, MadeOf(policy, p, a), MadeFrom(policy, pending, trials, at + 1));
      Regrouped(left, LeftOf(policy, p, a), LeftFrom(policy, pending, trials, at + 1));
    }
  }

  // ---- A whole reply ----

  /** What the gate asks about nothing but what could not be let in, had the project not asked about every item. */
  lemma AskedExactly(policy: Policy, a: Attribution, class_: Option<Class>, resembling: Option<Reason>)
    ensures Gate(policy, a, class_, resembling).None? <==>
      && resembling.None?
      && if policy.automatic then a == Attributed(Approval.Approved)
         else class_.Some? && class_.value in policy.exempt ==> a.Attributed?
  {
  }

  function AskedFrom(policy: Policy, turn: nat, reply: Reply, at: nat): seq<Pending>
    decreases |reply.proposals| - at
  {
    if at >= |reply.proposals| then [] else [AskedAt(policy, turn, reply, at)] + AskedFrom(policy, turn, reply, at + 1)
  }

  ghost predicate AllWait(entries: seq<Entry>, pending: seq<Pending>) {
    forall k | 0 <= k < |pending| :: Waits(entries, pending[k])
  }

  lemma NewWaits(s: State, at: nat, next: Pending, pending: seq<Pending>)
    requires Placing(s, at) && next.id == ProposalId(s.turns, at + 1) && AllWait(s.entries, pending)
    ensures AllWait(s.entries + [Entry(next, false)], pending + [next])
  {
    var entries := s.entries + [Entry(next, false)];
    assert entries[|s.entries|] == Entry(next, false);
    forall k | 0 <= k < |pending| + 1 ensures Waits(entries, (pending + [next])[k]) {
      if k < |pending| {
        var i :| 0 <= i < |s.entries| && s.entries[i] == Entry(pending[k], false) && forall j | 0 <= j < i ::
          s.entries[j].pending.id != pending[k].id;
        assert entries[i] == Entry(pending[k], false);
      }
    }
  }

  lemma {:induction false} RecordsAll(policy: Policy, s: State, reply: Reply, at: nat, pending: seq<Pending>)
    requires reply.save.Done? && forall k :: WentThrough(reply.io(k))
    ensures var account := RecordedFrom(policy, s, reply, at, pending);
      && account.ok && account.state.made == s.made
      && account.pending == pending + AskedFrom(policy, s.turns, reply, at)
    decreases |reply.proposals| - at
  {
    if at < |reply.proposals| {
      var next := AskedAt(policy, s.turns, reply, at);
      var emitted := Emitted(s, Recorded(next, ResemblanceAt(reply.resembling, at)), reply.io(at));
      RecordsAll(policy, WithEntry(emitted, next), reply, at + 1, pending + [next]);
      Regrouped(pending, [next], AskedFrom(policy, s.turns, reply, at + 1));
    }
  }

  lemma {:induction false} RecordedWait(policy: Policy, s: State, reply: Reply, at: nat, pending: seq<Pending>)
    requires Placing(s, at) && AllWait(s.entries, pending) && forall k :: WentThrough(reply.io(k))
    ensures var account := RecordedFrom(policy, s, reply, at, pending);
      AllWait(account.state.entries, account.pending)
    decreases |reply.proposals| - at
  {
    if at < |reply.proposals| {
      var next := AskedAt(policy, s.turns, reply, at);
      var event := Recorded(next, ResemblanceAt(reply.resembling, at));
      var emitted := Emitted(s, event, reply.io(at));
      EmitPlaces(s, event, reply.io(at), at);
      EntryPlaces(emitted, at, next);
      NewWaits(emitted, at, next, pending);
      RecordedWait(policy, WithEntry(emitted, next), reply, at + 1, pending + [next]);
    }
  }

  lemma {:induction false} LaneMakesNothing(policy: Policy, tracked: bool, s: State, lane: seq<LaneCreation>)
    ensures LaneFrom(policy, tracked, s, lane).made == s.made
    decreases |lane|
  {
    if lane != [] {
      LaneMakesNothing(policy, tracked, s, lane[..|lane| - 1]);
    }
  }

  /** The proposals of a reply that go into the queue: those that resembled nothing and were let in, both when they were
      recorded and at the moment they were made. */
  function Admits(policy: Policy, turn: nat, reply: Reply, trials: nat -> Trial, at: nat): seq<ProposalId>
    decreases |reply.proposals| - at
  {
    if at >= |reply.proposals| then [] else
      var class_ := reply.proposals[at].class_;
      var admitted :=
        && (at < |reply.resembling| ==> reply.resembling[at].None?)
        && LetIn(policy, class_, reply.attributed(at)) && LetIn(policy, class_, trials(at).attribution);
      (if admitted then [ProposalId(turn, at + 1)] else []) + Admits(policy, turn, reply, trials, at + 1)
  }

  lemma {:induction false} AskedAreMade(policy: Policy, turn: nat, reply: Reply, trials: nat -> Trial, at: nat)
    requires at <= |reply.proposals|
    ensures var pending := AskedFrom(policy, turn, reply, 0);
      |pending| == |reply.proposals| && MadeFrom(policy, pending, trials, at) == Admits(policy, turn, reply, trials, at)
    decreases |reply.proposals| - at
  {
    AskedFromAt(policy, turn, reply, 0);
    if at < |reply.proposals| {
      AskedAreMade(policy, turn, reply, trials, at + 1);
      assert AskedFrom(policy, turn, reply, 0)[at] == AskedAt(policy, turn, reply, at);
      AskedExactly(policy, reply.attributed(at), reply.proposals[at].class_, ResemblanceAt(reply.resembling, at));
    }
  }

  lemma {:induction false} AskedFromAt(policy: Policy, turn: nat, reply: Reply, at: nat)
    requires at <= |reply.proposals|
    ensures |AskedFrom(policy, turn, reply, at)| == |reply.proposals| - at
    ensures forall k | 0 <= k < |reply.proposals| - at ::
      AskedFrom(policy, turn, reply, at)[k] == AskedAt(policy, turn, reply, at + k)
    decreases |reply.proposals| - at
  {
    if at < |reply.proposals| {
      AskedFromAt(policy, turn, reply, at + 1);
    }
  }

  lemma AskedAreDistinct(policy: Policy, turn: nat, reply: Reply)
    ensures DistinctIds(AskedFrom(policy, turn, reply, 0))
  {
    AskedFromAt(policy, turn, reply, 0);
  }

  lemma ProposedAdmitsExactly(policy: Policy, s: State, reply: Reply, trials: nat -> Trial)
    requires Placing(s, 0) && reply.save.Done?
    requires forall k :: WentThrough(reply.io(k)) && AllThrough(trials(k))
    ensures Proposed(policy, true, s, reply, trials).made == s.made + Admits(policy, s.turns, reply, trials, 0)
  {
    RecordsAll(policy, s, reply, 0, []);
    RecordedWait(policy, s, reply, 0, []);
    var account := RecordedFrom(policy, s, reply, 0, []);
    assert account.pending == AskedFrom(policy, s.turns, reply, 0);
    AskedAreDistinct(policy, s.turns, reply);
    AdmitsExactly(policy, account.state, account.pending, trials, 0, []);
    AskedAreMade(policy, s.turns, reply, trials, 0);
    LaneMakesNothing(policy, true, AdmittedFrom(policy, true, account.state, account.pending, trials, 0, []).state,
      reply.lane);
  }

  /** Where there is a tracker and every write goes through, a reply puts in the queue exactly those. */
  lemma ReplyAdmitsExactly(policy: Policy, s: State, reply: Reply, trials: nat -> Trial)
    requires Ordered(s) && reply.turnSave.Done? && reply.save.Done?
    requires forall k :: WentThrough(reply.io(k)) && AllThrough(trials(k))
    ensures Replied(policy, true, s, reply, trials).made == s.made + Admits(policy, s.turns + 1, reply, trials, 0)
  {
    TurnPlaces(s, reply.turnSave);
    ProposedAdmitsExactly(policy, Turned(s, reply.turnSave), reply, trials);
  }

  // ---- In a lane ----

  /** A creation in a lane, its writes going through, is put to the operator, held and undecided, exactly where there is
      a tracker, its goal is not one that resolves to nothing, and it is not let in without asking; and otherwise leaves
      what is held, and the log, as they were. */
  lemma LaneAsksExactly(policy: Policy, tracked: bool, s: State, c: LaneCreation)
    requires c.requested.Done? && WentThrough(c.io)
    ensures var t := LaneTaken(policy, tracked, s, c);
      if tracked && !c.attribution.Unresolved? && !LetIn(policy, c.proposal.class_, c.attribution) then
        && |t.entries| == |s.entries| + 1 && t.entries[..|s.entries|] == s.entries && |t.log| == |s.log| + 1
        && var held := t.entries[|s.entries|];
          !held.decided && held.pending.proposal == c.proposal && t.log[|s.log|] == Recorded(held.pending, c.resembling)
      else t.entries == s.entries && t.log == s.log
  {
    AdmittedExactly(policy, c.attribution, c.proposal.class_);
  }
}
