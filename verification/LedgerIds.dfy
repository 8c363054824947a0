/** When the log of one conversation gives one id to two proposals: `recordProposals` in internal/chat/chat.go numbers
    what a reply proposes, `nextProposalID` in internal/chat/lane.go what it creates in its lane. */
module LedgerIds {
  import opened Text
  import opened Admission
  import opened Ledger
  import opened LedgerRuns

  /** An id some recorded event gives. */
  ghost predicate Names(log: seq<Event>, id: ProposalId) {
    exists k: nat :: k < |log| && log[k].Recorded? && log[k].pending.id == id
  }

  ghost predicate NamesOnce(log: seq<Event>) {
    forall i: nat, j: nat | i < j < |log| && log[i].Recorded? && log[j].Recorded? ::
      log[i].pending.id != log[j].pending.id
  }

  lemma NamesMore(log: seq<Event>, event: Event, id: ProposalId)
    ensures Names(log + [event], id) <==> Names(log, id) || (event.Recorded? && event.pending.id == id)
    ensures NamesOnce(log + [event]) <==> NamesOnce(log) && (event.Recorded? ==> !Names(log, event.pending.id))
  {
    var more := log + [event];
    assert more[|log|] == event && forall k: nat | k < |log| :: more[k] == log[k];
    if Names(log, id) {
      var k: nat :| k < |log| && log[k].Recorded? && log[k].pending.id == id;
      assert more[k].Recorded?;
    }
    if event.Recorded? && Names(log, event.pending.id) {
      var k: nat :| k < |log| && log[k].Recorded? && log[k].pending.id == event.pending.id;
      assert more[k].pending.id == more[|log|].pending.id;
    }
    if NamesOnce(more) {
      forall i: nat, j: nat | i < j < |log| && log[i].Recorded? && log[j].Recorded?
        ensures log[i].pending.id != log[j].pending.id
      {
        assert more[i].pending.id != more[j].pending.id;
      }
    }
  }

  /** What a step that records no proposal does to the log. */
  ghost predicate Quietly(log: seq<Event>, later: seq<Event>) {
    && (NamesOnce(later) <==> NamesOnce(log))
    && forall id :: Names(later, id) <==> Names(log, id)
  }

  lemma EmitsQuietly(s: State, event: Event, io: Io)
    requires !event.Recorded?
    ensures Quietly(s.log, Emitted(s, event, io).log)
  {
    forall id ensures Names(s.log + [event], id) <==> Names(s.log, id) {
      NamesMore(s.log, event, id);
    }
    NamesMore(s.log, event, ProposalId(0, 0));
  }

  lemma CreatesQuietly(s: State, at: nat, created: Option<Item>, io: Io)
    requires at < |s.entries|
    ensures Quietly(s.log, CreatedFrom(s, at, created, io).log)
  {
    if created.Some? {
      EmitsQuietly(Marked(s, at), Created(s.entries[at].pending.id, created.value), io);
    }
  }

  lemma ApprovesQuietly(tracked: bool, s: State, id: ProposalId, t: Trial)
    ensures Quietly(s.log, ApprovedBy(tracked, s, id, t).log)
  {
    var at := Awaiting(s.entries, id);
    if at.Some? {
      var event := Event.Approved(s.entries[at.value].pending);
      EmitsQuietly(s, event, t.io);
      CreatesQuietly(Emitted(s, event, t.io), at.value, t.created, t.createdIo);
    }
  }

  lemma RejectsQuietly(s: State, id: ProposalId, tooLong: bool, io: Io)
    ensures Quietly(s.log, RejectedBy(s, id, tooLong, io).log)
  {
    var at := Awaiting(s.entries, id);
    if at.Some? {
      EmitsQuietly(s, Rejected(s.entries[at.value].pending), io);
    }
  }

  lemma {:induction false} AdmitsQuietly(policy: Policy, tracked: bool, s: State, pending: seq<Pending>,
                                         trials: nat -> Trial, at: nat, left: seq<Pending>)
    ensures Quietly(s.log, AdmittedFrom(policy, tracked, s, pending, trials, at, left).state.log)
    decreases |pending| - at
  {
    if at < |pending| {
      var next := Tried(policy, tracked, s, pending[at], trials(at));
      var held := Awaiting(s.entries, pending[at].id);
      if held.Some? {
        var event := AdmissionOf(policy, s.entries[held.value].pending, trials(at).attribution);
        EmitsQuietly(s, event, trials(at).io);
        CreatesQuietly(Emitted(s, event, trials(at).io), held.value, trials(at).created, trials(at).createdIo);
      }
      AdmitsQuietly(policy, tracked, next, pending, trials, at + 1,
        if |next.made| == |s.made| then left + [pending[at]] else left);
    }
  }

  /** Every id given so far is of an earlier turn, or of a place up to one. */
  ghost predicate GivenTo(log: seq<Event>, turn: nat, place: nat) {
    forall id | Names(log, id) :: id.turn < turn || (id.turn == turn && id.place <= place)
  }

  lemma RecordNames(s: State, next: Pending, resembling: Option<Reason>, io: Io)
    requires NamesOnce(s.log)
    ensures var log := Emitted(s, Recorded(next, resembling), io).log;
      if io.append.Failed? then log == s.log
      else
        && (NamesOnce(log) <==> !Names(s.log, next.id))
        && forall id :: Names(log, id) <==> Names(s.log, id) || id == next.id
  {
    forall id ensures Names(s.log + [Recorded(next, resembling)], id) <==> Names(s.log, id) || id == next.id {
      NamesMore(s.log, Recorded(next, resembling), id);
    }
    NamesMore(s.log, Recorded(next, resembling), next.id);
  }

  /** What has been given out: no id twice, and none past the turn's next, which is given already where recording it
      tore. */
  ghost predicate Numbered(s: State, torn: bool) {
    && NamesOnce(s.log) && GivenTo(s.log, s.turns, NextId(s).place)
    && (Names(s.log, NextId(s)) <==> torn)
  }

  lemma SavesNamed(s: State, save: Write, torn: bool)
    ensures Numbered(SavedAs(s, save), torn) <==> Numbered(s, torn)
  {
  }

  lemma EmitsNamed(s: State, next: Pending, resembling: Option<Reason>, io: Io, torn: bool)
    requires Numbered(s, torn) && next.id == NextId(s)
    ensures var t := Emitted(s, Recorded(next, resembling), io);
      && (NamesOnce(t.log) <==> io.append.Failed? || !torn)
      && (NamesOnce(t.log) ==> Numbered(t, torn || !io.append.Failed?))
  {
    RecordNames(s, next, resembling, io);
    assert NextId(Emitted(s, Recorded(next, resembling), io)) == NextId(s);
  }

  /** Once the next is held, another place is next. */
  lemma HoldsNamed(s: State, next: Pending)
    requires Numbered(s, true) && next.id == NextId(s)
    ensures Numbered(WithEntry(s, next), false)
  {
    var held := WithEntry(s, next);
    assert held.entries[..|s.entries|] == s.entries;
    assert LastPlace(held.entries, s.turns) == NextId(s).place;
  }

  /** Everything a reply proposes, from one place on, was recorded and saved. */
  ghost predicate RecordsFrom(reply: Reply, at: nat, none: bool) {
    && (forall k: nat | at <= k < |reply.proposals| :: WentThrough(reply.io(k)))
    && ((none && at >= |reply.proposals|) || reply.save.Done?)
  }

  /** Recording a reply's proposals gives each an id of its own, and what is held then is all the turn has given. */
  lemma {:induction false} RecordedNames(policy: Policy, s: State, reply: Reply, at: nat, pending: seq<Pending>)
      returns (torn: bool)
    requires Numbered(s, false) && LastPlace(s.entries, s.turns) == at
    ensures var account := RecordedFrom(policy, s, reply, at, pending);
      account.state.turns == s.turns && Numbered(account.state, torn) && (account.ok ==> !torn)
    decreases |reply.proposals| - at
  {
    torn := false;
    if at < |reply.proposals| {
      var next := AskedAt(policy, s.turns, reply, at);
      var resembling := ResemblanceAt(reply.resembling, at);
      var emitted := Emitted(s, Recorded(next, resembling), reply.io(at));
      EmitsNamed(s, next, resembling, reply.io(at), false);
      if WentThrough(reply.io(at)) {
        HoldsNamed(emitted, next);
        torn := RecordedNames(policy, WithEntry(emitted, next), reply, at + 1, pending + [next]);
      } else {
        torn := !reply.io(at).append.Failed?;
      }
    } else {
      SavesNamed(s, reply.save, false);
    }
  }

  lemma {:induction false} RecordedWhole(policy: Policy, s: State, reply: Reply, at: nat, pending: seq<Pending>)
    requires at <= |reply.proposals|
    ensures RecordedFrom(policy, s, reply, at, pending).ok <==> RecordsFrom(reply, at, pending == [])
    decreases |reply.proposals| - at
  {
    if at < |reply.proposals| && WentThrough(reply.io(at)) {
      var next := AskedAt(policy, s.turns, reply, at);
      var emitted := Emitted(s, Recorded(next, ResemblanceAt(reply.resembling, at)), reply.io(at));
      RecordedWhole(policy, WithEntry(emitted, next), reply, at + 1, pending + [next]);
    }
  }

  /** A creation in a lane whose proposal reached the log. */
  predicate Reaches(policy: Policy, tracked: bool, c: LaneCreation) {
    c.requested.Done? && Proposes(policy, tracked, c) && !c.io.append.Failed?
  }

  /** And one that did and was reported failed, so that it is not held. */
  predicate Tears(policy: Policy, tracked: bool, c: LaneCreation) {
    Reaches(policy, tracked, c) && !WentThrough(c.io)
  }

  ghost predicate AnyTears(policy: Policy, tracked: bool, lane: seq<LaneCreation>) {
    exists m | 0 <= m < |lane| :: Tears(policy, tracked, lane[m])
  }

  /** One creation of a lane tears and a later one reaches the log. */
  ghost predicate Collides(policy: Policy, tracked: bool, lane: seq<LaneCreation>) {
    exists n | 0 <= n < |lane| :: Reaches(policy, tracked, lane[n]) && AnyTears(policy, tracked, lane[..n])
  }

  lemma CollidesMore(policy: Policy, tracked: bool, lane: seq<LaneCreation>)
    requires lane != []
    ensures var before, last := lane[..|lane| - 1], lane[|lane| - 1];
      AnyTears(policy, tracked, lane) <==> AnyTears(policy, tracked, before) || Tears(policy, tracked, last)
    ensures var before, last := lane[..|lane| - 1], lane[|lane| - 1];
      Collides(policy, tracked, lane) <==>
        Collides(policy, tracked, before) || (Reaches(policy, tracked, last) && AnyTears(policy, tracked, before))
  {
    var before, n := lane[..|lane| - 1], |lane| - 1;
    assert forall m | 0 <= m < n :: before[m] == lane[m] && before[..m] == lane[..m];
  }

  lemma LaneProposalNames(policy: Policy, s: State, c: LaneCreation, torn: bool)
    requires Numbered(s, torn)
    ensures var t := LaneProposed(policy, s, c);
      && t.turns == s.turns
      && (NamesOnce(t.log) <==> c.io.append.Failed? || !torn)
      && (NamesOnce(t.log) ==> Numbered(t, torn || (!c.io.append.Failed? && !WentThrough(c.io))))
  {
    var next := Asked(policy, NextId(s), c.proposal, c.attribution, c.resembling);
    var emitted := Emitted(s, Recorded(next, c.resembling), c.io);
    EmitsNamed(s, next, c.resembling, c.io, torn);
    if WentThrough(c.io) && !torn {
      HoldsNamed(emitted, next);
      SavesNamed(WithEntry(emitted, next), c.save, false);
    }
  }

  lemma LaneTakenNames(policy: Policy, tracked: bool, s: State, c: LaneCreation, torn: bool)
    requires Numbered(s, torn)
    ensures var t := LaneTaken(policy, tracked, s, c);
      && t.turns == s.turns
      && (NamesOnce(t.log) <==> !(Reaches(policy, tracked, c) && torn))
      && (NamesOnce(t.log) ==> Numbered(t, torn || Tears(policy, tracked, c)))
  {
    var requested := SavedAs(s, c.requested);
    SavesNamed(s, c.requested, torn);
    if c.requested.Done? && Proposes(policy, tracked, c) {
      LaneProposalNames(policy, requested, c, torn);
      SavesNamed(LaneProposed(policy, requested, c), c.told, torn || Tears(policy, tracked, c));
    } else if c.requested.Done? {
      SavesNamed(requested, c.told, torn);
    }
  }

  lemma LaneTakenTwice(policy: Policy, tracked: bool, s: State, c: LaneCreation)
    requires !NamesOnce(s.log)
    ensures !NamesOnce(LaneTaken(policy, tracked, s, c).log)
  {
    var requested := SavedAs(s, c.requested);
    var next := Asked(policy, NextId(requested), c.proposal, c.attribution, c.resembling);
    NamesMore(s.log, Recorded(next, c.resembling), next.id);
  }

  lemma {:induction false} LaneTwice(policy: Policy, tracked: bool, s: State, lane: seq<LaneCreation>)
    requires !NamesOnce(s.log)
    ensures !NamesOnce(LaneFrom(policy, tracked, s, lane).log)
    decreases |lane|
  {
    if lane != [] {
      var n := |lane| - 1;
      LaneTwice(policy, tracked, s, lane[..n]);
      LaneTakenTwice(policy, tracked, LaneFrom(policy, tracked, s, lane[..n]), lane[n]);
    }
  }

  lemma {:induction false} RecordedTwice(policy: Policy, s: State, reply: Reply, at: nat, pending: seq<Pending>)
    requires !NamesOnce(s.log)
    ensures !NamesOnce(RecordedFrom(policy, s, reply, at, pending).state.log)
    decreases |reply.proposals| - at
  {
    if at < |reply.proposals| {
      var next := AskedAt(policy, s.turns, reply, at);
      var event := Recorded(next, ResemblanceAt(reply.resembling, at));
      NamesMore(s.log, event, next.id);
      if WentThrough(reply.io(at)) {
        RecordedTwice(policy, WithEntry(Emitted(s, event, reply.io(at)), next), reply, at + 1, pending + [next]);
      }
    }
  }

  lemma {:induction false} LaneNames(policy: Policy, tracked: bool, s: State, lane: seq<LaneCreation>)
    requires Numbered(s, false)
    ensures var t := LaneFrom(policy, tracked, s, lane);
      && t.turns == s.turns
      && (NamesOnce(t.log) <==> !Collides(policy, tracked, lane))
      && (NamesOnce(t.log) ==> Numbered(t, AnyTears(policy, tracked, lane)))
    decreases |lane|
  {
    if lane != [] {
      var before, last := lane[..|lane| - 1], lane[|lane| - 1];
      var t := LaneFrom(policy, tracked, s, before);
      LaneNames(policy, tracked, s, before);
      CollidesMore(policy, tracked, lane);
      if Collides(policy, tracked, before) {
        LaneTakenTwice(policy, tracked, t, last);
      } else {
        LaneTakenNames(policy, tracked, t, last, AnyTears(policy, tracked, before));
      }
    }
  }

  lemma {:induction false} NonePlaced(entries: seq<Entry>, turn: nat)
    requires forall i | 0 <= i < |entries| :: entries[i].pending.id.turn != turn
    ensures LastPlace(entries, turn) == 0
    decreases |entries|
  {
    if entries != [] {
      NonePlaced(entries[..|entries| - 1], turn);
    }
  }

  /** Where places stand is told by what is held, decided or not. */
  lemma {:induction false} SamePlaces(entries: seq<Entry>, others: seq<Entry>, turn: nat)
    requires Held(entries) == Held(others)
    ensures LastPlace(entries, turn) == LastPlace(others, turn)
    decreases |entries|
  {
    assert |entries| == |Held(entries)| == |others|;
    if entries != [] {
      var n := |entries| - 1;
      assert Held(entries[..n]) == Held(entries)[..n] == Held(others)[..n] == Held(others[..n]);
      assert Held(entries)[n] == Held(others)[n];
      SamePlaces(entries[..n], others[..n], turn);
    }
  }

  /** A reply all of whose proposals were recorded, and whose lane gives one id twice: told by the reply alone. */
  ghost predicate NamesTwice(policy: Policy, tracked: bool, step: Step) {
    && step.Answer? && step.reply.turnSave.Done? && RecordsFrom(step.reply, 0, true)
    && Collides(policy, tracked, step.reply.lane)
  }

  ghost predicate Within(s: State) { forall id | Names(s.log, id) :: id.turn <= s.savedTurns }

  lemma ProposedNames(policy: Policy, tracked: bool, s: State, reply: Reply, trials: nat -> Trial)
    requires Placing(s, 0) && Numbered(s, false) && LastPlace(s.entries, s.turns) == 0
    ensures var t := Proposed(policy, tracked, s, reply, trials);
      && (NamesOnce(t.log) <==> !(RecordsFrom(reply, 0, true) && Collides(policy, tracked, reply.lane)))
      && (NamesOnce(t.log) ==> Within(t))
  {
    var account := RecordedFrom(policy, s, reply, 0, []);
    var torn := RecordedNames(policy, s, reply, 0, []);
    RecordedWhole(policy, s, reply, 0, []);
    RecordOrders(policy, s, reply, 0, []);
    if account.ok {
      var admitted := AdmittedFrom(policy, tracked, account.state, account.pending, trials, 0, []).state;
      AdmitFromOrders(policy, tracked, account.state, account.pending, trials, 0, []);
      AdmitsQuietly(policy, tracked, account.state, account.pending, trials, 0, []);
      SamePlaces(admitted.entries, account.state.entries, s.turns);
      assert Numbered(admitted, false);
      LaneOrders(policy, tracked, admitted, reply.lane);
      LaneNames(policy, tracked, admitted, reply.lane);
    }
  }

  lemma AnswerNames(policy: Policy, tracked: bool, s: State, reply: Reply, trials: nat -> Trial)
    requires Ordered(s) && NamesOnce(s.log) && Within(s)
    ensures var t := Replied(policy, tracked, s, reply, trials);
      && (NamesOnce(t.log) <==> !NamesTwice(policy, tracked, Answer(reply, trials)))
      && (NamesOnce(t.log) ==> Within(t))
  {
    TurnPlaces(s, reply.turnSave);
    if reply.turnSave.Done? {
      var turned := Turned(s, reply.turnSave);
      NonePlaced(turned.entries, turned.turns);
      ProposedNames(policy, tracked, turned, reply, trials);
    }
  }

  lemma AnswerTwice(policy: Policy, tracked: bool, s: State, reply: Reply, trials: nat -> Trial)
    requires !NamesOnce(s.log)
    ensures !NamesOnce(Replied(policy, tracked, s, reply, trials).log)
  {
    if reply.turnSave.Done? {
      var account := RecordedFrom(policy, Turned(s, reply.turnSave), reply, 0, []);
      RecordedTwice(policy, Turned(s, reply.turnSave), reply, 0, []);
      AdmitsQuietly(policy, tracked, account.state, account.pending, trials, 0, []);
      LaneTwice(policy, tracked,
        AdmittedFrom(policy, tracked, account.state, account.pending, trials, 0, []).state, reply.lane);
    }
  }

  lemma StepNames(policy: Policy, tracked: bool, s: State, step: Step)
    requires Ordered(s) && (NamesOnce(s.log) ==> Within(s))
    ensures var t := After(policy, tracked, s, step);
      && (NamesOnce(t.log) <==> NamesOnce(s.log) && !NamesTwice(policy, tracked, step))
      && (NamesOnce(t.log) ==> Within(t))
  {
    match step
    case Answer(reply, trials) =>
      if NamesOnce(s.log) {
        AnswerNames(policy, tracked, s, reply, trials);
      } else {
        AnswerTwice(policy, tracked, s, reply, trials);
      }
    case Approve(id, trial) =>
      ApproveOrders(tracked, s, id, trial);
      ApprovesQuietly(tracked, s, id, trial);
    case Reject(id, tooLong, io) =>
      RejectOrders(s, id, tooLong, io);
      RejectsQuietly(s, id, tooLong, io);
    case Save(save) =>
    case TakeUp =>
  }

  ghost predicate NoneTwice(policy: Policy, tracked: bool, steps: seq<Step>) {
    forall k | 0 <= k < |steps| :: !NamesTwice(policy, tracked, steps[k])
  }

  lemma NoneTwiceMore(policy: Policy, tracked: bool, steps: seq<Step>)
    requires steps != []
    ensures NoneTwice(policy, tracked, steps)
       <==> NoneTwice(policy, tracked, steps[..|steps| - 1]) && !NamesTwice(policy, tracked, steps[|steps| - 1])
  {
    var before := steps[..|steps| - 1];
    assert forall k | 0 <= k < |before| :: before[k] == steps[k];
  }

  /** Over every run: no two recorded events share an id exactly when no reply had, after proposals all of which were
      recorded, a creation in its lane that reached the log without being held and then another that reached it. */
  lemma {:induction false} NamedOnceExactly(policy: Policy, tracked: bool, steps: seq<Step>)
    ensures NamesOnce(Run(policy, tracked, steps).log) <==> NoneTwice(policy, tracked, steps)
    ensures NamesOnce(Run(policy, tracked, steps).log) ==> Within(Run(policy, tracked, steps))
    decreases |steps|
  {
    if steps != [] {
      var before, n := steps[..|steps| - 1], |steps| - 1;
      NamedOnceExactly(policy, tracked, before);
      RunOrders(policy, tracked, before);
      StepNames(policy, tracked, Run(policy, tracked, before), steps[n]);
      NoneTwiceMore(policy, tracked, steps);
    }
  }
}
