/** What the ledger of proposals keeps over every run of one conversation, by one process or by several that take its
    record up after one another: internal/chat/chat.go, internal/chat/admission.go. */
module LedgerRuns {
  import opened Text
  import opened Admission
  import opened Ledger

  /** `TakeUp` is the record re-read at the prompt, or by a later process: after anything at all, saved or not. */
  datatype Step =
    | Answer(reply: Reply, trials: nat -> Trial)
    | Approve(id: ProposalId, trial: Trial)
    | Reject(id: ProposalId, tooLong: bool, io: Io)
    | Save(save: Write)
    | TakeUp

  ghost function After(policy: Policy, tracked: bool, s: State, step: Step): State {
    match step
    case Answer(reply, trials) => Replied(policy, tracked, s, reply, trials)
    case Approve(id, trial) => ApprovedBy(tracked, s, id, trial)
    case Reject(id, tooLong, io) => RejectedBy(s, id, tooLong, io)
    case Save(save) => SavedAs(s, save)
    case TakeUp => TakenUp(s)
  }

  ghost function Run(policy: Policy, tracked: bool, steps: seq<Step>): State
    decreases |steps|
  {
    if steps == [] then Fresh() else
      After(policy, tracked, Run(policy, tracked, steps[..|steps| - 1]), steps[|steps| - 1])
  }

  // ---- What is held and what is saved ----

  ghost predicate DistinctIds(pending: seq<Pending>) {
    forall i: nat, j: nat | i < j < |pending| :: pending[i].id != pending[j].id
  }

  function Held(entries: seq<Entry>): (pending: seq<Pending>)
    ensures |pending| == |entries| && forall i | 0 <= i < |entries| :: pending[i] == entries[i].pending
  {
    seq(|entries|, i requires 0 <= i < |entries| => entries[i].pending)
  }

  /** Ids are distinct, each was given out by a turn the record counts, and the record lists nothing else. */
  ghost predicate Ordered(s: State) {
    && DistinctIds(Held(s.entries)) && s.savedTurns <= s.turns
    && (forall i | 0 <= i < |s.entries| :: s.entries[i].pending.id.turn <= s.savedTurns)
    && DistinctIds(s.saved) && forall p | p in s.saved :: p in Held(s.entries)
  }

  lemma {:induction false} UndecidedAreHeld(entries: seq<Entry>)
    requires DistinctIds(Held(entries))
    ensures DistinctIds(Undecided(entries)) && forall p | p in Undecided(entries) :: p in Held(entries)
    decreases |entries|
  {
    if entries != [] {
      var before, last := entries[..|entries| - 1], entries[|entries| - 1];
      assert Held(entries) == Held(before) + [last.pending];
      assert DistinctIds(Held(before)) by {
        forall i: nat, j: nat | i < j < |before| ensures Held(before)[i].id != Held(before)[j].id {
          assert Held(before)[i] == Held(entries)[i] && Held(before)[j] == Held(entries)[j];
        }
      }
      UndecidedAreHeld(before);
      LastIsNew(before, last);
    }
  }

  lemma LastIsNew(before: seq<Entry>, last: Entry)
    requires DistinctIds(Held(before + [last]))
    ensures forall p | p in Held(before) :: p.id != last.pending.id
  {
    var all := Held(before + [last]);
    forall p | p in Held(before) ensures p.id != last.pending.id {
      var i :| 0 <= i < |before| && Held(before)[i] == p;
      assert all[i] == p && all[|before|] == last.pending;
    }
  }

  /** What the record lists of what is undecided is the last of it, twenty or as many as there are. */
  lemma NewestExactly(pending: seq<Pending>)
    ensures var kept := Newest(pending);
      && |kept| == (if |pending| < 20 then |pending| else 20)
      && forall i | 0 <= i < |kept| :: kept[i] == pending[|pending| - |kept| + i]
  {
  }

  lemma NewestAreListed(pending: seq<Pending>)
    requires DistinctIds(pending)
    ensures DistinctIds(Newest(pending)) && forall p | p in Newest(pending) :: p in pending
  {
  }

  /** What no decision changes: which proposals are held, and that the record only gains turns. */
  ghost predicate Later(s: State, t: State) {
    Held(t.entries) == Held(s.entries) && t.turns == s.turns && s.savedTurns <= t.savedTurns
  }

  lemma SaveOrders(s: State, save: Write)
    requires Ordered(s)
    ensures Ordered(SavedAs(s, save)) && Later(s, SavedAs(s, save))
  {
    UndecidedAreHeld(s.entries);
    NewestAreListed(Undecided(s.entries));
  }

  lemma EmitOrders(s: State, event: Event, io: Io)
    requires Ordered(s)
    ensures Ordered(Emitted(s, event, io)) && Later(s, Emitted(s, event, io))
  {
    SaveOrders(s.(log := s.log + [event]), io.save);
  }

  /** A decision changes which proposals are decided and nothing of which are held. */
  lemma MarkOrders(s: State, at: nat, made: seq<ProposalId>)
    requires Ordered(s) && at < |s.entries|
    ensures Held(s.entries[at := s.entries[at].(decided := true)]) == Held(s.entries)
    ensures Ordered(s.(entries := s.entries[at := s.entries[at].(decided := true)], made := made))
  {
    assert Held(s.entries[at := s.entries[at].(decided := true)]) == Held(s.entries);
  }

  lemma CreateOrders(s: State, at: nat, created: Option<Item>, io: Io)
    requires Ordered(s) && at < |s.entries|
    ensures Ordered(CreatedFrom(s, at, created, io)) && Later(s, CreatedFrom(s, at, created, io))
  {
    if created.Some? {
      var id := s.entries[at].pending.id;
      MarkOrders(s, at, s.made + [id]);
      EmitOrders(s.(entries := s.entries[at := s.entries[at].(decided := true)], made := s.made + [id]),
                 Created(id, created.value), io);
    }
  }

  lemma ApproveOrders(tracked: bool, s: State, id: ProposalId, t: Trial)
    requires Ordered(s)
    ensures Ordered(ApprovedBy(tracked, s, id, t)) && Later(s, ApprovedBy(tracked, s, id, t))
  {
    var at := Awaiting(s.entries, id);
    if at.Some? {
      var event := Event.Approved(s.entries[at.value].pending);
      EmitOrders(s, event, t.io);
      CreateOrders(Emitted(s, event, t.io), at.value, t.created, t.createdIo);
    }
  }

  lemma RejectOrders(s: State, id: ProposalId, tooLong: bool, io: Io)
    requires Ordered(s)
    ensures Ordered(RejectedBy(s, id, tooLong, io)) && Later(s, RejectedBy(s, id, tooLong, io))
  {
    var at := Awaiting(s.entries, id);
    if at.Some? {
      var rejected := Emitted(s, Rejected(s.entries[at.value].pending), io);
      EmitOrders(s, Rejected(s.entries[at.value].pending), io);
      MarkOrders(rejected, at.value, rejected.made);
    }
  }

  lemma TrialOrders(policy: Policy, tracked: bool, s: State, pending: Pending, t: Trial)
    requires Ordered(s)
    ensures Ordered(Tried(policy, tracked, s, pending, t)) && Later(s, Tried(policy, tracked, s, pending, t))
  {
    var at := Awaiting(s.entries, pending.id);
    if at.Some? {
      var event := AdmissionOf(policy, s.entries[at.value].pending, t.attribution);
      EmitOrders(s, event, t.io);
      CreateOrders(Emitted(s, event, t.io), at.value, t.created, t.createdIo);
    }
  }

  lemma {:induction false} AdmitFromOrders(policy: Policy, tracked: bool, s: State, pending: seq<Pending>,
                                           trials: nat -> Trial, at: nat, left: seq<Pending>)
    requires Ordered(s)
    ensures Ordered(AdmittedFrom(policy, tracked, s, pending, trials, at, left).state)
    ensures Later(s, AdmittedFrom(policy, tracked, s, pending, trials, at, left).state)
    decreases |pending| - at
  {
    if at < |pending| {
      var next := Tried(policy, tracked, s, pending[at], trials(at));
      TrialOrders(policy, tracked, s, pending[at], trials(at));
      AdmitFromOrders(policy, tracked, next, pending, trials, at + 1,
                      if |next.made| == |s.made| then left + [pending[at]] else left);
    }
  }

  /** The turn whose places are being given out is counted by the record, and this place is yet to be. */
  ghost predicate Placing(s: State, place: nat) {
    && Ordered(s) && s.savedTurns == s.turns
    && forall i | 0 <= i < |s.entries| && s.entries[i].pending.id.turn == s.turns ::
      s.entries[i].pending.id.place <= place
  }

  function WithEntry(s: State, pending: Pending): State { s.(entries := s.entries + [Entry(pending, false)]) }

  lemma EntryPlaces(s: State, at: nat, next: Pending)
    requires Placing(s, at) && next.id == ProposalId(s.turns, at + 1)
    ensures Placing(WithEntry(s, next), at + 1)
  {
    var t := WithEntry(s, next);
    assert Held(t.entries) == Held(s.entries) + [next];
    forall i: nat, j: nat | i < j < |t.entries| ensures Held(t.entries)[i].id != Held(t.entries)[j].id {
      if j == |s.entries| {
        assert Held(t.entries)[i] == s.entries[i].pending;
      } else {
        assert Held(s.entries)[i].id != Held(s.entries)[j].id;
      }
    }
  }

  lemma EmitPlaces(s: State, event: Event, io: Io, at: nat)
    requires Placing(s, at)
    ensures Placing(Emitted(s, event, io), at)
  {
    EmitOrders(s, event, io);
  }

  /** Nothing is held that was not, but of one turn. */
  ghost predicate Onward(s: State, t: State, turn: nat) {
    s.savedTurns <= t.savedTurns && forall p | p in Held(t.entries) :: p in Held(s.entries) || p.id.turn == turn
  }

  lemma {:induction false} RecordOrders(policy: Policy, s: State, reply: Reply, at: nat, pending: seq<Pending>)
    requires Placing(s, at)
    ensures Ordered(RecordedFrom(policy, s, reply, at, pending).state)
    ensures Onward(s, RecordedFrom(policy, s, reply, at, pending).state, s.turns)
    ensures RecordedFrom(policy, s, reply, at, pending).state.turns == s.turns
    decreases |reply.proposals| - at
  {
    if at >= |reply.proposals| {
      SaveOrders(s, reply.save);
    } else {
      var next := AskedAt(policy, s.turns, reply, at);
      var event := Recorded(next, ResemblanceAt(reply.resembling, at));
      EmitPlaces(s, event, reply.io(at), at);
      if WentThrough(reply.io(at)) {
        var emitted := Emitted(s, event, reply.io(at));
        EntryPlaces(emitted, at, next);
        assert Held(WithEntry(emitted, next).entries) == Held(s.entries) + [next];
        RecordOrders(policy, WithEntry(emitted, next), reply, at + 1, pending + [next]);
      }
    }
  }

  lemma LaneProposalPlaces(policy: Policy, s: State, c: LaneCreation)
    requires Placing(s, LastPlace(s.entries, s.turns))
    ensures var t := LaneProposed(policy, s, c);
      Placing(t, LastPlace(t.entries, t.turns)) && t.turns == s.turns && Onward(s, t, s.turns)
  {
    var place := LastPlace(s.entries, s.turns);
    var next := Asked(policy, NextId(s), c.proposal, c.attribution, c.resembling);
    var event := Recorded(next, c.resembling);
    EmitPlaces(s, event, c.io, place);
    if WentThrough(c.io) {
      var held := WithEntry(Emitted(s, event, c.io), next);
      EntryPlaces(Emitted(s, event, c.io), place, next);
      HeldWith(s.entries, next);
      SaveOrders(held, c.save);
    }
  }

  lemma LanePlaces(policy: Policy, tracked: bool, s: State, c: LaneCreation)
    requires Placing(s, LastPlace(s.entries, s.turns))
    ensures var t := LaneTaken(policy, tracked, s, c);
      Placing(t, LastPlace(t.entries, t.turns)) && t.turns == s.turns && Onward(s, t, s.turns)
  {
    var requested := SavedAs(s, c.requested);
    SaveOrders(s, c.requested);
    LaneProposalPlaces(policy, requested, c);
    SaveOrders(if Proposes(policy, tracked, c) then LaneProposed(policy, requested, c) else requested, c.told);
  }

  lemma {:induction false} LaneOrders(policy: Policy, tracked: bool, s: State, lane: seq<LaneCreation>)
    requires Ordered(s) && s.savedTurns == s.turns
    ensures var t := LaneFrom(policy, tracked, s, lane);
      Placing(t, LastPlace(t.entries, t.turns)) && t.turns == s.turns && Onward(s, t, s.turns)
    decreases |lane|
  {
    if lane != [] {
      var n := |lane| - 1;
      LaneOrders(policy, tracked, s, lane[..n]);
      LanePlaces(policy, tracked, LaneFrom(policy, tracked, s, lane[..n]), lane[n]);
    }
  }

  lemma TurnPlaces(s: State, save: Write)
    requires Ordered(s)
    ensures Ordered(Turned(s, save)) && Turned(s, save).turns == s.turns + 1
        && s.savedTurns <= Turned(s, save).savedTurns
    ensures Held(Turned(s, save).entries) == Held(s.entries) && (save.Done? ==> Placing(Turned(s, save), 0))
  {
    SaveOrders(s.(turns := s.turns + 1), save);
  }

  lemma AnswerOrders(policy: Policy, tracked: bool, s: State, reply: Reply, trials: nat -> Trial)
    requires Ordered(s)
    ensures Ordered(Replied(policy, tracked, s, reply, trials))
    ensures Onward(s, Replied(policy, tracked, s, reply, trials), s.turns + 1)
  {
    TurnPlaces(s, reply.turnSave);
    if reply.turnSave.Done? {
      ProposeOrders(policy, tracked, Turned(s, reply.turnSave), reply, trials);
    }
  }

  lemma ProposeOrders(policy: Policy, tracked: bool, s: State, reply: Reply, trials: nat -> Trial)
    requires Placing(s, 0)
    ensures Ordered(Proposed(policy, tracked, s, reply, trials))
        && Onward(s, Proposed(policy, tracked, s, reply, trials), s.turns)
  {
    RecordOrders(policy, s, reply, 0, []);
    var account := RecordedFrom(policy, s, reply, 0, []);
    AdmitFromOrders(policy, tracked, account.state, account.pending, trials, 0, []);
    LaneOrders(policy, tracked, AdmittedFrom(policy, tracked, account.state, account.pending, trials, 0, []).state,
      reply.lane);
  }

  lemma {:induction false} ListedHolds(pending: seq<Pending>)
    ensures Held(Listed(pending)) == pending && forall i | 0 <= i < |Listed(pending)| :: !Listed(pending)[i].decided
    decreases |pending|
  {
    if pending != [] {
      ListedHolds(pending[..|pending| - 1]);
      assert Held(Listed(pending)) == Held(Listed(pending[..|pending| - 1])) + [pending[|pending| - 1]];
    }
  }

  lemma TakeUpOrders(s: State)
    requires Ordered(s)
    ensures Ordered(TakenUp(s))
  {
    ListedHolds(s.saved);
    var t := TakenUp(s);
    forall i | 0 <= i < |t.entries| ensures t.entries[i].pending.id.turn <= t.savedTurns {
      assert Held(t.entries)[i] in s.saved;
      var k :| 0 <= k < |s.entries| && Held(s.entries)[k] == Held(t.entries)[i];
    }
  }

  lemma StepOrders(policy: Policy, tracked: bool, s: State, step: Step)
    requires Ordered(s)
    ensures Ordered(After(policy, tracked, s, step))
  {
    match step
    case Answer(reply, trials) => AnswerOrders(policy, tracked, s, reply, trials);
    case Approve(id, trial) => ApproveOrders(tracked, s, id, trial);
    case Reject(id, tooLong, io) => RejectOrders(s, id, tooLong, io);
    case Save(save) => SaveOrders(s, save);
    case TakeUp => TakeUpOrders(s);
  }

  lemma {:induction false} RunOrders(policy: Policy, tracked: bool, steps: seq<Step>)
    ensures Ordered(Run(policy, tracked, steps))
    decreases |steps|
  {
    if steps != [] {
      RunOrders(policy, tracked, steps[..|steps| - 1]);
      StepOrders(policy, tracked, Run(policy, tracked, steps[..|steps| - 1]), steps[|steps| - 1]);
    }
  }

  // ---- The log ----

  ghost predicate WasRecorded(log: seq<Event>, pending: Pending) {
    exists k: nat :: k < |log| && log[k].Recorded? && log[k].pending == pending
  }

  /** That the operator approved it, or the harness admitted it. */
  ghost predicate WasAuthorized(log: seq<Event>, id: ProposalId) {
    exists k: nat :: k < |log| && (log[k].Approved? || log[k].Admitted?) && log[k].pending.id == id
  }

  ghost predicate AdmissionHolds(policy: Policy, event: Event)
    requires event.Admitted?
  {
    var proposal := event.pending.proposal;
    && event.pending.asking.None?
    && Gap(policy, event.attribution, proposal.class_).None?
    && event.basis == Authority(policy, event.attribution, proposal.goal, proposal.class_)
  }

  /** What an event may follow. */
  ghost predicate Follows(policy: Policy, log: seq<Event>, event: Event) {
    match event
    case Recorded(pending, resembling) => pending.asking.None? ==> resembling.None?
    case Approved(pending) => WasRecorded(log, pending)
    case Admitted(pending, _, _) => WasRecorded(log, pending) && AdmissionHolds(policy, event)
    case Rejected(pending) => WasRecorded(log, pending)
    case Created(id, _) => WasAuthorized(log, id)
  }

  ghost predicate Sound(policy: Policy, log: seq<Event>) {
    log == [] || (Sound(policy, log[..|log| - 1]) && Follows(policy, log[..|log| - 1], log[|log| - 1]))
  }

  ghost predicate AllRecorded(log: seq<Event>, held: seq<Pending>) {
    forall p | p in held :: WasRecorded(log, p)
  }

  ghost predicate Kept(policy: Policy, s: State) { Sound(policy, s.log) && AllRecorded(s.log, Held(s.entries)) }

  lemma RecordedStays(log: seq<Event>, event: Event, pending: Pending)
    requires WasRecorded(log, pending)
    ensures WasRecorded(log + [event], pending)
  {
    var k: nat :| k < |log| && log[k].Recorded? && log[k].pending == pending;
    assert (log + [event])[k] == log[k];
  }

  lemma EmitKeeps(policy: Policy, s: State, event: Event, io: Io)
    requires Kept(policy, s) && Follows(policy, s.log, event)
    ensures Kept(policy, Emitted(s, event, io))
  {
    forall p | p in Held(s.entries) ensures WasRecorded(s.log + [event], p) {
      RecordedStays(s.log, event, p);
    }
    assert (s.log + [event])[..|s.log|] == s.log;
  }

  lemma CreateKeeps(policy: Policy, s: State, at: nat, created: Option<Item>, io: Io)
    requires Kept(policy, s) && at < |s.entries| && WasAuthorized(s.log, s.entries[at].pending.id)
    ensures Kept(policy, CreatedFrom(s, at, created, io))
  {
    if created.Some? {
      var id := s.entries[at].pending.id;
      var marked := s.(entries := s.entries[at := s.entries[at].(decided := true)], made := s.made + [id]);
      assert Held(marked.entries) == Held(s.entries);
      EmitKeeps(policy, marked, Created(id, created.value), io);
    }
  }

  lemma LastAuthorizes(s: State, event: Event, io: Io)
    requires (event.Approved? || event.Admitted?) && WentThrough(io)
    ensures WasAuthorized(Emitted(s, event, io).log, event.pending.id)
  {
    assert (s.log + [event])[|s.log|] == event;
  }

  lemma HeldThere(entries: seq<Entry>, at: nat)
    requires at < |entries|
    ensures entries[at].pending in Held(entries)
  {
    assert Held(entries)[at] == entries[at].pending;
  }

  lemma ApproveKeeps(policy: Policy, tracked: bool, s: State, id: ProposalId, t: Trial)
    requires Kept(policy, s)
    ensures Kept(policy, ApprovedBy(tracked, s, id, t))
  {
    var at := Awaiting(s.entries, id);
    if at.Some? {
      HeldThere(s.entries, at.value);
      var event := Event.Approved(s.entries[at.value].pending);
      EmitKeeps(policy, s, event, t.io);
      if WentThrough(t.io) {
        LastAuthorizes(s, event, t.io);
        CreateKeeps(policy, Emitted(s, event, t.io), at.value, t.created, t.createdIo);
      }
    }
  }

  lemma RejectKeeps(policy: Policy, s: State, id: ProposalId, tooLong: bool, io: Io)
    requires Kept(policy, s)
    ensures Kept(policy, RejectedBy(s, id, tooLong, io))
  {
    var at := Awaiting(s.entries, id);
    if at.Some? {
      HeldThere(s.entries, at.value);
      EmitKeeps(policy, s, Rejected(s.entries[at.value].pending), io);
      assert Held(s.entries[at.value := s.entries[at.value].(decided := true)]) == Held(s.entries);
    }
  }

  /** What is held under an id is the one proposal of that id. */
  lemma HeldOnce(s: State, pending: Pending, at: nat)
    requires Ordered(s) && pending in Held(s.entries) && at < |s.entries| && s.entries[at].pending.id == pending.id
    ensures s.entries[at].pending == pending
  {
    var k :| 0 <= k < |s.entries| && Held(s.entries)[k] == pending;
    assert Held(s.entries)[at].id == Held(s.entries)[k].id;
  }

  lemma TrialKeeps(policy: Policy, tracked: bool, s: State, pending: Pending, t: Trial)
    requires Kept(policy, s) && Ordered(s) && pending in Held(s.entries)
    ensures Kept(policy, Tried(policy, tracked, s, pending, t))
  {
    var at := Awaiting(s.entries, pending.id);
    if at.Some? && Admissible(policy, pending.asking, pending.proposal.class_) {
      HeldOnce(s, pending, at.value);
      if Gap(policy, t.attribution, pending.proposal.class_).None? && tracked {
        AdmissionKeeps(policy, s, at.value, t);
      }
    }
  }

  lemma AdmissionKeeps(policy: Policy, s: State, at: nat, t: Trial)
    requires Kept(policy, s) && at < |s.entries|
    requires s.entries[at].pending.asking.None?
        && Gap(policy, t.attribution, s.entries[at].pending.proposal.class_).None?
    ensures var admitted := Emitted(s, AdmissionOf(policy, s.entries[at].pending, t.attribution), t.io);
      Kept(policy, if WentThrough(t.io) then CreatedFrom(admitted, at, t.created, t.createdIo) else admitted)
  {
    HeldThere(s.entries, at);
    var event := AdmissionOf(policy, s.entries[at].pending, t.attribution);
    EmitKeeps(policy, s, event, t.io);
    if WentThrough(t.io) {
      LastAuthorizes(s, event, t.io);
      CreateKeeps(policy, Emitted(s, event, t.io), at, t.created, t.createdIo);
    }
  }

  lemma {:induction false} AdmitFromKeeps(policy: Policy, tracked: bool, s: State, pending: seq<Pending>,
                                          trials: nat -> Trial, at: nat, left: seq<Pending>)
    requires Kept(policy, s) && Ordered(s) && forall p | p in pending :: p in Held(s.entries)
    ensures Kept(policy, AdmittedFrom(policy, tracked, s, pending, trials, at, left).state)
    decreases |pending| - at
  {
    if at < |pending| {
      var next := Tried(policy, tracked, s, pending[at], trials(at));
      TrialKeeps(policy, tracked, s, pending[at], trials(at));
      TrialOrders(policy, tracked, s, pending[at], trials(at));
      AdmitFromKeeps(policy, tracked, next, pending, trials, at + 1,
                     if |next.made| == |s.made| then left + [pending[at]] else left);
    }
  }

  lemma EntryKeeps(policy: Policy, s: State, pending: Pending, resembling: Option<Reason>, io: Io)
    requires Kept(policy, s) && WentThrough(io) && (pending.asking.None? ==> resembling.None?)
    ensures Kept(policy, WithEntry(Emitted(s, Recorded(pending, resembling), io), pending))
  {
    var event := Recorded(pending, resembling);
    EmitKeeps(policy, s, event, io);
    LastRecords(s.log, event);
    HeldWith(s.entries, pending);
  }

  lemma LastRecords(log: seq<Event>, event: Event)
    requires event.Recorded?
    ensures WasRecorded(log + [event], event.pending)
  {
    assert (log + [event])[|log|] == event;
  }

  lemma HeldWith(entries: seq<Entry>, pending: Pending)
    ensures Held(entries + [Entry(pending, false)]) == Held(entries) + [pending]
  {
  }

  lemma {:induction false} RecordKeeps(policy: Policy, s: State, reply: Reply, at: nat, pending: seq<Pending>)
    requires Kept(policy, s) && forall p | p in pending :: p in Held(s.entries)
    ensures var account := RecordedFrom(policy, s, reply, at, pending);
      Kept(policy, account.state) && forall p | p in account.pending :: p in Held(account.state.entries)
    decreases |reply.proposals| - at
  {
    if at < |reply.proposals| {
      var next := AskedAt(policy, s.turns, reply, at);
      var resembling := ResemblanceAt(reply.resembling, at);
      var emitted := Emitted(s, Recorded(next, resembling), reply.io(at));
      EmitKeeps(policy, s, Recorded(next, resembling), reply.io(at));
      if WentThrough(reply.io(at)) {
        EntryKeeps(policy, s, next, resembling, reply.io(at));
        assert Held(WithEntry(emitted, next).entries) == Held(s.entries) + [next];
        RecordKeeps(policy, WithEntry(emitted, next), reply, at + 1, pending + [next]);
      }
    }
  }

  lemma SaveKeeps(policy: Policy, s: State, save: Write)
    requires Kept(policy, s)
    ensures Kept(policy, SavedAs(s, save))
  {
  }

  lemma LaneProposalKeeps(policy: Policy, s: State, c: LaneCreation)
    requires Kept(policy, s)
    ensures Kept(policy, LaneProposed(policy, s, c))
  {
    var next := Asked(policy, NextId(s), c.proposal, c.attribution, c.resembling);
    EmitKeeps(policy, s, Recorded(next, c.resembling), c.io);
    if WentThrough(c.io) {
      EntryKeeps(policy, s, next, c.resembling, c.io);
      SaveKeeps(policy, WithEntry(Emitted(s, Recorded(next, c.resembling), c.io), next), c.save);
    }
  }

  lemma LaneTakenKeeps(policy: Policy, tracked: bool, s: State, c: LaneCreation)
    requires Kept(policy, s)
    ensures Kept(policy, LaneTaken(policy, tracked, s, c))
  {
    var requested := SavedAs(s, c.requested);
    SaveKeeps(policy, s, c.requested);
    LaneProposalKeeps(policy, requested, c);
    SaveKeeps(policy, if Proposes(policy, tracked, c) then LaneProposed(policy, requested, c) else requested, c.told);
  }

  lemma {:induction false} LaneKeeps(policy: Policy, tracked: bool, s: State, lane: seq<LaneCreation>)
    requires Kept(policy, s)
    ensures Kept(policy, LaneFrom(policy, tracked, s, lane))
    decreases |lane|
  {
    if lane != [] {
      var n := |lane| - 1;
      LaneKeeps(policy, tracked, s, lane[..n]);
      LaneTakenKeeps(policy, tracked, LaneFrom(policy, tracked, s, lane[..n]), lane[n]);
    }
  }

  lemma AnswerKeeps(policy: Policy, tracked: bool, s: State, reply: Reply, trials: nat -> Trial)
    requires Kept(policy, s) && Ordered(s)
    ensures Kept(policy, Replied(policy, tracked, s, reply, trials))
  {
    TurnPlaces(s, reply.turnSave);
    if reply.turnSave.Done? {
      ProposeKeeps(policy, tracked, Turned(s, reply.turnSave), reply, trials);
    }
  }

  lemma ProposeKeeps(policy: Policy, tracked: bool, s: State, reply: Reply, trials: nat -> Trial)
    requires Kept(policy, s) && Placing(s, 0)
    ensures Kept(policy, Proposed(policy, tracked, s, reply, trials))
  {
    RecordKeeps(policy, s, reply, 0, []);
    RecordOrders(policy, s, reply, 0, []);
    var account := RecordedFrom(policy, s, reply, 0, []);
    AdmitFromKeeps(policy, tracked, account.state, account.pending, trials, 0, []);
    LaneKeeps(policy, tracked, AdmittedFrom(policy, tracked, account.state, account.pending, trials, 0, []).state,
      reply.lane);
  }

  /** What the record lists was recorded, whoever takes it up. */
  lemma TakeUpKeeps(policy: Policy, s: State)
    requires Kept(policy, s) && Ordered(s)
    ensures Kept(policy, TakenUp(s))
  {
    ListedHolds(s.saved);
  }

  lemma StepKeeps(policy: Policy, tracked: bool, s: State, step: Step)
    requires Kept(policy, s) && Ordered(s)
    ensures Kept(policy, After(policy, tracked, s, step))
  {
    match step
    case Answer(reply, trials) => AnswerKeeps(policy, tracked, s, reply, trials);
    case Approve(id, trial) => ApproveKeeps(policy, tracked, s, id, trial);
    case Reject(id, tooLong, io) => RejectKeeps(policy, s, id, tooLong, io);
    case Save(save) =>
    case TakeUp => TakeUpKeeps(policy, s);
  }

  /** Over every run: ids are distinct and counted by the record, which lists only what is held, and whatever is
      held was recorded. */
  lemma {:induction false} RunKeeps(policy: Policy, tracked: bool, steps: seq<Step>)
    ensures Kept(policy, Run(policy, tracked, steps)) && Ordered(Run(policy, tracked, steps))
    decreases |steps|
  {
    RunOrders(policy, tracked, steps);
    if steps != [] {
      RunKeeps(policy, tracked, steps[..|steps| - 1]);
      StepKeeps(policy, tracked, Run(policy, tracked, steps[..|steps| - 1]), steps[|steps| - 1]);
    }
  }

  lemma {:induction false} SoundAt(policy: Policy, log: seq<Event>, k: nat)
    requires Sound(policy, log) && k < |log|
    ensures Sound(policy, log[..k]) && Follows(policy, log[..k], log[k])
    decreases |log|
  {
    if k < |log| - 1 {
      SoundAt(policy, log[..|log| - 1], k);
      assert log[..|log| - 1][..k] == log[..k];
    }
  }

  /** Every item created was authorized, and before that recorded, under the same proposal; by whichever process. */
  lemma CreatedWasAuthorized(policy: Policy, tracked: bool, steps: seq<Step>, k: nat) returns (i: nat, j: nat)
    requires k < |Run(policy, tracked, steps).log| && Run(policy, tracked, steps).log[k].Created?
    ensures var log := Run(policy, tracked, steps).log;
      && i < j < k && log[i].Recorded? && (log[j].Approved? || log[j].Admitted?)
      && log[i].pending == log[j].pending && log[j].pending.id == log[k].id
  {
    RunKeeps(policy, tracked, steps);
    var log := Run(policy, tracked, steps).log;
    SoundAt(policy, log, k);
    j :| j < k && (log[..k][j].Approved? || log[..k][j].Admitted?) && log[..k][j].pending.id == log[k].id;
    SoundAt(policy, log, j);
    i :| i < j && log[..j][i].Recorded? && log[..j][i].pending == log[j].pending;
  }

  /** Whatever was admitted without asking had nothing to ask about: when it was recorded it resembled nothing and
      nothing kept it out, nothing did at that moment, and the basis recorded is the authority that let it in. */
  lemma AdmittedUnasked(policy: Policy, tracked: bool, steps: seq<Step>, k: nat) returns (i: nat)
    requires k < |Run(policy, tracked, steps).log| && Run(policy, tracked, steps).log[k].Admitted?
    ensures var log := Run(policy, tracked, steps).log;
      var proposal, a := log[k].pending.proposal, log[k].attribution;
      && i < k && log[i].Recorded? && log[i].pending == log[k].pending
      && log[i].resembling.None? && log[k].pending.asking.None?
      && Gap(policy, a, proposal.class_).None?
      && if policy.automatic then log[k].basis == ApprovedGoal(proposal.goal) && a == Attributed(Approval.Approved)
         else log[k].basis == ExemptClass(proposal.class_) && a.Attributed? && Exempts(policy, proposal.class_)
  {
    RunKeeps(policy, tracked, steps);
    var log := Run(policy, tracked, steps).log;
    SoundAt(policy, log, k);
    i :| i < k && log[..k][i].Recorded? && log[..k][i].pending == log[k].pending;
    SoundAt(policy, log, i);
    BasisIsTheAuthority(policy, log[k].attribution, log[k].pending.proposal.goal, log[k].pending.proposal.class_);
  }

  // ---- How often one proposal is settled ----

  function Rejections(log: seq<Event>, id: ProposalId): nat {
    if log == [] then 0 else
      var last := log[|log| - 1];
      Rejections(log[..|log| - 1], id) + if last.Rejected? && last.pending.id == id then 1 else 0
  }

  function Creations(made: seq<ProposalId>, id: ProposalId): nat {
    if made == [] then 0 else Creations(made[..|made| - 1], id) + if made[|made| - 1] == id then 1 else 0
  }

  /** How often a proposal was settled: an item created for it, or its rejection in the log. */
  function Settled(s: State, id: ProposalId): nat { Creations(s.made, id) + Rejections(s.log, id) }

  /** How often the log says so. */
  function Logged(log: seq<Event>, id: ProposalId): nat {
    if log == [] then 0 else Logged(log[..|log| - 1], id) + if Settles(log[|log| - 1], id) then 1 else 0
  }

  predicate Settles(event: Event, id: ProposalId) {
    (event.Rejected? && event.pending.id == id) || (event.Created? && event.id == id)
  }

  predicate Decided(entries: seq<Entry>, id: ProposalId) {
    exists i | 0 <= i < |entries| :: entries[i].pending.id == id && entries[i].decided
  }

  function Once(entries: seq<Entry>, id: ProposalId): nat { if Decided(entries, id) then 1 else 0 }

  ghost predicate Distinct(entries: seq<Entry>) { DistinctIds(Held(entries)) }

  /** A rejection that reached the log and was reported failed: the proposal stays undecided. */
  predicate TornRejection(s: State, step: Step, id: ProposalId) {
    step.Reject? && step.id == id && !step.tooLong && Awaiting(s.entries, id).Some?
    && !step.io.append.Failed? && !WentThrough(step.io)
  }

  lemma EmitSettles(s: State, event: Event, io: Io, id: ProposalId)
    ensures Settled(Emitted(s, event, io), id)
         == Settled(s, id) + if event.Rejected? && event.pending.id == id && !io.append.Failed? then 1 else 0
    ensures Logged(Emitted(s, event, io).log, id)
         == Logged(s.log, id) + if Settles(event, id) && !io.append.Failed? then 1 else 0
  {
    assert (s.log + [event])[..|s.log|] == s.log;
  }

  lemma Deciding(entries: seq<Entry>, at: nat, id: ProposalId)
    requires at < |entries| && Distinct(entries) && !entries[at].decided
    ensures var decided := entries[at := entries[at].(decided := true)];
      Distinct(decided) && Once(decided, id) == Once(entries, id) + if entries[at].pending.id == id then 1 else 0
  {
    var decided := entries[at := entries[at].(decided := true)];
    assert Held(decided) == Held(entries);
    if entries[at].pending.id == id {
      assert decided[at].decided;
      OnlyOne(entries, at);
    }
    if Decided(entries, id) {
      var i :| 0 <= i < |entries| && entries[i].pending.id == id && entries[i].decided;
      assert decided[i] == entries[i];
    }
  }

  lemma OnlyOne(entries: seq<Entry>, at: nat)
    requires at < |entries| && Distinct(entries) && !entries[at].decided
    ensures !Decided(entries, entries[at].pending.id)
  {
    assert forall i | 0 <= i < |entries| && i != at :: Held(entries)[i].id != Held(entries)[at].id;
  }

  /** The books, for one proposal: settled as often as it was torn, and once more if it is decided. */
  ghost predicate Balanced(s: State, id: ProposalId, torn: nat) {
    Distinct(s.entries) && Logged(s.log, id) <= Settled(s, id) == torn + Once(s.entries, id)
  }

  function Marked(s: State, at: nat): State
    requires at < |s.entries|
  {
    s.(entries := s.entries[at := s.entries[at].(decided := true)], made := s.made + [s.entries[at].pending.id])
  }

  lemma MarkBalances(s: State, at: nat, id: ProposalId, torn: nat)
    requires at < |s.entries| && !s.entries[at].decided && Balanced(s, id, torn)
    ensures Balanced(Marked(s, at), id, torn)
    ensures Settled(Marked(s, at), id) == Settled(s, id) + if s.entries[at].pending.id == id then 1 else 0
  {
    Deciding(s.entries, at, id);
    assert Marked(s, at).made[..|s.made|] == s.made;
  }

  lemma CreateBalances(s: State, at: nat, created: Option<Item>, io: Io, id: ProposalId, torn: nat)
    requires at < |s.entries| && !s.entries[at].decided && Balanced(s, id, torn)
    ensures Balanced(CreatedFrom(s, at, created, io), id, torn)
  {
    if created.Some? {
      MarkBalances(s, at, id, torn);
      EmitSettles(Marked(s, at), Created(s.entries[at].pending.id, created.value), io, id);
    }
  }

  lemma ApproveBalances(tracked: bool, s: State, named: ProposalId, t: Trial, id: ProposalId, torn: nat)
    requires Balanced(s, id, torn)
    ensures Balanced(ApprovedBy(tracked, s, named, t), id, torn)
  {
    var at := Awaiting(s.entries, named);
    if at.Some? {
      var event := Event.Approved(s.entries[at.value].pending);
      EmitSettles(s, event, t.io, id);
      CreateBalances(Emitted(s, event, t.io), at.value, t.created, t.createdIo, id, torn);
    }
  }

  lemma AdmissionBalances(policy: Policy, s: State, at: nat, t: Trial, id: ProposalId, torn: nat)
    requires at < |s.entries| && !s.entries[at].decided && Balanced(s, id, torn)
    ensures var admitted := Emitted(s, AdmissionOf(policy, s.entries[at].pending, t.attribution), t.io);
      Balanced(admitted, id, torn) && Balanced(CreatedFrom(admitted, at, t.created, t.createdIo), id, torn)
  {
    var event := AdmissionOf(policy, s.entries[at].pending, t.attribution);
    EmitSettles(s, event, t.io, id);
    CreateBalances(Emitted(s, event, t.io), at, t.created, t.createdIo, id, torn);
  }

  lemma RejectedThrough(s: State, at: nat, io: Io, id: ProposalId, torn: nat)
    requires at < |s.entries| && !s.entries[at].decided && Balanced(s, id, torn) && WentThrough(io)
    ensures var rejected := Emitted(s, Rejected(s.entries[at].pending), io);
      Balanced(rejected.(entries := rejected.entries[at := rejected.entries[at].(decided := true)]), id, torn)
  {
    EmitSettles(s, Rejected(s.entries[at].pending), io, id);
    Deciding(s.entries, at, id);
  }

  lemma RejectedTorn(s: State, at: nat, io: Io, id: ProposalId, torn: nat)
    requires at < |s.entries| && Balanced(s, id, torn)
    ensures Balanced(Emitted(s, Rejected(s.entries[at].pending), io), id,
                     torn + if s.entries[at].pending.id == id && !io.append.Failed? then 1 else 0)
  {
    EmitSettles(s, Rejected(s.entries[at].pending), io, id);
  }

  lemma RejectBalances(s: State, named: ProposalId, tooLong: bool, io: Io, id: ProposalId, torn: nat)
    requires Balanced(s, id, torn)
    ensures Balanced(RejectedBy(s, named, tooLong, io), id,
                     torn + if TornRejection(s, Reject(named, tooLong, io), id) then 1 else 0)
  {
    var at := Awaiting(s.entries, named);
    if at.Some? && !tooLong {
      if WentThrough(io) {
        RejectedThrough(s, at.value, io, id, torn);
      } else {
        RejectedTorn(s, at.value, io, id, torn);
      }
    }
  }

  lemma {:induction false} AdmitFromBalances(policy: Policy, tracked: bool, s: State, pending: seq<Pending>,
                                             trials: nat -> Trial, at: nat, left: seq<Pending>, id: ProposalId,
                                             torn: nat)
    requires Balanced(s, id, torn)
    ensures Balanced(AdmittedFrom(policy, tracked, s, pending, trials, at, left).state, id, torn)
    decreases |pending| - at
  {
    if at < |pending| {
      var next := Tried(policy, tracked, s, pending[at], trials(at));
      var held := Awaiting(s.entries, pending[at].id);
      if held.Some? {
        AdmissionBalances(policy, s, held.value, trials(at), id, torn);
      }
      AdmitFromBalances(policy, tracked, next, pending, trials, at + 1,
                        if |next.made| == |s.made| then left + [pending[at]] else left, id, torn);
    }
  }

  lemma EntryBalances(s: State, at: nat, pending: Pending, id: ProposalId, torn: nat)
    requires Placing(s, at) && Balanced(s, id, torn) && pending.id == ProposalId(s.turns, at + 1)
    ensures Balanced(WithEntry(s, pending), id, torn)
  {
    EntryPlaces(s, at, pending);
    var t := WithEntry(s, pending);
    if Decided(s.entries, id) {
      var i :| 0 <= i < |s.entries| && s.entries[i].pending.id == id && s.entries[i].decided;
      assert t.entries[i] == s.entries[i];
    }
  }

  lemma OneBalances(s: State, at: nat, next: Pending, resembling: Option<Reason>, io: Io, id: ProposalId, torn: nat)
    requires Placing(s, at) && Balanced(s, id, torn) && next.id == ProposalId(s.turns, at + 1)
    ensures Balanced(Emitted(s, Recorded(next, resembling), io), id, torn)
    ensures var t := WithEntry(Emitted(s, Recorded(next, resembling), io), next);
      Placing(t, at + 1) && Balanced(t, id, torn)
  {
    var event := Recorded(next, resembling);
    EmitSettles(s, event, io, id);
    EmitPlaces(s, event, io, at);
    EntryPlaces(Emitted(s, event, io), at, next);
    EntryBalances(Emitted(s, event, io), at, next, id, torn);
  }

  lemma {:induction false} RecordBalances(policy: Policy, s: State, reply: Reply, at: nat, pending: seq<Pending>,
                                          id: ProposalId, torn: nat)
    requires Placing(s, at) && Balanced(s, id, torn)
    ensures Balanced(RecordedFrom(policy, s, reply, at, pending).state, id, torn)
    decreases |reply.proposals| - at
  {
    if at < |reply.proposals| {
      var next := AskedAt(policy, s.turns, reply, at);
      var resembling := ResemblanceAt(reply.resembling, at);
      OneBalances(s, at, next, resembling, reply.io(at), id, torn);
      if WentThrough(reply.io(at)) {
        var held := WithEntry(Emitted(s, Recorded(next, resembling), reply.io(at)), next);
        RecordBalances(policy, held, reply, at + 1, pending + [next], id, torn);
      }
    }
  }

  lemma SaveBalances(s: State, save: Write, id: ProposalId, torn: nat)
    requires Balanced(s, id, torn)
    ensures Balanced(SavedAs(s, save), id, torn)
  {
  }

  lemma LaneProposalBalances(policy: Policy, s: State, c: LaneCreation, id: ProposalId, torn: nat)
    requires Placing(s, LastPlace(s.entries, s.turns)) && Balanced(s, id, torn)
    ensures Balanced(LaneProposed(policy, s, c), id, torn)
  {
    var next := Asked(policy, NextId(s), c.proposal, c.attribution, c.resembling);
    OneBalances(s, LastPlace(s.entries, s.turns), next, c.resembling, c.io, id, torn);
    if WentThrough(c.io) {
      SaveBalances(WithEntry(Emitted(s, Recorded(next, c.resembling), c.io), next), c.save, id, torn);
    }
  }

  lemma LaneTakenBalances(policy: Policy, tracked: bool, s: State, c: LaneCreation, id: ProposalId, torn: nat)
    requires Placing(s, LastPlace(s.entries, s.turns)) && Balanced(s, id, torn)
    ensures Balanced(LaneTaken(policy, tracked, s, c), id, torn)
  {
    var requested := SavedAs(s, c.requested);
    SaveOrders(s, c.requested);
    SaveBalances(s, c.requested, id, torn);
    LaneProposalBalances(policy, requested, c, id, torn);
    SaveBalances(if Proposes(policy, tracked, c) then LaneProposed(policy, requested, c) else requested, c.told, id,
      torn);
  }

  lemma {:induction false} LaneBalances(policy: Policy, tracked: bool, s: State, lane: seq<LaneCreation>,
                                        id: ProposalId, torn: nat)
    requires Ordered(s) && s.savedTurns == s.turns && Balanced(s, id, torn)
    ensures Balanced(LaneFrom(policy, tracked, s, lane), id, torn)
    decreases |lane|
  {
    if lane != [] {
      var n := |lane| - 1;
      LaneBalances(policy, tracked, s, lane[..n], id, torn);
      LaneOrders(policy, tracked, s, lane[..n]);
      LaneTakenBalances(policy, tracked, LaneFrom(policy, tracked, s, lane[..n]), lane[n], id, torn);
    }
  }

  lemma AnswerBalances(policy: Policy, tracked: bool, s: State, reply: Reply, trials: nat -> Trial, id: ProposalId,
                       torn: nat)
    requires Ordered(s) && Balanced(s, id, torn)
    ensures Balanced(Replied(policy, tracked, s, reply, trials), id, torn)
  {
    TurnPlaces(s, reply.turnSave);
    if reply.turnSave.Done? {
      ProposeBalances(policy, tracked, Turned(s, reply.turnSave), reply, trials, id, torn);
    }
  }

  lemma ProposeBalances(policy: Policy, tracked: bool, s: State, reply: Reply, trials: nat -> Trial, id: ProposalId,
                        torn: nat)
    requires Placing(s, 0) && Balanced(s, id, torn)
    ensures Balanced(Proposed(policy, tracked, s, reply, trials), id, torn)
  {
    RecordBalances(policy, s, reply, 0, [], id, torn);
    var account := RecordedFrom(policy, s, reply, 0, []);
    AdmitFromBalances(policy, tracked, account.state, account.pending, trials, 0, [], id, torn);
    RecordOrders(policy, s, reply, 0, []);
    AdmitFromOrders(policy, tracked, account.state, account.pending, trials, 0, []);
    LaneBalances(policy, tracked, AdmittedFrom(policy, tracked, account.state, account.pending, trials, 0, []).state,
      reply.lane, id, torn);
  }

  /** A record taken up puts whatever it lists back on the table undecided, and forgets what was decided. */
  lemma TakeUpBalances(s: State, id: ProposalId, torn: nat)
    requires Ordered(s) && Balanced(s, id, torn)
    ensures Balanced(TakenUp(s), id, torn + Once(s.entries, id))
  {
    ListedHolds(s.saved);
  }

  lemma StepBalances(policy: Policy, tracked: bool, s: State, step: Step, id: ProposalId, torn: nat)
    requires Ordered(s) && Balanced(s, id, torn)
    ensures Balanced(After(policy, tracked, s, step), id,
                     torn + if TornRejection(s, step, id) then 1 else if step.TakeUp? then Once(s.entries, id) else 0)
  {
    match step
    case Answer(reply, trials) => AnswerBalances(policy, tracked, s, reply, trials, id, torn);
    case Approve(named, trial) => ApproveBalances(tracked, s, named, trial, id, torn);
    case Reject(named, tooLong, io) => RejectBalances(s, named, tooLong, io, id, torn);
    case Save(save) =>
    case TakeUp => TakeUpBalances(s, id, torn);
  }

  // ---- What a record that is taken up does to what was decided ----

  predicate ListedIn(saved: seq<Pending>, id: ProposalId) { exists i | 0 <= i < |saved| :: saved[i].id == id }

  /** A record taken up that still lists a proposal this process had decided. */
  predicate Relists(s: State, step: Step, id: ProposalId) {
    step.TakeUp? && Decided(s.entries, id) && ListedIn(s.saved, id)
  }

  /** And one that does not. */
  predicate Drops(s: State, step: Step, id: ProposalId) {
    step.TakeUp? && Decided(s.entries, id) && !ListedIn(s.saved, id)
  }

  /** How many of a run's steps, each from the state it found, are of a kind. */
  ghost function Times(policy: Policy, tracked: bool, steps: seq<Step>, kind: (State, Step) -> bool): nat
    decreases |steps|
  {
    if steps == [] then 0 else
      var before := steps[..|steps| - 1];
      Times(policy, tracked, before, kind) + if kind(Run(policy, tracked, before), steps[|steps| - 1]) then 1 else 0
  }

  ghost function Torn(policy: Policy, tracked: bool, steps: seq<Step>, id: ProposalId): nat {
    Times(policy, tracked, steps, (s, step) => TornRejection(s, step, id))
  }

  ghost function Relisted(policy: Policy, tracked: bool, steps: seq<Step>, id: ProposalId): nat {
    Times(policy, tracked, steps, (s, step) => Relists(s, step, id))
  }

  ghost function Dropped(policy: Policy, tracked: bool, steps: seq<Step>, id: ProposalId): nat {
    Times(policy, tracked, steps, (s, step) => Drops(s, step, id))
  }

  ghost predicate Gone(s: State, id: ProposalId) {
    (forall p | p in Held(s.entries) :: p.id != id) && id.turn <= s.savedTurns
  }

  lemma GoneStays(policy: Policy, tracked: bool, s: State, step: Step, id: ProposalId)
    requires Ordered(s) && Gone(s, id)
    ensures Gone(After(policy, tracked, s, step), id)
  {
    match step
    case Answer(reply, trials) => AnswerOrders(policy, tracked, s, reply, trials);
    case Approve(named, trial) => ApproveOrders(tracked, s, named, trial);
    case Reject(named, tooLong, io) => RejectOrders(s, named, tooLong, io);
    case Save(save) => SaveOrders(s, save);
    case TakeUp => ListedHolds(s.saved);
  }

  lemma DropIsGone(s: State, id: ProposalId)
    requires Ordered(s) && Drops(s, TakeUp, id)
    ensures Gone(TakenUp(s), id)
  {
    ListedHolds(s.saved);
    var i :| 0 <= i < |s.entries| && s.entries[i].pending.id == id && s.entries[i].decided;
    forall p | p in s.saved ensures p.id != id {
      var k :| 0 <= k < |s.saved| && s.saved[k] == p;
    }
  }

  lemma GoneIsUndecided(s: State, id: ProposalId)
    requires Gone(s, id)
    ensures !Decided(s.entries, id)
  {
    assert forall i | 0 <= i < |s.entries| :: Held(s.entries)[i] in Held(s.entries);
  }

  /** What one step adds to each count. */
  function Count(b: bool): nat { if b then 1 else 0 }

  lemma TakenUpOnce(s: State, step: Step, id: ProposalId)
    ensures (if step.TakeUp? then Once(s.entries, id) else 0) == Count(Relists(s, step, id)) + Count(Drops(s, step, id))
    ensures TornRejection(s, step, id) ==> !step.TakeUp?
  {
  }

  lemma {:induction false} DroppedForGood(policy: Policy, tracked: bool, steps: seq<Step>, id: ProposalId)
    ensures Dropped(policy, tracked, steps, id) <= 1
    ensures Dropped(policy, tracked, steps, id) == 1 ==> Gone(Run(policy, tracked, steps), id)
    decreases |steps|
  {
    if steps != [] {
      var before, step := steps[..|steps| - 1], steps[|steps| - 1];
      var s := Run(policy, tracked, before);
      DroppedForGood(policy, tracked, before, id);
      RunOrders(policy, tracked, before);
      if Dropped(policy, tracked, before, id) == 1 {
        GoneIsUndecided(s, id);
        GoneStays(policy, tracked, s, step, id);
      } else if Drops(s, step, id) {
        DropIsGone(s, id);
      }
    }
  }

  /** Over every run, however its writes went and whoever took its record up: a proposal was settled once for each
      of its torn rejections, once for each record taken up that still listed it decided, and once more if it is
      decided, or was and is gone for good; and the log never says more. So it is settled at most once where no
      rejection of it tore and no record taken up listed it, and as often more as either happened. */
  lemma {:induction false} SettledExactly(policy: Policy, tracked: bool, steps: seq<Step>, id: ProposalId)
    ensures var s := Run(policy, tracked, steps);
      && Settled(s, id) == Torn(policy, tracked, steps, id) + Relisted(policy, tracked, steps, id)
                           + Dropped(policy, tracked, steps, id) + Once(s.entries, id)
      && Dropped(policy, tracked, steps, id) + Once(s.entries, id) <= 1
      && Logged(s.log, id) <= Settled(s, id)
    decreases |steps|
  {
    DroppedForGood(policy, tracked, steps, id);
    if Dropped(policy, tracked, steps, id) == 1 {
      GoneIsUndecided(Run(policy, tracked, steps), id);
    }
    if steps != [] {
      var before, step := steps[..|steps| - 1], steps[|steps| - 1];
      var s := Run(policy, tracked, before);
      var spent := Torn(policy, tracked, before, id) + Relisted(policy, tracked, before, id)
        + Dropped(policy, tracked, before, id);
      SettledExactly(policy, tracked, before, id);
      RunOrders(policy, tracked, before);
      StepBalances(policy, tracked, s, step, id, spent);
      TakenUpOnce(s, step, id);
    }
  }

  lemma RejectSettles(s: State, id: ProposalId, io: Io)
    requires Awaiting(s.entries, id).Some? && !io.append.Failed?
    ensures var t := RejectedBy(s, id, false, io);
      && Settled(t, id) == Settled(s, id) + 1 && Logged(t.log, id) == Logged(s.log, id) + 1
      && (!WentThrough(io) ==> t.entries == s.entries)
  {
    EmitSettles(s, Rejected(s.entries[Awaiting(s.entries, id).value].pending), io, id);
  }

  /** And it is settled a second time whenever a rejection tears and is then asked for again with every write going
      through: the log says it was rejected twice. */
  lemma TornThenRetried(s: State, id: ProposalId, io: Io)
    requires Awaiting(s.entries, id).Some? && TornRejection(s, Reject(id, false, io), id)
    ensures var t := RejectedBy(RejectedBy(s, id, false, io), id, false, Io(Done, Done));
      Settled(t, id) == Settled(s, id) + 2 && Logged(t.log, id) == Logged(s.log, id) + 2
  {
    RejectSettles(s, id, io);
    RejectSettles(RejectedBy(s, id, false, io), id, Io(Done, Done));
  }

  /** And a record taken up that lists a proposal already settled lets it be settled again, by approving it. */
  lemma ListedThenApproved(s: State, id: ProposalId, item: Item, a: Attribution)
    requires Ordered(s) && ListedIn(s.saved, id) && !a.Unresolved?
    ensures var t := ApprovedBy(true, TakenUp(s), id, Trial(a, Io(Done, Done), Some(item), Io(Done, Done)));
      Settled(t, id) == Settled(s, id) + 1 && Logged(t.log, id) == Logged(s.log, id) + 1
  {
    var up := TakenUp(s);
    ListedHolds(s.saved);
    var i: nat :| i < |s.saved| && s.saved[i].id == id;
    AwaitsFrom(up.entries, id, 0, i);
    ApprovalSettles(up, id, item, a);
  }

  lemma ApprovalSettles(s: State, id: ProposalId, item: Item, a: Attribution)
    requires Awaiting(s.entries, id).Some? && !a.Unresolved?
    ensures var t := ApprovedBy(true, s, id, Trial(a, Io(Done, Done), Some(item), Io(Done, Done)));
      Settled(t, id) == Settled(s, id) + 1 && Logged(t.log, id) == Logged(s.log, id) + 1
  {
    var at := Awaiting(s.entries, id).value;
    var event := Event.Approved(s.entries[at].pending);
    EmitSettles(s, event, Io(Done, Done), id);
    CreationSettles(Emitted(s, event, Io(Done, Done)), at, item);
  }

  lemma CreationSettles(s: State, at: nat, item: Item)
    requires at < |s.entries|
    ensures var t, id := CreatedFrom(s, at, Some(item), Io(Done, Done)), s.entries[at].pending.id;
      Settled(t, id) == Settled(s, id) + 1 && Logged(t.log, id) == Logged(s.log, id) + 1
  {
    var id := s.entries[at].pending.id;
    assert Marked(s, at).made[..|s.made|] == s.made;
    EmitSettles(Marked(s, at), Created(id, item), Io(Done, Done), id);
  }

  lemma {:induction false} AwaitsFrom(entries: seq<Entry>, id: ProposalId, from: nat, i: nat)
    requires from <= i < |entries| && entries[i].pending.id == id
    requires forall k | 0 <= k < |entries| :: !entries[k].decided
    ensures AwaitingFrom(entries, id, from).Some?
    decreases |entries| - from
  {
    if entries[from].pending.id != id {
      AwaitsFrom(entries, id, from + 1, i);
    }
  }
}
