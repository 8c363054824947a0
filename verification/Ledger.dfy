/** Proposals and what becomes of them within one conversation: recorded, then approved, rejected or admitted, each an
    event appended to the log and a save of what is still undecided: internal/chat/chat.go. */
module Ledger {
  import opened Text
  import opened Admission

  type Item(==,!new)

  datatype ProposalId = ProposalId(turn: nat, place: nat)

  datatype Proposal = Proposal(goal: Goal, class_: Option<Class>)

  datatype Pending = Pending(id: ProposalId, proposal: Proposal, asking: Option<Reason>)

  datatype Entry = Entry(pending: Pending, decided: bool)

  /** What the log keeps; beside it, what was judged when it was written: the work a proposal resembled, and the goal as
      it was attributed when one was admitted. */
  datatype Event =
    | Recorded(pending: Pending, resembling: Option<Reason>)
    | Approved(pending: Pending)
    | Admitted(pending: Pending, basis: Basis, attribution: Attribution)
    | Rejected(pending: Pending)
    | Created(id: ProposalId, item: Item)

  /** How one write went. Either can be reported failed after it has landed. */
  datatype Write = Done | DoneThenFailed | Failed

  /** Appending one event, and the save that follows where the append was reported done. */
  datatype Io = Io(append: Write, save: Write)

  predicate WentThrough(io: Io) { io.append.Done? && io.save.Done? }

  const MAX_PENDING := 20

  /** What the process that has the conversation holds, the log, the record as the last save left it, and the proposals
      the tracker was asked to create an item for and did. */
  datatype State = State(
    turns: nat, entries: seq<Entry>, log: seq<Event>, saved: seq<Pending>, savedTurns: nat, made: seq<ProposalId>)

  function Undecided(entries: seq<Entry>): seq<Pending> {
    if entries == [] then [] else
      var earlier, last := Undecided(entries[..|entries| - 1]), entries[|entries| - 1];
      if last.decided then earlier else earlier + [last.pending]
  }

  function Newest(pending: seq<Pending>): seq<Pending> {
    if |pending| > MAX_PENDING then pending[|pending| - MAX_PENDING..] else pending
  }

  function SavedAs(s: State, save: Write): State {
    if save.Failed? then s else s.(saved := Newest(Undecided(s.entries)), savedTurns := s.turns)
  }

  function Emitted(s: State, event: Event, io: Io): State {
    if io.append.Failed? then s else
      var logged := s.(log := s.log + [event]);
      if io.append.Done? then SavedAs(logged, io.save) else logged
  }

  function Asked(policy: Policy, id: ProposalId, proposal: Proposal, a: Attribution,
                 resembling: Option<Reason>): Pending {
    Pending(id, proposal, Gate(policy, a, proposal.class_, resembling))
  }

  function ResemblanceAt(resembling: seq<Option<Reason>>, at: int): Option<Reason> {
    if at < 0 || at >= |resembling| then None else resembling[at]
  }

  /** A creation a reply asks for in its lane, and how recording it went: the request, the proposal it is put to the
      operator as, the save that follows, and what became of the request. */
  datatype LaneCreation = LaneCreation(requested: Write, proposal: Proposal, attribution: Attribution,
                                       resembling: Option<Reason>, io: Io, save: Write, told: Write)

  /** What a reply proposes, and how recording it went: the save of its turn, and of all it proposed; `attributed` and
      `io` are of each proposal in turn. After it, what it creates in its lane. */
  datatype Reply = Reply(turnSave: Write, proposals: seq<Proposal>, resembling: seq<Option<Reason>>,
                         attributed: nat -> Attribution, io: nat -> Io, save: Write, lane: seq<LaneCreation>)

  /** The state, what was recorded, and whether all of it was. */
  datatype Account = Account(state: State, pending: seq<Pending>, ok: bool)

  function RecordedFrom(policy: Policy, s: State, reply: Reply, at: nat, pending: seq<Pending>): Account
    decreases |reply.proposals| - at
  {
    if at >= |reply.proposals| then
      Account(if pending == [] then s else SavedAs(s, reply.save), pending, pending == [] || reply.save.Done?)
    else
      var next := AskedAt(policy, s.turns, reply, at);
      var emitted := Emitted(s, Recorded(next, ResemblanceAt(reply.resembling, at)), reply.io(at));
      if !WentThrough(reply.io(at)) then Account(emitted, pending, false) else
        RecordedFrom(policy, emitted.(entries := emitted.entries + [Entry(next, false)]), reply, at + 1,
          pending + [next])
  }

  function AskedAt(policy: Policy, turns: nat, reply: Reply, at: nat): Pending
    requires at < |reply.proposals|
  {
    Asked(policy, ProposalId(turns, at + 1), reply.proposals[at], reply.attributed(at),
      ResemblanceAt(reply.resembling, at))
  }

  /** The first entry of that id, where it has not been decided. */
  function Awaiting(entries: seq<Entry>, id: ProposalId): (at: Option<nat>)
    ensures at.Some? ==> at.value < |entries| && entries[at.value].pending.id == id && !entries[at.value].decided
  {
    AwaitingFrom(entries, id, 0)
  }

  function AwaitingFrom(entries: seq<Entry>, id: ProposalId, from: nat): (at: Option<nat>)
    ensures at.Some? ==> at.value < |entries| && entries[at.value].pending.id == id && !entries[at.value].decided
    decreases |entries| - from
  {
    if from >= |entries| then None
    else if entries[from].pending.id != id then AwaitingFrom(entries, id, from + 1)
    else if entries[from].decided then None
    else Some(from)
  }

  /** `createFromProposal`: `created` is what the tracker answered. */
  function CreatedFrom(s: State, at: nat, created: Option<Item>, io: Io): State
    requires at < |s.entries|
  {
    if created.None? then s else
      var id := s.entries[at].pending.id;
      Emitted(s.(entries := s.entries[at := s.entries[at].(decided := true)], made := s.made + [id]),
              Created(id, created.value), io)
  }

  /** The goal as it is attributed at that moment, and how the event, the creation and its event went. */
  datatype Trial = Trial(attribution: Attribution, io: Io, created: Option<Item>, createdIo: Io)

  function ApprovedBy(tracked: bool, s: State, id: ProposalId, t: Trial): State {
    var at := Awaiting(s.entries, id);
    if at.None? || !tracked || t.attribution.Unresolved? then s else
      var approved := Emitted(s, Event.Approved(s.entries[at.value].pending), t.io);
      if WentThrough(t.io) then CreatedFrom(approved, at.value, t.created, t.createdIo) else approved
  }

  function RejectedBy(s: State, id: ProposalId, tooLong: bool, io: Io): State {
    var at := Awaiting(s.entries, id);
    if at.None? || tooLong then s else
      var rejected := Emitted(s, Rejected(s.entries[at.value].pending), io);
      if WentThrough(io) then
        rejected.(entries := rejected.entries[at.value := rejected.entries[at.value].(decided := true)])
      else rejected
  }

  function AdmittedBy(policy: Policy, tracked: bool, s: State, id: ProposalId, t: Trial): State {
    var at := Awaiting(s.entries, id);
    if at.None? || !tracked then s else
      var pending := s.entries[at.value].pending;
      if Gap(policy, t.attribution, pending.proposal.class_).Some? then s else
        var admitted := Emitted(s, AdmissionOf(policy, pending, t.attribution), t.io);
        if WentThrough(t.io) then CreatedFrom(admitted, at.value, t.created, t.createdIo) else admitted
  }

  function AdmissionOf(policy: Policy, pending: Pending, a: Attribution): Event {
    Admitted(pending, Authority(policy, a, pending.proposal.goal, pending.proposal.class_), a)
  }

  function Tried(policy: Policy, tracked: bool, s: State, pending: Pending, t: Trial): State {
    if Admissible(policy, pending.asking, pending.proposal.class_)
      then AdmittedBy(policy, tracked, s, pending.id, t) else s
  }

  /** The state, and the proposals for which nothing was created. */
  datatype Outcome = Outcome(state: State, left: seq<Pending>)

  function AdmittedFrom(policy: Policy, tracked: bool, s: State, pending: seq<Pending>, trials: nat -> Trial, at: nat,
                        left: seq<Pending>): Outcome
    decreases |pending| - at
  {
    if at >= |pending| then Outcome(s, left) else
      var next := Tried(policy, tracked, s, pending[at], trials(at));
      AdmittedFrom(policy, tracked, next, pending, trials, at + 1,
                   if |next.made| == |s.made| then left + [pending[at]] else left)
  }

  /** The last place the turn gave out to any proposal that is held. */
  function LastPlace(entries: seq<Entry>, turn: nat): (place: nat)
    ensures forall i | 0 <= i < |entries| && entries[i].pending.id.turn == turn :: entries[i].pending.id.place <= place
  {
    if entries == [] then 0 else
      var earlier, id := LastPlace(entries[..|entries| - 1], turn), entries[|entries| - 1].pending.id;
      if id.turn == turn && id.place > earlier then id.place else earlier
  }

  /** `nextProposalID`. */
  function NextId(s: State): ProposalId { ProposalId(s.turns, LastPlace(s.entries, s.turns) + 1) }

  /** Whether a creation in a lane is put to the operator rather than refused or carried out. */
  predicate Proposes(policy: Policy, tracked: bool, c: LaneCreation) {
    tracked && !c.attribution.Unresolved? && Gap(policy, c.attribution, c.proposal.class_).Some?
  }

  /** `proposeLaneCreation`: it is held only once its event and the save that follows went through. */
  function LaneProposed(policy: Policy, s: State, c: LaneCreation): State {
    var next := Asked(policy, NextId(s), c.proposal, c.attribution, c.resembling);
    var emitted := Emitted(s, Recorded(next, c.resembling), c.io);
    if WentThrough(c.io) then SavedAs(emitted.(entries := emitted.entries + [Entry(next, false)]), c.save) else emitted
  }

  function LaneTaken(policy: Policy, tracked: bool, s: State, c: LaneCreation): State {
    var requested := SavedAs(s, c.requested);
    if !c.requested.Done? then requested
    else SavedAs(if Proposes(policy, tracked, c) then LaneProposed(policy, requested, c) else requested, c.told)
  }

  /** A reply's creations, one after another whatever became of each. */
  function LaneFrom(policy: Policy, tracked: bool, s: State, lane: seq<LaneCreation>): State {
    if lane == [] then s else
      LaneTaken(policy, tracked, LaneFrom(policy, tracked, s, lane[..|lane| - 1]), lane[|lane| - 1])
  }

  class Session {
    const policy: Policy
    const tracked: bool
    var turns: nat
    var entries: seq<Entry>
    var log: seq<Event>
    var saved: seq<Pending>
    var savedTurns: nat
    var made: seq<ProposalId>

    constructor (policy: Policy, tracked: bool)
      ensures this.policy == policy && this.tracked == tracked && Now() == Fresh()
    {
      this.policy, this.tracked := policy, tracked;
      turns, entries, log, saved, savedTurns, made := 0, [], [], [], 0, [];
    }

    function Now(): State
      reads this
    {
      State(turns, entries, log, saved, savedTurns, made)
    }

    /** `undecidedProposals`. */
    method UndecidedProposals() returns (pending: seq<Pending>)
      ensures pending == Newest(Undecided(entries))
    {
      pending := [];
      for at := 0 to |entries|
        invariant pending == Undecided(entries[..at])
      {
        assert entries[..at + 1][..at] == entries[..at];
        if entries[at].decided {
          continue;
        }
        pending := pending + [entries[at].pending];
      }
      assert entries[..|entries|] == entries;
      if |pending| > MAX_PENDING {
        pending := pending[|pending| - MAX_PENDING..];
      }
    }

    /** `record`. */
    method Record(save: Write) returns (ok: bool)
      modifies this`saved, this`savedTurns
      ensures Now() == SavedAs(old(Now()), save) && ok == save.Done?
    {
      var pending := UndecidedProposals();
      if !save.Failed? {
        saved, savedTurns := pending, turns;
      }
      return save.Done?;
    }

    method Emit(event: Event, io: Io) returns (ok: bool)
      modifies this`log, this`saved, this`savedTurns
      ensures Now() == Emitted(old(Now()), event, io) && ok == WentThrough(io)
    {
      if !io.append.Failed? {
        log := log + [event];
      }
      if !io.append.Done? {
        return false;
      }
      ok := Record(io.save);
    }

    method RecordProposals(reply: Reply) returns (pending: seq<Pending>, ok: bool)
      modifies this
      ensures Account(Now(), pending, ok) == RecordedFrom(policy, old(Now()), reply, 0, [])
    {
      pending := [];
      var at := 0;
      while at < |reply.proposals|
        invariant at <= |reply.proposals|
        invariant RecordedFrom(policy, old(Now()), reply, 0, []) == RecordedFrom(policy, Now(), reply, at, pending)
      {
        var next := AskedAt(policy, turns, reply, at);
        var emitted := Emit(Recorded(next, ResemblanceAt(reply.resembling, at)), reply.io(at));
        if !emitted {
          return pending, false;
        }
        entries := entries + [Entry(next, false)];
        pending := pending + [next];
        at := at + 1;
      }
      ok := true;
      if pending != [] {
        ok := Record(reply.save);
      }
    }

    method AwaitingDecision(id: ProposalId) returns (at: Option<nat>)
      ensures at == Awaiting(entries, id)
    {
      var from := 0;
      while from < |entries|
        invariant from <= |entries| && AwaitingFrom(entries, id, from) == Awaiting(entries, id)
      {
        if entries[from].pending.id != id {
          from := from + 1;
          continue;
        }
        return if entries[from].decided then None else Some(from);
      }
      return None;
    }

    method CreateFromProposal(at: nat, created: Option<Item>, io: Io) returns (ok: bool)
      requires at < |entries|
      modifies this
      ensures Now() == CreatedFrom(old(Now()), at, created, io)
    {
      if created.None? {
        return false;
      }
      made := made + [entries[at].pending.id];
      entries := entries[at := entries[at].(decided := true)];
      ok := Emit(Created(entries[at].pending.id, created.value), io);
    }

    method Approve(id: ProposalId, t: Trial) returns (ok: bool)
      modifies this
      ensures Now() == ApprovedBy(tracked, old(Now()), id, t)
    {
      var at := AwaitingDecision(id);
      if at.None? || !tracked || t.attribution.Unresolved? {
        return false;
      }
      ok := Emit(Event.Approved(entries[at.value].pending), t.io);
      if ok {
        ok := CreateFromProposal(at.value, t.created, t.createdIo);
      }
    }

    method Reject(id: ProposalId, tooLong: bool, io: Io) returns (ok: bool)
      modifies this
      ensures Now() == RejectedBy(old(Now()), id, tooLong, io)
    {
      var at := AwaitingDecision(id);
      if at.None? || tooLong {
        return false;
      }
      ok := Emit(Rejected(entries[at.value].pending), io);
      if ok {
        entries := entries[at.value := entries[at.value].(decided := true)];
      }
    }

    /** The item created, whatever failed after it. */
    method AdmitOne(id: ProposalId, t: Trial) returns (item: Option<Item>)
      modifies this
      ensures Now() == AdmittedBy(policy, tracked, old(Now()), id, t)
      ensures |made| == |old(made)| + if item.Some? then 1 else 0
    {
      var at := AwaitingDecision(id);
      if at.None? || !tracked {
        return None;
      }
      var pending := entries[at.value].pending;
      if Gap(policy, t.attribution, pending.proposal.class_).Some? {
        return None;
      }
      var ok := Emit(AdmissionOf(policy, pending, t.attribution), t.io);
      if !ok {
        return None;
      }
      ok := CreateFromProposal(at.value, t.created, t.createdIo);
      return t.created;
    }

    /** What went into the queue, and what is left for the operator: each proposal is in exactly one of the two. */
    method Admit(pending: seq<Pending>, trials: nat -> Trial) returns (items: seq<Item>, undecided: seq<Pending>)
      modifies this
      ensures Outcome(Now(), undecided) == AdmittedFrom(policy, tracked, old(Now()), pending, trials, 0, [])
      ensures |items| + |undecided| == |pending| && |made| == |old(made)| + |items|
    {
      items, undecided := [], [];
      var at := 0;
      while at < |pending|
        invariant at <= |pending| && |items| + |undecided| == at && |made| == |old(made)| + |items|
        invariant AdmittedFrom(policy, tracked, Now(), pending, trials, at, undecided)
               == AdmittedFrom(policy, tracked, old(Now()), pending, trials, 0, [])
      {
        if !Admissible(policy, pending[at].asking, pending[at].proposal.class_) {
          undecided := undecided + [pending[at]];
        } else {
          var item := AdmitOne(pending[at].id, trials(at));
          if item.None? {
            undecided := undecided + [pending[at]];
          } else {
            items := items + [item.value];
          }
        }
        at := at + 1;
      }
    }

    method NextProposalId() returns (id: ProposalId)
      ensures id == NextId(Now())
    {
      var position := 0;
      for at := 0 to |entries|
        invariant position == LastPlace(entries[..at], turns)
      {
        assert entries[..at + 1][..at] == entries[..at];
        var held := entries[at].pending.id;
        if held.turn == turns && held.place > position {
          position := held.place;
        }
      }
      assert entries[..|entries|] == entries;
      return ProposalId(turns, position + 1);
    }

    method ProposeLaneCreation(c: LaneCreation)
      modifies this
      ensures Now() == LaneProposed(policy, old(Now()), c)
    {
      var id := NextProposalId();
      var next := Asked(policy, id, c.proposal, c.attribution, c.resembling);
      var ok := Emit(Recorded(next, c.resembling), c.io);
      if !ok {
        return;
      }
      entries := entries + [Entry(next, false)];
      ok := Record(c.save);
    }

    /** `performTrackerActions`, for the creations in a lane. */
    method PerformLane(lane: seq<LaneCreation>)
      modifies this
      ensures Now() == LaneFrom(policy, tracked, old(Now()), lane)
    {
      for at := 0 to |lane|
        invariant Now() == LaneFrom(policy, tracked, old(Now()), lane[..at])
      {
        assert lane[..at + 1][..at] == lane[..at];
        var ok := Record(lane[at].requested);
        if !ok {
          continue;
        }
        if Proposes(policy, tracked, lane[at]) {
          ProposeLaneCreation(lane[at]);
        }
        ok := Record(lane[at].told);
      }
      assert lane[..|lane|] == lane;
    }

    /** `adopt`: the record taken up, by this process at its prompt or by a later one, with what it lists undecided. */
    method Adopt()
      modifies this`turns, this`entries
      ensures Now() == TakenUp(old(Now()))
    {
      turns, entries := savedTurns, [];
      for at := 0 to |saved|
        invariant entries == Listed(saved[..at]) && turns == savedTurns == old(savedTurns) && saved == old(saved)
        invariant log == old(log) && made == old(made)
      {
        assert saved[..at + 1][..at] == saved[..at];
        entries := entries + [Entry(saved[at], false)];
      }
      assert saved[..|saved|] == saved;
    }

    /** A turn that was served, and what it goes on to do with the proposals of its reply. */
    method Answer(reply: Reply, trials: nat -> Trial)
      modifies this
      ensures Now() == Replied(policy, tracked, old(Now()), reply, trials)
    {
      turns := turns + 1;
      var ok := Record(reply.turnSave);
      if !ok {
        return;
      }
      var pending: seq<Pending>;
      pending, ok := RecordProposals(reply);
      if ok {
        var items, undecided := Admit(pending, trials);
        PerformLane(reply.lane);
      }
    }
  }

  function Replied(policy: Policy, tracked: bool, s: State, reply: Reply, trials: nat -> Trial): State {
    var turned := Turned(s, reply.turnSave);
    if reply.turnSave.Done? then Proposed(policy, tracked, turned, reply, trials) else turned
  }

  /** A turn is counted, and the count saved, before anything of it is given an id. */
  function Turned(s: State, save: Write): State { SavedAs(s.(turns := s.turns + 1), save) }

  function Proposed(policy: Policy, tracked: bool, s: State, reply: Reply, trials: nat -> Trial): State {
    var account := RecordedFrom(policy, s, reply, 0, []);
    if !account.ok then account.state else
      LaneFrom(policy, tracked, AdmittedFrom(policy, tracked, account.state, account.pending, trials, 0, []).state,
        reply.lane)
  }

  function Listed(pending: seq<Pending>): seq<Entry> {
    if pending == [] then [] else Listed(pending[..|pending| - 1]) + [Entry(pending[|pending| - 1], false)]
  }

  /** The conversation as the record has it. */
  function TakenUp(s: State): State { s.(turns := s.savedTurns, entries := Listed(s.saved)) }

  function Fresh(): State { State(0, [], [], [], 0, []) }
}
