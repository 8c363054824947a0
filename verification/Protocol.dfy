/** Several processes, one durable conversation: the hold that is put down at the prompt and retaken, the record that is
    saved and re-read, and what each process holds in memory: internal/chat/chat.go. */
module Protocol {
  import opened Text

  type Pid(==,!new)

  /** A proposal or a concern: the turn of the conversation that raised it, and its place in that turn. */
  datatype Id = Id(conversation: nat, turn: nat, place: nat)

  /** The conversation's record, as far as it is about what is waiting on somebody. */
  datatype Durable = Durable(conversation: nat, turns: nat, pending: seq<Id>)

  datatype Matter = Matter(id: Id, settled: bool)

  /** What one process holds: the conversation, the last place given out in the turn it is recording, the matters, the
      one whose settling has been logged and not yet marked; and the record as this process last read or wrote it. */
  datatype Memory = Memory(conversation: nat, turns: nat, placed: Option<nat>, matters: seq<Matter>,
                           settling: Option<Id>, seen: Durable)

  /** How one save went; it can be reported failed after it has landed. */
  datatype Write = Done | DoneThenFailed | Failed

  function OpenIds(matters: seq<Matter>): seq<Id> {
    if matters == [] then [] else
      var earlier, last := OpenIds(matters[..|matters| - 1]), matters[|matters| - 1];
      if last.settled then earlier else earlier + [last.id]
  }

  /** What is left of a list held to a number, 20 for proposals and 10 for concerns: the newest. */
  function Newest(most: nat, ids: seq<Id>): seq<Id> {
    if |ids| > most then ids[|ids| - most..] else ids
  }

  function Durably(most: nat, m: Memory): Durable {
    Durable(m.conversation, m.turns, Newest(most, OpenIds(m.matters)))
  }

  function Unsettled(ids: seq<Id>): seq<Matter> {
    if ids == [] then [] else Unsettled(ids[..|ids| - 1]) + [Matter(ids[|ids| - 1], false)]
  }

  /** `adopt`. */
  function Adopted(d: Durable): Memory { Memory(d.conversation, d.turns, None, Unsettled(d.pending), None, d) }

  class Store {
    var record: Option<Durable>
  }

  class Session {
    const store: Store
    const most: nat
    var memory: Memory

    /** `Open`: the recorded conversation resumed, or a new one that replaces it. */
    constructor (store: Store, most: nat, resume: bool, newId: nat)
      requires resume ==> store.record.Some?
      modifies store
      ensures this.store == store && this.most == most
      ensures if resume then store.record == old(store.record) && memory == Adopted(store.record.value)
              else store.record == Some(Durable(newId, 0, [])) && memory == Adopted(Durable(newId, 0, []))
    {
      this.store, this.most := store, most;
      memory := Adopted(if resume then store.record.value else Durable(newId, 0, []));
      new;
      if !resume {
        store.record := Some(Durably(most, memory));
      }
    }

    /** `adopt`, putting what is undecided back on the table. */
    method Adopt(existing: Durable)
      modifies this`memory
      ensures memory == Adopted(existing)
    {
      var matters := [];
      for at := 0 to |existing.pending|
        invariant matters == Unsettled(existing.pending[..at])
      {
        matters := matters + [Matter(existing.pending[at], false)];
        assert existing.pending[..at + 1][..at] == existing.pending[..at];
      }
      assert existing.pending[..|existing.pending|] == existing.pending;
      memory := Memory(existing.conversation, existing.turns, None, matters, None, existing);
    }

    /** `record`, and the bounded list it writes. */
    method Record(save: Write) returns (ok: bool)
      modifies this`memory, store
      ensures store.record == if save.Failed? then old(store.record) else Some(Durably(most, old(memory)))
      ensures memory == SavedBy(most, old(memory), save) && ok == save.Done?
    {
      var ids := [];
      for at := 0 to |memory.matters|
        invariant ids == OpenIds(memory.matters[..at]) && memory == old(memory) && store.record == old(store.record)
      {
        assert memory.matters[..at + 1][..at] == memory.matters[..at];
        if !memory.matters[at].settled {
          ids := ids + [memory.matters[at].id];
        }
      }
      assert memory.matters[..|memory.matters|] == memory.matters;
      if |ids| > most {
        ids := ids[|ids| - most..];
      }
      if !save.Failed? {
        store.record := Some(Durable(memory.conversation, memory.turns, ids));
        memory := memory.(seen := Durable(memory.conversation, memory.turns, ids));
      }
      ok := save.Done?;
    }

    /** `reload`, once the hold is retaken: false is the end of this session. */
    method Reload() returns (ok: bool)
      modifies this`memory
      ensures ok <==> Reloaded(old(memory), store.record).Some?
      ensures memory == if ok then Reloaded(old(memory), store.record).value else old(memory)
    {
      if store.record.None? {
        return true;
      }
      if store.record.value.conversation != memory.conversation {
        return false;
      }
      Adopt(store.record.value);
      return true;
    }
  }

  /** What a process that retakes the hold goes on with, and nothing where its conversation has been replaced. */
  function Reloaded(m: Memory, record: Option<Durable>): Option<Memory> {
    match record
    case None => Some(m)
    case Some(existing) => if existing.conversation == m.conversation then Some(Adopted(existing)) else None
  }

  function SavedBy(most: nat, m: Memory, save: Write): Memory {
    if save.Failed? then m else m.(seen := Durably(most, m))
  }

  // ---- All the processes ----

  datatype Held = Held(pid: Pid, memory: Memory)

  /** The record, who holds the conversation, who has put it down, every settling that has been logged, every id
      that was ever given out, and every conversation there ever was. */
  datatype World = World(record: Option<Durable>, hold: Option<Held>, away: map<Pid, Memory>, settled: seq<Id>,
                         raised: set<Id>, used: set<nat>)

  datatype Step =
    | OpenResume(pid: Pid)
    | OpenNew(pid: Pid, conversation: nat, save: Write)
    | Turn(save: Write)
    | Raise
    | Log(id: Id)
    | Mark
    | Tear
    | Save(save: Write)
    | PutDown
    | Retake(pid: Pid)
    | Leave(pid: Pid)
    | Crash

  function Start(): World { World(None, None, map[], [], {}, {}) }

  function Holding(w: World, m: Memory): World
    requires w.hold.Some?
  {
    w.(hold := Some(w.hold.value.(memory := m)))
  }

  function SaveIn(most: nat, w: World, m: Memory, save: Write): World
    requires w.hold.Some?
  {
    Holding(if save.Failed? then w else w.(record := Some(Durably(most, m))), SavedBy(most, m, save))
  }

  function NextId(m: Memory): Id
    requires m.placed.Some?
  {
    Id(m.conversation, m.turns, m.placed.value + 1)
  }

  function MarkedSettled(matters: seq<Matter>, id: Id): seq<Matter> {
    if matters == [] then [] else
      var earlier, last := MarkedSettled(matters[..|matters| - 1], id), matters[|matters| - 1];
      earlier + [if last.id == id then last.(settled := true) else last]
  }

  /** What the process that holds the conversation may do. */
  function HolderAfter(most: nat, w: World, step: Step): World
    requires w.hold.Some?
  {
    var m := w.hold.value.memory;
    match step
    // A turn is counted and saved before anything its reply raises is given an id.
    case Turn(save) =>
      if m.settling.Some? then w else
        var turned := m.(turns := m.turns + 1, placed := None);
        var saved := SaveIn(most, w, turned, save);
        if save.Done? then Holding(saved, saved.hold.value.memory.(placed := Some(0))) else saved
    case Raise =>
      if m.settling.Some? || m.placed.None? then w else
        Holding(w.(raised := w.raised + {NextId(m)}),
                m.(placed := Some(m.placed.value + 1), matters := m.matters + [Matter(NextId(m), false)]))
    // An item is created, or a rejection or an answer reaches the log; saves may come before it is marked.
    case Log(id) =>
      if m.settling.Some? || id !in OpenIds(m.matters) then w else
        Holding(w.(settled := w.settled + [id]), m.(settling := Some(id)))
    case Mark =>
      if m.settling.None? then w else
        Holding(w, m.(matters := MarkedSettled(m.matters, m.settling.value), settling := None))
    // It reached the log and was reported failed, so that it is never marked.
    case Tear => if m.settling.None? then w else Holding(w, m.(settling := None))
    case Save(save) => SaveIn(most, w, m, save)
    case PutDown =>
      if m.settling.Some? then w else
        var saved := SaveIn(most, w, m, Done);
        saved.(hold := None, away := w.away[w.hold.value.pid := saved.hold.value.memory])
    case Crash => w.(hold := None)
    case _ => w
  }

  /** What happens while nobody holds it. */
  function FreeAfter(most: nat, w: World, step: Step): World
    requires w.hold.None?
  {
    match step
    case OpenResume(pid) =>
      if pid in w.away || w.record.None? then w else w.(hold := Some(Held(pid, Adopted(w.record.value))))
    case OpenNew(pid, conversation, save) =>
      if pid in w.away || conversation in w.used then w else
        var begun := Durable(conversation, 0, []);
        var saved := if save.Failed? then w else w.(record := Some(begun), used := w.used + {conversation});
        if save.Done? then saved.(hold := Some(Held(pid, Adopted(begun)))) else saved
    case Retake(pid) =>
      if pid !in w.away then w else
        var left := w.(away := w.away - {pid});
        var back := Reloaded(w.away[pid], w.record);
        if back.None? then left else left.(hold := Some(Held(pid, back.value)))
    case _ => w
  }

  /** A step nobody is in a position to take changes nothing. */
  function After(most: nat, w: World, step: Step): World {
    if step.Leave? then w.(away := w.away - {step.pid})
    else if w.hold.Some? then HolderAfter(most, w, step)
    else FreeAfter(most, w, step)
  }

  function Run(most: nat, w: World, steps: seq<Step>): World
    decreases |steps|
  {
    if steps == [] then w else After(most, Run(most, w, steps[..|steps| - 1]), steps[|steps| - 1])
  }

  // ---- Every interleaving ----

  ghost predicate Distinct(ids: seq<Id>) {
    forall i: nat, j: nat | i < j < |ids| :: ids[i] != ids[j]
  }

  function Without(ids: seq<Id>, id: Id): seq<Id> {
    if ids == [] then [] else
      var earlier, last := Without(ids[..|ids| - 1], id), ids[|ids| - 1];
      if last == id then earlier else earlier + [last]
  }

  // ---- The lists ----

  lemma {:induction false} OpenIdsOfUnsettled(ids: seq<Id>)
    ensures OpenIds(Unsettled(ids)) == ids
    decreases |ids|
  {
    if ids != [] {
      OpenIdsOfUnsettled(ids[..|ids| - 1]);
      assert Unsettled(ids)[..|Unsettled(ids)| - 1] == Unsettled(ids[..|ids| - 1]);
    }
  }

  lemma OpenIdsWithOneMore(matters: seq<Matter>, id: Id)
    ensures OpenIds(matters + [Matter(id, false)]) == OpenIds(matters) + [id]
  {
    assert (matters + [Matter(id, false)])[..|matters|] == matters;
  }

  lemma {:induction false} OpenIdsMarked(matters: seq<Matter>, id: Id)
    ensures OpenIds(MarkedSettled(matters, id)) == Without(OpenIds(matters), id)
    decreases |matters|
  {
    if matters != [] {
      var before, last := matters[..|matters| - 1], matters[|matters| - 1];
      OpenIdsMarked(before, id);
      assert MarkedSettled(matters, id)[..|MarkedSettled(before, id)|] == MarkedSettled(before, id);
      if !last.settled {
        assert OpenIds(matters)[..|OpenIds(before)|] == OpenIds(before);
      }
    }
  }

  lemma {:induction false} WithoutMeans(ids: seq<Id>, id: Id)
    ensures forall x :: x in Without(ids, id) <==> x in ids && x != id
    ensures Distinct(ids) ==> Distinct(Without(ids, id))
    decreases |ids|
  {
    if ids != [] {
      WithoutMeans(ids[..|ids| - 1], id);
      if Distinct(ids) {
        assert Distinct(ids[..|ids| - 1]) && ids[|ids| - 1] !in Without(ids[..|ids| - 1], id);
      }
      assert ids == ids[..|ids| - 1] + [ids[|ids| - 1]];
    }
  }

  lemma NewestMeans(most: nat, ids: seq<Id>)
    ensures forall x | x in Newest(most, ids) :: x in ids
    ensures Distinct(ids) ==> Distinct(Newest(most, ids))
  {
  }

  // ---- Every run ----

  ghost predicate Raised(ids: seq<Id>, raised: set<Id>) { forall x | x in ids :: x in raised }

  /** The holder's record is the one it last read or wrote, and of the conversation it is having. */
  ghost predicate Current(m: Memory, r: Durable) {
    && m.seen == r && m.conversation == r.conversation
    && r.turns <= m.turns && (m.placed.Some? ==> r.turns == m.turns)
  }

  /** No id is of a turn or a place yet to be given out. */
  ghost predicate Named(w: World, r: Durable) {
    && (forall id | id in w.raised :: id.conversation in w.used)
    && (forall id | id in w.raised && id.conversation == r.conversation :: id.turn <= r.turns)
    && (w.hold.Some? && w.hold.value.memory.placed.Some? ==>
        forall id | id in w.raised && id.conversation == r.conversation && id.turn == r.turns ::
          id.place <= w.hold.value.memory.placed.value)
  }

  ghost predicate Listed(ids: seq<Id>, raised: set<Id>) { Distinct(ids) && Raised(ids, raised) }

  ghost predicate Sound(w: World) {
    && Raised(w.settled, w.raised)
    && (w.record.None? ==> w.hold.None? && w.away == map[] && w.raised == {})
    && (w.record.Some? ==>
        var r := w.record.value;
        r.conversation in w.used && Listed(r.pending, w.raised) && Named(w, r) && (w.hold.Some? ==> HeldSoundly(w, r)))
  }

  ghost predicate HeldSoundly(w: World, r: Durable)
    requires w.hold.Some?
  {
    var m := w.hold.value.memory;
    && w.hold.value.pid !in w.away
    && Current(m, r) && Listed(OpenIds(m.matters), w.raised)
    && (m.settling.Some? ==> m.settling.value in OpenIds(m.matters) && m.settling.value in w.settled)
  }

  lemma SaveKeeps(most: nat, w: World, m: Memory, save: Write)
    requires Sound(w) && w.hold.Some? && Current(m, w.record.value) && Sound(Holding(w, m))
    ensures Sound(SaveIn(most, w, m, save))
  {
    NewestMeans(most, OpenIds(m.matters));
  }

  lemma TurnKeeps(most: nat, w: World, save: Write)
    requires Sound(w) && w.hold.Some? && w.hold.value.memory.settling.None?
    ensures Sound(HolderAfter(most, w, Turn(save)))
  {
    var m := w.hold.value.memory;
    var turned := m.(turns := m.turns + 1, placed := None);
    assert Sound(Holding(w, turned));
    SaveKeeps(most, w, turned, save);
  }

  lemma ListedWithOneMore(ids: seq<Id>, raised: set<Id>, id: Id)
    requires Listed(ids, raised) && id !in raised
    ensures Listed(ids + [id], raised + {id})
  {
  }

  lemma ListedWithout(ids: seq<Id>, raised: set<Id>, id: Id)
    requires Listed(ids, raised)
    ensures Listed(Without(ids, id), raised)
  {
    WithoutMeans(ids, id);
  }

  lemma RaiseKeeps(most: nat, w: World)
    requires Sound(w) && w.hold.Some? && w.hold.value.memory.settling.None? && w.hold.value.memory.placed.Some?
    ensures Sound(HolderAfter(most, w, Raise))
  {
    var m := w.hold.value.memory;
    OpenIdsWithOneMore(m.matters, NextId(m));
    NextIsNew(w);
    ListedWithOneMore(OpenIds(m.matters), w.raised, NextId(m));
    ListedOnward(w.record.value.pending, w.raised, NextId(m));
    RaiseNames(most, w);
  }

  lemma NextIsNew(w: World)
    requires Sound(w) && w.hold.Some? && w.hold.value.memory.placed.Some?
    ensures NextId(w.hold.value.memory) !in w.raised
  {
  }

  lemma ListedOnward(ids: seq<Id>, raised: set<Id>, id: Id)
    requires Listed(ids, raised)
    ensures Listed(ids, raised + {id})
  {
  }

  lemma RaiseNames(most: nat, w: World)
    requires Sound(w) && w.hold.Some? && w.hold.value.memory.settling.None? && w.hold.value.memory.placed.Some?
    ensures Named(HolderAfter(most, w, Raise), w.record.value)
  {
  }

  /** What the holder has in memory may change, so long as its record, its place and what is named stay good. */
  lemma HoldingKeeps(w: World, n: Memory)
    requires Sound(w) && w.hold.Some? && n.placed == w.hold.value.memory.placed && n.settling.None?
    requires Current(n, w.record.value) && Listed(OpenIds(n.matters), w.raised)
    ensures Sound(Holding(w, n))
  {
    assert Named(Holding(w, n), w.record.value);
  }

  lemma MarkKeeps(most: nat, w: World)
    requires Sound(w) && w.hold.Some? && w.hold.value.memory.settling.Some?
    ensures Sound(HolderAfter(most, w, Mark))
  {
    var m := w.hold.value.memory;
    var n := m.(matters := MarkedSettled(m.matters, m.settling.value), settling := None);
    OpenIdsMarked(m.matters, m.settling.value);
    ListedWithout(OpenIds(m.matters), w.raised, m.settling.value);
    HoldingKeeps(w, n);
  }

  lemma AdoptKeeps(w: World, pid: Pid)
    requires Sound(w) && w.hold.None? && w.record.Some? && pid !in w.away
    ensures Sound(w.(hold := Some(Held(pid, Adopted(w.record.value)))))
  {
    OpenIdsOfUnsettled(w.record.value.pending);
  }

  lemma FreeKeeps(most: nat, w: World, step: Step)
    requires Sound(w) && w.hold.None?
    ensures Sound(FreeAfter(most, w, step))
  {
    match step
    case OpenResume(pid) =>
      if pid !in w.away && w.record.Some? {
        AdoptKeeps(w, pid);
      }
    case OpenNew(pid, conversation, save) =>
      if pid !in w.away && conversation !in w.used && !save.Failed? {
        var saved := w.(record := Some(Durable(conversation, 0, [])), used := w.used + {conversation});
        assert Sound(saved);
        AdoptKeeps(saved, pid);
      }
    case Retake(pid) =>
      if pid in w.away && w.record.Some? {
        AdoptKeeps(w.(away := w.away - {pid}), pid);
      }
    case _ =>
  }

  lemma HolderKeeps(most: nat, w: World, step: Step)
    requires Sound(w) && w.hold.Some?
    ensures Sound(HolderAfter(most, w, step))
  {
    var m := w.hold.value.memory;
    match step
    case Turn(save) => if m.settling.None? { TurnKeeps(most, w, save); }
    case Raise => if m.settling.None? && m.placed.Some? { RaiseKeeps(most, w); }
    case Mark => if m.settling.Some? { MarkKeeps(most, w); }
    case Save(save) => SaveKeeps(most, w, m, save);
    case PutDown => SaveKeeps(most, w, m, Done);
    case _ =>
  }

  lemma StepKeeps(most: nat, w: World, step: Step)
    requires Sound(w)
    ensures Sound(After(most, w, step))
  {
    if step.Leave? {
    } else if w.hold.Some? {
      HolderKeeps(most, w, step);
    } else {
      FreeKeeps(most, w, step);
    }
  }

  lemma {:induction false} RunKeeps(most: nat, steps: seq<Step>)
    ensures Sound(Run(most, Start(), steps))
    decreases |steps|
  {
    if steps != [] {
      RunKeeps(most, steps[..|steps| - 1]);
      StepKeeps(most, Run(most, Start(), steps[..|steps| - 1]), steps[|steps| - 1]);
    }
  }

  /** In every interleaving, crashes and failed saves included: whoever is about to save over the record is the process
      that read or wrote it last, and is in the conversation the record is of. */
  lemma NoLostUpdate(most: nat, steps: seq<Step>, step: Step)
    ensures var w := Run(most, Start(), steps);
      var t := After(most, w, step);
      t.record != w.record && w.record.Some? && !step.OpenNew? ==>
        && w.hold.Some? && w.record == Some(w.hold.value.memory.seen)
        && t.record.Some? && t.record.value.conversation == w.record.value.conversation
  {
    RunKeeps(most, steps);
  }

  // ---- What each step comes to ----

  /** A process holds the conversation as the record has it, with nothing begun. */
  ghost predicate Begins(w: World, pid: Pid, r: Durable) {
    && w.record == Some(r) && w.hold.Some? && w.hold.value.pid == pid && pid !in w.away
    && var m := w.hold.value.memory;
      && m.conversation == r.conversation && m.turns == r.turns && m.seen == r && OpenIds(m.matters) == r.pending
      && m.settling.None? && m.placed.None?
  }

  /** In every world there can be, a process that put the conversation down and comes back has it again exactly where
      the record is still of its conversation, and then as the record has it; where it is not, its session is over; and
      none of it touches the record. */
  lemma RetakesExactly(most: nat, steps: seq<Step>, pid: Pid)
    ensures var w := Run(most, Start(), steps);
      var t := After(most, w, Retake(pid));
      w.hold.None? && pid in w.away ==>
        && w.record.Some? && t.record == w.record && t.settled == w.settled && t.away == w.away - {pid}
        && (t.hold.Some? <==> w.record.value.conversation == w.away[pid].conversation)
        && (t.hold.Some? ==> Begins(t, pid, w.record.value))
  {
    RunKeeps(most, steps);
    var w := Run(most, Start(), steps);
    if w.record.Some? {
      OpenIdsOfUnsettled(w.record.value.pending);
    }
  }

  /** Where there is no record, which no process that ran has seen, it goes on with what it has. */
  lemma RetakesUnrecorded(most: nat, w: World, pid: Pid)
    requires w.hold.None? && pid in w.away && w.record.None?
    ensures After(most, w, Retake(pid)).hold == Some(Held(pid, w.away[pid]))
  {
  }

  /** A process that opens the recorded conversation, having none of its own away, has it as the record does. */
  lemma ResumesExactly(most: nat, w: World, pid: Pid)
    requires w.hold.None?
    ensures var t := After(most, w, OpenResume(pid));
      if w.record.Some? && pid !in w.away then Begins(t, pid, w.record.value) && t == w.(hold := t.hold) else t == w
  {
    if w.record.Some? {
      OpenIdsOfUnsettled(w.record.value.pending);
    }
  }

  /** One that begins a conversation never had before has it, with nothing waiting, exactly where its first save is
      reported done; and replaces the record wherever that save landed. */
  lemma BeginsExactly(most: nat, w: World, pid: Pid, conversation: nat, save: Write)
    requires w.hold.None? && pid !in w.away && conversation !in w.used
    ensures var t := After(most, w, OpenNew(pid, conversation, save));
      && (t.hold.Some? <==> save.Done?) && (t.hold.Some? ==> Begins(t, pid, Durable(conversation, 0, [])))
      && t.record == (if save.Failed? then w.record else Some(Durable(conversation, 0, [])))
      && t.away == w.away && t.settled == w.settled
  {
  }

  /** Whoever has a conversation and is settling nothing can put it down, and then whoever takes it up next, itself or
      another, finds before them the newest of what was waiting. */
  lemma HandsOver(most: nat, w: World, next: Pid)
    requires Sound(w) && w.hold.Some? && w.hold.value.memory.settling.None?
    ensures var m, pid := w.hold.value.memory, w.hold.value.pid;
      var put := After(most, w, PutDown);
      var up := After(most, put, if next == pid then Retake(pid) else OpenResume(next));
      && put.hold.None? && put.record == Some(Durable(m.conversation, m.turns, Newest(most, OpenIds(m.matters))))
      && (next == pid || next !in w.away ==> Begins(up, next, put.record.value))
  {
    OpenIdsOfUnsettled(Newest(most, OpenIds(w.hold.value.memory.matters)));
  }

  /** A turn whose save is reported done is followed by ids of its own, in order, each waiting as it is given. */
  lemma TurnsAndRaises(most: nat, w: World)
    requires Sound(w) && w.hold.Some? && w.hold.value.memory.settling.None?
    ensures var m := w.hold.value.memory;
      var one := After(most, After(most, w, Turn(Done)), Raise);
      var two := After(most, one, Raise);
      var first, second := Id(m.conversation, m.turns + 1, 1), Id(m.conversation, m.turns + 1, 2);
      && one.hold.Some? && OpenIds(one.hold.value.memory.matters) == OpenIds(m.matters) + [first]
      && two.hold.Some? && OpenIds(two.hold.value.memory.matters) == OpenIds(m.matters) + [first] + [second]
      && two.raised == w.raised + {first, second} && two.record.Some? && two.record.value.turns == m.turns + 1
  {
    var m := w.hold.value.memory;
    var first := Id(m.conversation, m.turns + 1, 1);
    var turned := After(most, w, Turn(Done));
    assert turned.hold.value.memory.matters == m.matters && turned.hold.value.memory.placed == Some(0);
    OpenIdsWithOneMore(m.matters, first);
    OpenIdsWithOneMore(m.matters + [Matter(first, false)], Id(m.conversation, m.turns + 1, 2));
  }

  /** What waits, and nothing else, can be settled by whoever has it and is settling nothing. */
  lemma SettlesWhatWaits(most: nat, w: World, id: Id)
    requires w.hold.Some? && w.hold.value.memory.settling.None?
    ensures var m := w.hold.value.memory;
      After(most, w, Log(id)) == if id in OpenIds(m.matters)
        then Holding(w.(settled := w.settled + [id]), m.(settling := Some(id))) else w
  {
  }

  /** And marked, it waits no more. */
  lemma MarksWhatItSettled(most: nat, w: World)
    requires w.hold.Some? && w.hold.value.memory.settling.Some?
    ensures var m, t := w.hold.value.memory, After(most, w, Mark);
      && t.hold.Some? && t.hold.value.memory.settling.None? && t == w.(hold := t.hold)
      && OpenIds(t.hold.value.memory.matters) == Without(OpenIds(m.matters), m.settling.value)
  {
    OpenIdsMarked(w.hold.value.memory.matters, w.hold.value.memory.settling.value);
  }

  // ---- Settled once ----

  /** A step that leaves something settled looking undecided: a process that ends while the record still lists it, or a
      settling that reached the log and is never marked. */
  ghost predicate Careless(w: World, step: Step) {
    && w.hold.Some? && w.record.Some?
    && ((step.Crash? && exists id :: id in w.record.value.pending && id in w.settled)
        || (step.Tear? && w.hold.value.memory.settling.Some?))
  }

  /** Nothing is settled twice, and nothing that is settled is still there to be settled. */
  ghost predicate Once(w: World) {
    && Distinct(w.settled)
    && (w.hold.Some? ==>
        var m := w.hold.value.memory;
        forall id | id in OpenIds(m.matters) && id in w.settled :: m.settling == Some(id))
    && (w.hold.None? && w.record.Some? ==> forall id | id in w.record.value.pending :: id !in w.settled)
  }

  lemma HolderOnce(most: nat, w: World, step: Step)
    requires Sound(w) && Once(w) && w.hold.Some? && !Careless(w, step)
    ensures Once(HolderAfter(most, w, step))
  {
    match step
    case Raise => RaiseOnce(most, w);
    case Mark => MarkOnce(most, w);
    case PutDown => NewestMeans(most, OpenIds(w.hold.value.memory.matters));
    case _ =>
  }

  lemma RaiseOnce(most: nat, w: World)
    requires Sound(w) && Once(w) && w.hold.Some?
    ensures Once(HolderAfter(most, w, Raise))
  {
    var m := w.hold.value.memory;
    if m.settling.None? && m.placed.Some? {
      OpenIdsWithOneMore(m.matters, NextId(m));
      NextIsNew(w);
    }
  }

  lemma MarkOnce(most: nat, w: World)
    requires Once(w) && w.hold.Some?
    ensures Once(HolderAfter(most, w, Mark))
  {
    var m := w.hold.value.memory;
    if m.settling.Some? {
      OpenIdsMarked(m.matters, m.settling.value);
      WithoutMeans(OpenIds(m.matters), m.settling.value);
    }
  }

  lemma FreeOnce(most: nat, w: World, step: Step)
    requires Once(w) && w.hold.None? && (w.record.None? ==> w.away == map[])
    ensures Once(FreeAfter(most, w, step))
  {
    match step
    case OpenResume(pid) =>
      if w.record.Some? {
        AdoptOnce(w, pid, w.record.value);
      }
    case OpenNew(pid, conversation, save) =>
      var begun := Durable(conversation, 0, []);
      AdoptOnce(w.(record := Some(begun), used := w.used + {conversation}), pid, begun);
    case Retake(pid) =>
      if w.record.Some? {
        AdoptOnce(w.(away := w.away - {pid}), pid, w.record.value);
      }
    case _ =>
  }

  lemma AdoptOnce(w: World, pid: Pid, r: Durable)
    requires Distinct(w.settled) && forall id | id in r.pending :: id !in w.settled
    ensures Once(w.(hold := Some(Held(pid, Adopted(r)))))
  {
    OpenIdsOfUnsettled(r.pending);
  }

  lemma StepOnce(most: nat, w: World, step: Step)
    requires Sound(w) && Once(w) && !Careless(w, step)
    ensures Once(After(most, w, step))
  {
    if step.Leave? {
    } else if w.hold.Some? {
      HolderOnce(most, w, step);
    } else {
      FreeOnce(most, w, step);
    }
  }

  ghost predicate AllCareful(most: nat, steps: seq<Step>) {
    forall k: nat | k < |steps| :: !Careless(Run(most, Start(), steps[..k]), steps[k])
  }

  /** Over every interleaving with no careless step, no proposal or concern is settled twice. */
  lemma {:induction false} SettledOnce(most: nat, steps: seq<Step>)
    requires AllCareful(most, steps)
    ensures Once(Run(most, Start(), steps)) && Distinct(Run(most, Start(), steps).settled)
    decreases |steps|
  {
    if steps != [] {
      var before := steps[..|steps| - 1];
      forall k: nat | k < |before| ensures !Careless(Run(most, Start(), before[..k]), before[k]) {
        assert before[..k] == steps[..k];
      }
      SettledOnce(most, before);
      RunKeeps(most, before);
      StepOnce(most, Run(most, Start(), before), steps[|steps| - 1]);
    }
  }

  /** And any careless step can be followed to a second settling: of the matter the record still lists, by whoever opens
      the conversation next, or of the one never marked, by the same process. */
  lemma CarelessSettlesTwice(most: nat, steps: seq<Step>, step: Step) returns (more: seq<Step>)
    requires Careless(Run(most, Start(), steps), step)
    ensures !Distinct(Run(most, After(most, Run(most, Start(), steps), step), more).settled)
  {
    var w := Run(most, Start(), steps);
    RunKeeps(most, steps);
    if step.Tear? {
      more := [Log(w.hold.value.memory.settling.value)];
      TornSettlesTwice(most, w);
    } else {
      var id :| id in w.record.value.pending && id in w.settled;
      more := [OpenResume(w.hold.value.pid), Log(id)];
      LeftSettlesTwice(most, w, id);
    }
  }

  lemma TornSettlesTwice(most: nat, w: World)
    requires Sound(w) && w.hold.Some? && w.hold.value.memory.settling.Some?
    ensures !Distinct(Run(most, After(most, w, Tear), [Log(w.hold.value.memory.settling.value)]).settled)
  {
    var id := w.hold.value.memory.settling.value;
    assert [Log(id)][..0] == [];
    Twice(w.settled, id);
  }

  lemma LeftSettlesTwice(most: nat, w: World, id: Id)
    requires Sound(w) && w.hold.Some? && w.record.Some? && id in w.record.value.pending && id in w.settled
    ensures !Distinct(Run(most, After(most, w, Crash), [OpenResume(w.hold.value.pid), Log(id)]).settled)
  {
    var resume := OpenResume(w.hold.value.pid);
    var left := After(most, w, Crash);
    ResumeTakesUp(most, w);
    RunsTwo(most, left, resume, Log(id));
    Twice(w.settled, id);
  }

  /** Whoever opens next has before them what the record still lists. */
  lemma ResumeTakesUp(most: nat, w: World)
    requires Sound(w) && w.hold.Some? && w.record.Some?
    ensures var t := After(most, After(most, w, Crash), OpenResume(w.hold.value.pid));
      && t.hold.Some? && t.hold.value.memory.settling.None? && t.settled == w.settled
      && OpenIds(t.hold.value.memory.matters) == w.record.value.pending
  {
    OpenIdsOfUnsettled(w.record.value.pending);
  }

  lemma RunsTwo(most: nat, w: World, one: Step, two: Step)
    ensures Run(most, w, [one, two]) == After(most, After(most, w, one), two)
  {
    assert [one, two][..1] == [one] && [one][..0] == [];
    assert Run(most, w, [one]) == After(most, w, one);
  }

  lemma Twice(settled: seq<Id>, id: Id)
    requires id in settled
    ensures !Distinct(settled + [id])
  {
    var i: nat :| i < |settled| && settled[i] == id;
    assert (settled + [id])[i] == (settled + [id])[|settled|];
  }

  // ---- One list ----

  /** What is waiting on somebody, wherever it is held, and what has been settled. */
  datatype Board = Board(waiting: seq<Id>, settled: seq<Id>)

  datatype Change = Nothing | Adds(id: Id) | Settles(id: Id) | Ages | Renews

  function Waiting(w: World): seq<Id> {
    if w.hold.Some? then
      var m := w.hold.value.memory;
      if m.settling.Some? then Without(OpenIds(m.matters), m.settling.value) else OpenIds(m.matters)
    else if w.record.Some? then w.record.value.pending
    else []
  }

  function BoardOf(w: World): Board { Board(Waiting(w), w.settled) }

  /** One list, and what may happen to it: it grows at the end, loses what is settled, loses its oldest past `most`, and
      is begun again with a new conversation. */
  function Changed(most: nat, b: Board, change: Change): Board {
    match change
    case Nothing => b
    case Adds(id) => b.(waiting := b.waiting + [id])
    case Settles(id) => Board(Without(b.waiting, id), b.settled + [id])
    case Ages => b.(waiting := Newest(most, b.waiting))
    case Renews => b.(waiting := [])
  }

  /** What a step does to it. */
  function ChangeOf(w: World, step: Step): Change {
    if w.hold.Some? then
      var m := w.hold.value.memory;
      match step
      case Raise => if m.settling.None? && m.placed.Some? then Adds(NextId(m)) else Nothing
      case Log(id) => if m.settling.None? && id in OpenIds(m.matters) then Settles(id) else Nothing
      case PutDown => if m.settling.None? then Ages else Nothing
      case Crash => Ages
      case _ => Nothing
    else if step.OpenNew? && step.pid !in w.away && step.conversation !in w.used && !step.save.Failed? then Renews
    else Nothing
  }

  /** Nobody ends with anything unsaved, and nothing that reached the log goes unmarked. */
  ghost predicate Orderly(most: nat, w: World, step: Step) {
    && (step.Crash? && w.hold.Some? ==> w.record.Some? && w.record.value.pending == Newest(most, Waiting(w)))
    && (step.Tear? && w.hold.Some? ==> w.hold.value.memory.settling.None?)
  }

  lemma HolderOneList(most: nat, w: World, step: Step)
    requires Orderly(most, w, step) && w.hold.Some?
    ensures BoardOf(HolderAfter(most, w, step)) == Changed(most, BoardOf(w), ChangeOf(w, step))
  {
    match step
    case Raise => RaiseOneList(most, w);
    case Mark => MarkOneList(most, w);
    case Log(id) => LogOneList(most, w, id);
    case PutDown => PutDownOneList(most, w);
    case Turn(save) => SaveOneList(most, w, step);
    case Save(save) => SaveOneList(most, w, step);
    case _ =>
  }

  /** A save, a turn's or another, changes nothing that is waiting. */
  lemma SaveOneList(most: nat, w: World, step: Step)
    requires w.hold.Some? && (step.Turn? || step.Save?)
    ensures BoardOf(HolderAfter(most, w, step)) == BoardOf(w)
  {
  }

  lemma LogOneList(most: nat, w: World, id: Id)
    requires w.hold.Some?
    ensures BoardOf(HolderAfter(most, w, Log(id))) == Changed(most, BoardOf(w), ChangeOf(w, Log(id)))
  {
  }

  lemma PutDownOneList(most: nat, w: World)
    requires w.hold.Some?
    ensures BoardOf(HolderAfter(most, w, PutDown)) == Changed(most, BoardOf(w), ChangeOf(w, PutDown))
  {
  }

  lemma RaiseOneList(most: nat, w: World)
    requires w.hold.Some?
    ensures BoardOf(HolderAfter(most, w, Raise)) == Changed(most, BoardOf(w), ChangeOf(w, Raise))
  {
    var m := w.hold.value.memory;
    if m.settling.None? && m.placed.Some? {
      OpenIdsWithOneMore(m.matters, NextId(m));
    }
  }

  lemma MarkOneList(most: nat, w: World)
    requires w.hold.Some?
    ensures BoardOf(HolderAfter(most, w, Mark)) == Changed(most, BoardOf(w), ChangeOf(w, Mark))
  {
    var m := w.hold.value.memory;
    if m.settling.Some? {
      OpenIdsMarked(m.matters, m.settling.value);
    }
  }

  lemma FreeOneList(most: nat, w: World, step: Step)
    requires w.hold.None? && (w.record.None? ==> w.away == map[])
    ensures BoardOf(FreeAfter(most, w, step)) == Changed(most, BoardOf(w), ChangeOf(w, step))
  {
    OpenIdsOfUnsettled([]);
    if w.record.Some? {
      OpenIdsOfUnsettled(w.record.value.pending);
    }
  }

  /** Every orderly step of all the processes is a change of one list, so that nothing vanishes but by being settled, by
      age, or with its conversation; and nothing comes back. */
  lemma OneList(most: nat, w: World, step: Step)
    requires Sound(w) && Orderly(most, w, step)
    ensures BoardOf(After(most, w, step)) == Changed(most, BoardOf(w), ChangeOf(w, step))
  {
    if step.Leave? {
    } else if w.hold.Some? {
      HolderOneList(most, w, step);
    } else {
      FreeOneList(most, w, step);
    }
  }

  lemma ChangeTakes(most: nat, b: Board, change: Change, i: nat)
    requires i < |b.waiting|
    ensures || b.waiting[i] in Changed(most, b, change).waiting
            || change == Settles(b.waiting[i])
            || (change.Ages? && i + most < |b.waiting|)
            || change.Renews?
  {
    var id := b.waiting[i];
    match change
    case Adds(another) => assert (b.waiting + [another])[i] == id;
    case Settles(one) => WithoutMeans(b.waiting, one);
    case Ages =>
      if i + most >= |b.waiting| > most {
        assert b.waiting[|b.waiting| - most..][i - (|b.waiting| - most)] == id;
      }
    case _ =>
  }

  /** What vanished was settled by that step, or was older than `most` others still waiting, or its conversation
      was replaced. */
  lemma VanishesOnlyByAge(most: nat, w: World, step: Step, i: nat)
    requires Sound(w) && Orderly(most, w, step)
    requires i < |Waiting(w)| && Waiting(w)[i] !in Waiting(After(most, w, step))
    ensures || After(most, w, step).settled == w.settled + [Waiting(w)[i]]
            || i + most < |Waiting(w)|
            || (step.OpenNew? && w.hold.None?)
  {
    OneList(most, w, step);
    ChangeTakes(most, BoardOf(w), ChangeOf(w, step), i);
  }

  lemma OrderlyIsCareful(most: nat, w: World, step: Step)
    requires Sound(w) && Once(w) && Orderly(most, w, step)
    ensures !Careless(w, step)
  {
    if w.hold.Some? && step.Crash? {
      var m := w.hold.value.memory;
      NewestMeans(most, Waiting(w));
      if m.settling.Some? {
        WithoutMeans(OpenIds(m.matters), m.settling.value);
      }
    }
  }

  ghost predicate AllOrderly(most: nat, steps: seq<Step>) {
    forall k: nat | k < |steps| :: Orderly(most, Run(most, Start(), steps[..k]), steps[k])
  }

  /** The same changes, made to one list by nobody in particular. */
  function Story(most: nat, steps: seq<Step>): Board
    decreases |steps|
  {
    if steps == [] then Board([], []) else
      var before := steps[..|steps| - 1];
      Changed(most, Story(most, before), ChangeOf(Run(most, Start(), before), steps[|steps| - 1]))
  }

  /** Over every orderly interleaving the processes together are one list, on which nothing is settled twice. */
  lemma {:induction false} ManyAreOne(most: nat, steps: seq<Step>)
    requires AllOrderly(most, steps)
    ensures BoardOf(Run(most, Start(), steps)) == Story(most, steps)
    ensures Once(Run(most, Start(), steps)) && Distinct(Story(most, steps).settled)
    decreases |steps|
  {
    if steps != [] {
      var before, step := steps[..|steps| - 1], steps[|steps| - 1];
      forall k: nat | k < |before| ensures Orderly(most, Run(most, Start(), before[..k]), before[k]) {
        assert before[..k] == steps[..k];
      }
      ManyAreOne(most, before);
      var w := Run(most, Start(), before);
      RunKeeps(most, before);
      OrderlyIsCareful(most, w, step);
      StepOnce(most, w, step);
      OneList(most, w, step);
    }
  }
}
