/** The ordered backlog the development manager pulls from: internal/backlog/backlog.go. */
module Backlog {
  import opened Text
  import opened WorkItems
  import opened StableOrders

  // ---- The order ----

  function Priority(item: WorkItem): int { item.priority }

  /** `Sort`, over the slice in place. */
  method Sort(items: array<WorkItem>)
    modifies items
    ensures items[..] == SortedBy(old(items[..]), Priority)
  {
    var sorted := SortedBy(items[..], Priority);
    forall i | 0 <= i < items.Length {
      items[i] := sorted[i];
    }
  }

  // ---- Entries ----

  datatype Hold = Hold(reason: string, decided: bool)

  /** What somebody still has to release; `read` says whether a reader got an answer at all. */
  datatype Holds = Holds(held: map<string, Hold>, read: bool, unlanded: map<string, string>)

  /** A child saying in its own words that it builds on a parent: `BuildsOnParent`, a regular expression. */
  type BuildsOn = (WorkItem, string) -> bool

  datatype Entry = Entry(
    position: nat, id: string, title: string, priority: int, status: string, executor: string, parking: string,
    landing: string, ready: bool, awaiting: string, awaitingCarryOut: bool, awaitingLanding: bool,
    waitingOn: seq<string>)

  predicate DeveloperRun(executor: string) { TrimSpace(executor) == "" }

  predicate Parked(parking: string) { TrimSpace(parking) != "" }

  /** `Holds.hold`, with its reason trimmed and no reason where nothing is held. */
  function HoldOn(held: Holds, id: string): Hold {
    if id in held.held then held.held[id].(reason := TrimSpace(held.held[id].reason)) else Hold("", false)
  }

  function EdgeStands(dependencies: seq<Dependency>, parent: string): bool {
    if dependencies == [] then false
    else if TrimSpace(dependencies[0].id) == parent && TrimSpace(dependencies[0].status) != "" then
      TrimSpace(dependencies[0].status) != CLOSED
    else EdgeStands(dependencies[1..], parent)
  }

  predicate OnSubstrate(held: Holds, item: WorkItem, unfinished: set<string>, buildsOn: BuildsOn) {
    var parent := DecomposedFrom(item);
    && parent != "" && parent in held.unlanded && buildsOn(item, parent)
    && (parent in unfinished || EdgeStands(item.dependencies, parent))
  }

  predicate Startable(item: WorkItem, reportedReady: bool, waiting: seq<string>, held: Holds) {
    if item.status == BLOCKED then held.read && waiting == [] else reportedReady
  }

  /** The reason a child waits on its parent's change landing; its wording beyond the place is not modelled. */
  function SubstrateReason(held: Holds, item: WorkItem): string {
    var parent := DecomposedFrom(item);
    "it says it builds on " + parent + "'s change, and " +
    if parent in held.unlanded then TrimSpace(held.unlanded[parent]) else ""
  }

  function EntryOf(item: WorkItem, position: nat, pullable: set<string>, held: Holds, unfinished: set<string>,
                   buildsOn: BuildsOn): Entry
  {
    var holding := HoldOn(held, item.id);
    var landing := holding.reason == "" && OnSubstrate(held, item, unfinished, buildsOn);
    var awaiting := if landing then SubstrateReason(held, item) else holding.reason;
    var waiting := WaitingOn(item, unfinished);
    Entry(position, item.id, item.title, item.priority, item.status, item.executor, item.parking, item.landing,
          Startable(item, item.id in pullable, waiting, held) && awaiting == "" && DeveloperRun(item.executor)
            && !Parked(item.parking),
          awaiting, awaiting != "" && holding.decided && !landing, landing, waiting)
  }

  function Admitted(items: seq<WorkItem>): seq<WorkItem> { SortedBy(Kept(items, Unfinished), Priority) }

  function Entries(admitted: seq<WorkItem>, build: (WorkItem, nat) -> Entry): (entries: seq<Entry>)
    ensures |entries| == |admitted|
    ensures forall k | 0 <= k < |admitted| :: entries[k] == build(admitted[k], k + 1)
  {
    seq(|admitted|, k requires 0 <= k < |admitted| => build(admitted[k], k + 1))
  }

  /** How a reading of the tracker builds one entry: from the item and its place in the order. */
  function Building(items: seq<WorkItem>, pullable: set<string>, held: Holds, buildsOn: BuildsOn): (WorkItem,
                    nat) -> Entry {
    var unfinished := Ids(Admitted(items));
    (item: WorkItem, position: nat) => EntryOf(item, position, pullable, held, unfinished, buildsOn)
  }

  function OrderOf(items: seq<WorkItem>, pullable: set<string>, held: Holds, buildsOn: BuildsOn): seq<Entry> {
    Entries(Admitted(items), Building(items, pullable, held, buildsOn))
  }

  method SelectAdmitted(items: seq<WorkItem>) returns (admitted: seq<WorkItem>)
    ensures admitted == Admitted(items)
  {
    var kept: seq<WorkItem> := [];
    for index := 0 to |items|
      invariant kept == Kept(items[..index], Unfinished)
    {
      assert items[..index + 1][..index] == items[..index];
      if items[index].status == OPEN || items[index].status == BLOCKED {
        kept := kept + [items[index]];
      }
    }
    assert items[..|items|] == items;
    var sorting := new WorkItem[|kept|](i requires 0 <= i < |kept| => kept[i]);
    assert sorting[..] == kept;
    Sort(sorting);
    admitted := sorting[..];
  }

  method Order(items: seq<WorkItem>, ready: seq<string>, held: Holds, buildsOn: BuildsOn) returns (entries: seq<Entry>)
    ensures entries == OrderOf(items, (set id | id in ready), held, buildsOn)
  {
    var pullable := set id | id in ready;
    var admitted := SelectAdmitted(items);
    entries := Build(admitted, Building(items, pullable, held, buildsOn));
  }

  /** The entries of the admitted, at the positions they stand in. */
  method Build(admitted: seq<WorkItem>, build: (WorkItem, nat) -> Entry) returns (entries: seq<Entry>)
    ensures entries == Entries(admitted, build)
  {
    entries := [];
    for position := 0 to |admitted|
      invariant |entries| == position
      invariant forall k | 0 <= k < position :: entries[k] == build(admitted[k], k + 1)
    {
      entries := entries + [build(admitted[position], position + 1)];
    }
  }

  // ---- Where each entry came from, and what is pulled next ----

  /** The tracker index each entry of the order stands for. */
  function Listed(items: seq<WorkItem>): seq<nat> { Sources(items, Unfinished, Priority) }

  predicate InBacklog(item: WorkItem) { item.status == "open" || item.status == "blocked" }

  /** One item stands before another: by a lower priority number, or under the same one by being listed earlier. */
  predicate Precedes(items: seq<WorkItem>, i: int, j: int) {
    && 0 <= i < |items| && 0 <= j < |items|
    && (items[i].priority < items[j].priority || (items[i].priority == items[j].priority && i < j))
  }

  /** The backlog holds exactly the open and blocked items, each once, numbered from one, by priority and, within a
      priority, in the order the tracker listed them. */
  lemma OrderIsStablePriority(items: seq<WorkItem>, pullable: set<string>, held: Holds, buildsOn: BuildsOn)
    ensures var entries, p := OrderOf(items, pullable, held, buildsOn), Listed(items);
      && |entries| == |p|
      && (forall k | 0 <= k < |p| :: p[k] < |items| && InBacklog(items[p[k]]) && entries[k].position == k + 1
            && entries[k] == EntryOf(items[p[k]], k + 1, pullable, held, Ids(Admitted(items)), buildsOn))
      && (forall j, k | 0 <= j < k < |p| :: Precedes(items, p[j], p[k]))
      && (forall i | 0 <= i < |items| && InBacklog(items[i]) :: i in p)
  {
    SourcesInOrder(items, Unfinished, Priority);
    BeforeIsPrecedes(items);
    var build := Building(items, pullable, held, buildsOn);
    assert forall k | 0 <= k < |Listed(items)| ::
        Entries(Admitted(items), build)[k] == build(items[Listed(items)[k]], k + 1);
  }

  /** The ids in the order are the ids of the unfinished items, however the sort arranged them. */
  lemma UnfinishedIds(items: seq<WorkItem>, id: string)
    ensures id in Ids(Admitted(items)) <==> exists i | 0 <= i < |items| :: Unfinished(items[i]) && items[i].id == id
  {
    var wanted := (item: WorkItem) => item.id == id;
    var admitted := Admitted(items);
    SomeKept(items, Unfinished, Priority, wanted);
    if id in Ids(admitted) {
      var k :| 0 <= k < |admitted| && admitted[k].id == id;
      assert wanted(admitted[k]);
      var i :| 0 <= i < |items| && Unfinished(items[i]) && wanted(items[i]);
      assert items[i].id == id;
    }
    if i :| 0 <= i < |items| && Unfinished(items[i]) && items[i].id == id {
      assert wanted(items[i]);
      var k :| 0 <= k < |admitted| && wanted(admitted[k]);
      assert admitted[k].id == id;
    }
  }

  method Next(entries: seq<Entry>) returns (next: Option<Entry>)
    ensures next == match FirstThat(entries, (e: Entry) => e.ready) case None => None case Some(k) => Some(entries[k])
  {
    for index := 0 to |entries|
      invariant forall k | 0 <= k < index :: !entries[k].ready
    {
      if entries[index].ready {
        return Some(entries[index]);
      }
    }
    return None;
  }

  /** What is pulled next is the ready item with the least priority number, and of those the one listed first. An
      entry's place in the order never decides whether it is ready. */
  lemma NextIsLeast(items: seq<WorkItem>, pullable: set<string>, held: Holds, buildsOn: BuildsOn)
    ensures var ready := (item: WorkItem) => Building(items, pullable, held, buildsOn)(item, 0).ready;
      match FirstThat(OrderOf(items, pullable, held, buildsOn), (e: Entry) => e.ready)
      case None => forall i | 0 <= i < |items| && InBacklog(items[i]) :: !ready(items[i])
      case Some(k) =>
        && k < |Listed(items)| && Listed(items)[k] < |items|
        && InBacklog(items[Listed(items)[k]]) && ready(items[Listed(items)[k]])
        && forall i | 0 <= i < |items| && i != Listed(items)[k] && InBacklog(items[i]) && ready(items[i]) ::
             Precedes(items, Listed(items)[k], i)
  {
    var build := Building(items, pullable, held, buildsOn);
    FirstIsLeast(items, Unfinished, Priority, (item: WorkItem) => build(item, 0).ready);
    FirstCarriesOver(Admitted(items), build, OrderOf(items, pullable, held, buildsOn));
    BeforeIsPrecedes(items);
  }

  lemma BeforeIsPrecedes(items: seq<WorkItem>)
    ensures |Keys(items, Priority)| == |items|
    ensures forall i: nat, j: nat | i < |items| && j < |items| ::
      Before(Keys(items, Priority), i, j) <==> Precedes(items, i, j)
  {
    var keys := Keys(items, Priority);
    forall i | 0 <= i < |items| ensures keys[i] == items[i].priority {
      assert keys[i] == Priority(items[i]);
    }
  }

  lemma FirstCarriesOver(admitted: seq<WorkItem>, build: (WorkItem, nat) -> Entry, entries: seq<Entry>)
    requires entries == Entries(admitted, build)
    requires forall item, i, j :: build(item, i).ready == build(item, j).ready
    ensures FirstThat(entries, (e: Entry) => e.ready) == FirstThat(admitted, (item: WorkItem) => build(item, 0).ready)
  {
    var wanted := (item: WorkItem) => build(item, 0).ready;
    assert forall k | 0 <= k < |entries| :: entries[k].ready == wanted(admitted[k]);
  }

  // ---- Why an entry is held, and how many wait for a person ----

  datatype HoldKind = ByConversation | ByParking | WaitingOnWork | ForAPerson | UnreadHold

  function KindOf(e: Entry): HoldKind {
    if !DeveloperRun(e.executor) then ByConversation
    else if Parked(e.parking) then ByParking
    else if e.awaiting != "" && e.awaitingLanding then WaitingOnWork
    else if e.awaiting != "" then ForAPerson
    else if e.waitingOn != [] then WaitingOnWork
    else UnreadHold
  }

  /** A ready entry waits for nobody, and a blocked one that nothing explains is one whose holds could not be read. */
  lemma EntryHolds(item: WorkItem, position: nat, pullable: set<string>, held: Holds, unfinished: set<string>,
                   buildsOn: BuildsOn)
    ensures var e := EntryOf(item, position, pullable, held, unfinished, buildsOn);
      && (e.ready ==> KindOf(e) != ForAPerson && e.awaiting == "" && !e.awaitingCarryOut && !e.awaitingLanding)
      && (!e.ready && KindOf(e) == UnreadHold && e.status == BLOCKED ==> !held.read)
      && (!e.ready && KindOf(e) == UnreadHold && e.status != BLOCKED ==> e.id !in pullable)
      && (e.awaitingCarryOut ==> !e.awaitingLanding && HoldOn(held, item.id).decided)
  {
    assert EntryOf(item, position, pullable, held, unfinished, buildsOn).awaitingLanding
        ==> SubstrateReason(held, item) != "" by {
      assert SubstrateReason(held, item)[0] == 'i';
    }
  }

  function CountKind(entries: seq<Entry>, kind: HoldKind): nat {
    if entries == [] then 0 else
      CountKind(entries[..|entries| - 1], kind) + if KindOf(entries[|entries| - 1]) == kind then 1 else 0
  }

  /** `Awaits`: whether a hold is what actually stops the entry, and whether its decision is only to be carried out. */
  predicate AwaitsWith(e: Entry, carryOut: bool) { KindOf(e) == ForAPerson && e.awaitingCarryOut == carryOut }

  function CountAwaiting(entries: seq<Entry>, carryOut: bool): nat {
    if entries == [] then 0 else
      CountAwaiting(entries[..|entries| - 1], carryOut) + if AwaitsWith(entries[|entries| - 1], carryOut) then 1 else 0
  }

  /** `AwaitingDecision` and `AwaitingCarryOut`. */
  method Awaiting(entries: seq<Entry>, carryOut: bool) returns (awaiting: nat)
    ensures awaiting == CountAwaiting(entries, carryOut)
  {
    awaiting := 0;
    for index := 0 to |entries|
      invariant awaiting == CountAwaiting(entries[..index], carryOut)
    {
      assert entries[..index + 1][..index] == entries[..index];
      if AwaitsWith(entries[index], carryOut) {
        awaiting := awaiting + 1;
      }
    }
    assert entries[..|entries|] == entries;
  }

  /** The two counts never overlap and together are every entry held for a person. */
  lemma {:induction false} AwaitingCountsAddUp(entries: seq<Entry>)
    ensures CountAwaiting(entries, false) + CountAwaiting(entries, true) == CountKind(entries, ForAPerson)
    decreases |entries|
  {
    if entries != [] {
      AwaitingCountsAddUp(entries[..|entries| - 1]);
    }
  }

  // ---- What makes an entry ready, and what it awaits, by what was read ----

  /** The first link on the parent whose status the tracker gave. */
  ghost predicate FirstEdge(dependencies: seq<Dependency>, parent: string, i: nat) {
    && i < |dependencies| && TrimSpace(dependencies[i].id) == parent && TrimSpace(dependencies[i].status) != ""
    && forall j | 0 <= j < i :: TrimSpace(dependencies[j].id) != parent || TrimSpace(dependencies[j].status) == ""
  }

  lemma {:induction false} EdgeStandsExactly(dependencies: seq<Dependency>, parent: string, from: nat)
    requires from <= |dependencies|
    requires forall j | 0 <= j < from ::
      TrimSpace(dependencies[j].id) != parent || TrimSpace(dependencies[j].status) == ""
    ensures EdgeStands(dependencies[from..], parent)
       <==> exists i: nat :: FirstEdge(dependencies, parent, i) && TrimSpace(dependencies[i].status) != "closed"
    decreases |dependencies| - from
  {
    if from < |dependencies| {
      var rest := dependencies[from..];
      assert rest[0] == dependencies[from] && rest[1..] == dependencies[from + 1..];
      if TrimSpace(rest[0].id) == parent && TrimSpace(rest[0].status) != "" {
        assert FirstEdge(dependencies, parent, from);
      } else {
        EdgeStandsExactly(dependencies, parent, from + 1);
      }
    }
  }

  /** A reason somebody still has to release the item. */
  predicate HeldHere(item: WorkItem, held: Holds) {
    item.id in held.held && TrimSpace(held.held[item.id].reason) != ""
  }

  /** Its parent's change has not landed, it says it builds on it, and the parent is unfinished or said not closed. */
  ghost predicate AwaitsParent(item: WorkItem, held: Holds, unfinished: set<string>, buildsOn: BuildsOn) {
    var parent := DecomposedFrom(item);
    && parent != "" && parent in held.unlanded && buildsOn(item, parent)
    && (parent in unfinished || exists i: nat ::
          FirstEdge(item.dependencies, parent, i) && TrimSpace(item.dependencies[i].status) != "closed")
  }

  /** A link that blocks, is not closed, and is on unfinished work or on work whose status was given. */
  predicate Blocks(d: Dependency, unfinished: set<string>) {
    d.kind == "blocks" && d.status != "closed" && (d.id in unfinished || d.status != "")
  }

  /** An entry is ready exactly when nobody holds it and its parent is not awaited, no executor and no parking is named,
      and either it is blocked and the holds were read and nothing blocks it, or it is not and was reported ready. */
  lemma ReadyExactly(item: WorkItem, position: nat, pullable: set<string>, held: Holds, unfinished: set<string>,
                     buildsOn: BuildsOn)
    ensures EntryOf(item, position, pullable, held, unfinished, buildsOn).ready <==>
      && !HeldHere(item, held) && !AwaitsParent(item, held, unfinished, buildsOn)
      && TrimSpace(item.executor) == "" && TrimSpace(item.parking) == ""
      && if item.status == "blocked" then
           held.read && forall i | 0 <= i < |item.dependencies| :: !Blocks(item.dependencies[i], unfinished)
         else item.id in pullable
  {
    assert item.dependencies[0..] == item.dependencies;
    EdgeStandsExactly(item.dependencies, DecomposedFrom(item), 0);
    WaitingOnMeans(item, unfinished);
    assert SubstrateReason(held, item)[0] == 'i';
    assert forall i | 0 <= i < |item.dependencies| ::
        HoldsBack(item.dependencies[i], unfinished) <==> Blocks(item.dependencies[i], unfinished);
  }

  /** And it awaits a person exactly when one holds it and no executor or parking is named: to decide, or where that was
      done to carry it out. */
  lemma AwaitsExactly(item: WorkItem, position: nat, pullable: set<string>, held: Holds, unfinished: set<string>,
                      buildsOn: BuildsOn, carryOut: bool)
    ensures AwaitsWith(EntryOf(item, position, pullable, held, unfinished, buildsOn), carryOut) <==>
      && HeldHere(item, held) && TrimSpace(item.executor) == "" && TrimSpace(item.parking) == ""
      && held.held[item.id].decided == carryOut
  {
  }
}
