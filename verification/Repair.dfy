/** Stale backlog state, surveyed and judged: internal/backlogrepair/backlogrepair.go. */
module Repair {
  import opened Text
  import opened WorkItems
  import opened Backlog

  datatype Class = StatusClass | DependencyClass | AttributionClass | OtherClass(name: string)

  const CLASSES := [StatusClass, DependencyClass, AttributionClass]

  /** What a judgement is made against. `pauses` is a directive in force on an item, and `divergent` the goals' answer
      about an item's attribution; neither is modelled further. */
  datatype Records = Records(
    admitted: seq<WorkItem>, held: Holds, pauses: string -> bool, divergent: WorkItem -> bool, finished: set<string>)

  datatype Repair = Repair(workItemId: string, title: string, class_: Class, dependsOn: string)

  datatype Report = Report(repairs: seq<Repair>, holds: seq<Repair>)

  datatype Refusal = UnknownClass | HeldForAPerson | NothingStale | NoSuchLink

  datatype Verdict = Accepted(repair: Repair) | Refused(refusal: Refusal)

  predicate HeldFor(id: string, records: Records) {
    !records.held.read || HoldOn(records.held, id).reason != "" || records.pauses(id)
  }

  predicate ReadsBlocked(item: WorkItem) { TrimSpace(item.status) == BLOCKED }

  /** A blocking link nothing read here calls finished. */
  predicate Unsettled(d: Dependency, finished: set<string>) {
    d.kind == BLOCKS && TrimSpace(d.id) != "" && d.status != CLOSED && TrimSpace(d.id) !in finished
  }

  /** A blocking link on work the tracker says is finished. */
  predicate Dead(d: Dependency, finished: set<string>) {
    d.kind == BLOCKS && TrimSpace(d.id) != "" && (d.status == CLOSED || TrimSpace(d.id) in finished)
  }

  predicate StaleStatus(item: WorkItem, records: Records) {
    && ReadsBlocked(item) && WaitingOn(item, Ids(records.admitted)) == []
    && forall i | 0 <= i < |item.dependencies| :: !Unsettled(item.dependencies[i], records.finished)
  }

  /** The dead links of an item, one repair each, in the order it records them rather than sorted for a reader. */
  function DeadLinks(item: WorkItem, dependencies: seq<Dependency>, finished: set<string>): seq<Repair> {
    if dependencies == [] then [] else
      var rest := DeadLinks(item, dependencies[1..], finished);
      if Dead(dependencies[0], finished) then
        [Repair(item.id, item.title, DependencyClass, TrimSpace(dependencies[0].id))] + rest
      else rest
  }

  function Judgements(item: WorkItem, class_: Class, records: Records): seq<Repair> {
    match class_
    case StatusClass => if StaleStatus(item, records) then [Repair(item.id, item.title, StatusClass, "")] else []
    case DependencyClass => DeadLinks(item, item.dependencies, records.finished)
    case AttributionClass => if records.divergent(item) then [Repair(item.id, item.title, AttributionClass, "")] else []
    case OtherClass(_) => []
  }

  function AllJudgements(item: WorkItem, records: Records): seq<Repair> {
    Judgements(item, StatusClass, records) + Judgements(item, DependencyClass, records)
      + Judgements(item, AttributionClass, records)
  }

  /** The judgements of a list of items, told apart by whether somebody still has to release the item. */
  function Surveyed(admitted: seq<WorkItem>, held: WorkItem -> bool, offers: WorkItem -> seq<Repair>): Report {
    if admitted == [] then Report([], []) else
      var earlier := Surveyed(admitted[..|admitted| - 1], held, offers);
      var item := admitted[|admitted| - 1];
      if held(item) then earlier.(holds := earlier.holds + offers(item))
      else earlier.(repairs := earlier.repairs + offers(item))
  }

  function SurveyOf(records: Records): Report {
    Surveyed(records.admitted, (item: WorkItem) => HeldFor(item.id, records),
      (item: WorkItem) => AllJudgements(item, records))
  }

  method Survey(records: Records) returns (report: Report)
    ensures report == SurveyOf(records)
  {
    ghost var held := (item: WorkItem) => HeldFor(item.id, records);
    ghost var offers := (item: WorkItem) => AllJudgements(item, records);
    var repairs: seq<Repair>, holds: seq<Repair> := [], [];
    for at := 0 to |records.admitted|
      invariant Report(repairs, holds) == Surveyed(records.admitted[..at], held, offers)
    {
      var item := records.admitted[at];
      assert records.admitted[..at + 1][..at] == records.admitted[..at];
      var found := Offered(item, records);
      if HeldFor(item.id, records) {
        holds := holds + found;
      } else {
        repairs := repairs + found;
      }
    }
    assert records.admitted[..|records.admitted|] == records.admitted;
    report := Report(repairs, holds);
  }

  method Offered(item: WorkItem, records: Records) returns (found: seq<Repair>)
    ensures found == AllJudgements(item, records)
  {
    found := [];
    for c := 0 to |CLASSES|
      invariant found == FirstJudgements(item, c, records)
    {
      found := found + Judgements(item, CLASSES[c], records);
    }
    AllAreFirst(item, records);
  }

  /** What is judged of an item for the first so many classes. */
  function FirstJudgements(item: WorkItem, c: nat, records: Records): seq<Repair>
    requires c <= |CLASSES|
  {
    if c == 0 then [] else FirstJudgements(item, c - 1, records) + Judgements(item, CLASSES[c - 1], records)
  }

  lemma AllAreFirst(item: WorkItem, records: Records)
    ensures FirstJudgements(item, |CLASSES|, records) == AllJudgements(item, records)
  {
    var none, one, two :=
      FirstJudgements(item, 0, records), FirstJudgements(item, 1, records), FirstJudgements(item, 2, records);
    assert CLASSES[0] == StatusClass && CLASSES[1] == DependencyClass && CLASSES[2] == AttributionClass;
    assert one == none + Judgements(item, StatusClass, records) == Judgements(item, StatusClass, records);
    assert two == one + Judgements(item, DependencyClass, records);
    assert FirstJudgements(item, 3, records) == two + Judgements(item, AttributionClass, records);
  }

  function Named(found: seq<Repair>, link: string): Option<Repair> {
    if found == [] then None else if found[0].dependsOn == link then Some(found[0]) else Named(found[1..], link)
  }

  function Judge(item: WorkItem, class_: Class, dependsOn: string, records: Records): Verdict {
    var found := Judgements(item, class_, records);
    if class_.OtherClass? then Refused(UnknownClass)
    else if HeldFor(item.id, records) then Refused(HeldForAPerson)
    else if found == [] then Refused(NothingStale)
    else if class_ != DependencyClass then Accepted(found[0])
    else match Named(found, TrimSpace(dependsOn))
      case None => Refused(NoSuchLink)
      case Some(repair) => Accepted(repair)
  }

  // ---- Judge and survey agree ----

  lemma {:induction false} DeadLinksMeans(item: WorkItem, dependencies: seq<Dependency>, finished: set<string>,
                                          r: Repair)
    ensures r in DeadLinks(item, dependencies, finished)
       <==> exists i | 0 <= i < |dependencies| :: Dead(dependencies[i], finished) && IsLink(item, dependencies[i], r)
    decreases |dependencies|
  {
    if dependencies != [] {
      DeadLinksMeans(item, dependencies[1..], finished, r);
      assert forall i | 0 < i < |dependencies| :: dependencies[i] == dependencies[1..][i - 1];
    }
  }

  ghost predicate IsLink(item: WorkItem, d: Dependency, r: Repair) {
    r == Repair(item.id, item.title, DependencyClass, TrimSpace(d.id))
  }

  lemma {:induction false} NamedFinds(found: seq<Repair>, link: string)
    ensures match Named(found, link)
      case None => forall i | 0 <= i < |found| :: found[i].dependsOn != link
      case Some(r) => r in found && r.dependsOn == link
    decreases |found|
  {
    if found != [] {
      NamedFinds(found[1..], link);
      assert forall i | 0 < i < |found| :: found[i] == found[1..][i - 1];
    }
  }

  /** A judgement accepted for an item is one the item offers, of the class asked about. */
  lemma JudgedIsOffered(item: WorkItem, class_: Class, dependsOn: string, records: Records)
    requires Judge(item, class_, dependsOn, records).Accepted?
    ensures var r := Judge(item, class_, dependsOn, records).repair;
      && !HeldFor(item.id, records) && r in AllJudgements(item, records) && r.class_ == class_
        && r.workItemId == item.id
      && r.dependsOn == if class_ == DependencyClass then TrimSpace(dependsOn) else ""
  {
    var r := Judge(item, class_, dependsOn, records).repair;
    var found := Judgements(item, class_, records);
    if class_ == DependencyClass {
      NamedFinds(found, TrimSpace(dependsOn));
      DeadLinksMeans(item, item.dependencies, records.finished, r);
    }
    assert r in found;
  }

  lemma OfferedLinkIsJudged(item: WorkItem, records: Records, r: Repair)
    requires r in Judgements(item, DependencyClass, records)
    ensures r.class_ == DependencyClass
        && Named(Judgements(item, DependencyClass, records), TrimSpace(r.dependsOn)) == Some(r)
  {
    var found := Judgements(item, DependencyClass, records);
    DeadLinksMeans(item, item.dependencies, records.finished, r);
    var i :| 0 <= i < |item.dependencies| && IsLink(item, item.dependencies[i], r);
    var link := TrimSpace(item.dependencies[i].id);
    assert IsLink(item, item.dependencies[i], r);
    assert r.dependsOn == link;
    TrimTwice(item.dependencies[i].id);
    NamedFinds(found, link);
    var k :| 0 <= k < |found| && found[k] == r;
    DeadLinksMeans(item, item.dependencies, records.finished, Named(found, link).value);
  }

  /** And every judgement an item offers is accepted when asked for. */
  lemma OfferedIsJudged(item: WorkItem, records: Records, r: Repair)
    requires r in AllJudgements(item, records) && !HeldFor(item.id, records)
    ensures Judge(item, r.class_, r.dependsOn, records) == Accepted(r)
  {
    if r in Judgements(item, DependencyClass, records) {
      OfferedLinkIsJudged(item, records, r);
    }
  }

  lemma {:induction false} SurveyedMeans(admitted: seq<WorkItem>, held: WorkItem -> bool,
                                         offers: WorkItem -> seq<Repair>, r: Repair)
    ensures r in Surveyed(admitted, held, offers).repairs
       <==> exists i | 0 <= i < |admitted| :: !held(admitted[i]) && r in offers(admitted[i])
    ensures r in Surveyed(admitted, held, offers).holds
       <==> exists i | 0 <= i < |admitted| :: held(admitted[i]) && r in offers(admitted[i])
    decreases |admitted|
  {
    if admitted != [] {
      var n := |admitted| - 1;
      SurveyedMeans(admitted[..n], held, offers, r);
      assert forall i | 0 <= i < n :: admitted[..n][i] == admitted[i];
    }
  }

  lemma SurveyMeans(records: Records, r: Repair)
    ensures r in SurveyOf(records).repairs
       <==> exists i | 0 <= i < |records.admitted| ::
              !HeldFor(records.admitted[i].id, records) && r in AllJudgements(records.admitted[i], records)
    ensures r in SurveyOf(records).holds
       <==> exists i | 0 <= i < |records.admitted| ::
              HeldFor(records.admitted[i].id, records) && r in AllJudgements(records.admitted[i], records)
  {
    SurveyedMeans(records.admitted, (item: WorkItem) => HeldFor(item.id, records),
                  (item: WorkItem) => AllJudgements(item, records), r);
  }

  /** A survey offers a repair exactly when judging some admitted item for it, over the same records, accepts it. */
  lemma SurveyAndJudgeAgree(records: Records, r: Repair)
    ensures r in SurveyOf(records).repairs
       <==> exists i | 0 <= i < |records.admitted| ::
         Judge(records.admitted[i], r.class_, r.dependsOn, records) == Accepted(r)
  {
    var admitted := records.admitted;
    SurveyMeans(records, r);
    if r in SurveyOf(records).repairs {
      var i :| 0 <= i < |admitted| && !HeldFor(admitted[i].id, records) && r in AllJudgements(admitted[i], records);
      OfferedIsJudged(admitted[i], records, r);
    }
    if exists i | 0 <= i < |admitted| :: Judge(admitted[i], r.class_, r.dependsOn, records) == Accepted(r) {
      var i :| 0 <= i < |admitted| && Judge(admitted[i], r.class_, r.dependsOn, records) == Accepted(r);
      JudgedIsOffered(admitted[i], r.class_, r.dependsOn, records);
    }
  }

  lemma JudgementNamesItem(item: WorkItem, records: Records, r: Repair)
    requires r in AllJudgements(item, records)
    ensures r.workItemId == item.id
  {
    if r in Judgements(item, DependencyClass, records) {
      DeadLinksMeans(item, item.dependencies, records.finished, r);
    }
  }

  /** No item is both held and repaired. */
  lemma NeverHeldAndRepaired(records: Records, repaired: Repair, held: Repair)
    requires repaired in SurveyOf(records).repairs
    requires held in SurveyOf(records).holds
    ensures repaired.workItemId != held.workItemId
  {
    var admitted := records.admitted;
    SurveyMeans(records, repaired);
    SurveyMeans(records, held);
    var i :| 0 <= i < |admitted| && !HeldFor(admitted[i].id, records)
      && repaired in AllJudgements(admitted[i], records);
    var j :| 0 <= j < |admitted| && HeldFor(admitted[j].id, records) && held in AllJudgements(admitted[j], records);
    JudgementNamesItem(admitted[i], records, repaired);
    JudgementNamesItem(admitted[j], records, held);
  }

  // ---- What a status repair rests on ----

  /** What the listing and the caller call finished really is closed. */
  ghost predicate Truthful(item: WorkItem, records: Records, closed: string -> bool) {
    && (forall i | 0 <= i < |item.dependencies| && item.dependencies[i].status == CLOSED ::
      closed(TrimSpace(item.dependencies[i].id)))
    && (forall id | id in records.finished :: closed(id))
  }

  /** A status is corrected only where every blocker the item names is closed, if what was read is true. */
  lemma StatusRepairMeansBlockersClosed(item: WorkItem, link: string, records: Records, closed: string -> bool, i: nat)
    requires Judge(item, StatusClass, link, records).Accepted? && Truthful(item, records, closed)
    requires i < |item.dependencies| && item.dependencies[i].kind == BLOCKS && TrimSpace(item.dependencies[i].id) != ""
    ensures closed(TrimSpace(item.dependencies[i].id))
  {
    assert !Unsettled(item.dependencies[i], records.finished);
  }

  lemma FewerUnfinishedWaitLess(item: WorkItem, some: set<string>, all: set<string>)
    requires some <= all && WaitingOn(item, all) == []
    ensures WaitingOn(item, some) == []
  {
    assert forall i | 0 <= i < |item.dependencies| :: !HoldsBack(item.dependencies[i], all);
  }

  /** The queue calls a repaired item startable, over any unfinished work the survey read, whatever the tracker's
      ready list says, exactly when its status is `blocked` to the letter: the repair trims a status and the queue
      does not. */
  lemma StatusRepairStartable(item: WorkItem, link: string, records: Records, unfinished: set<string>)
    requires Judge(item, StatusClass, link, records).Accepted? && unfinished <= Ids(records.admitted)
    ensures (forall ready: bool :: Startable(item, ready, WaitingOn(item, unfinished), records.held))
        <==> item.status == BLOCKED
  {
    FewerUnfinishedWaitLess(item, unfinished, Ids(records.admitted));
    if item.status != BLOCKED {
      assert !Startable(item, false, WaitingOn(item, unfinished), records.held);
    }
  }

  // ---- What is offered, by what was read ----

  /** Somebody still has to release the item: the holds could not be read, or one is on it, or a directive is. */
  predicate SomebodyHolds(id: string, records: Records) {
    || !records.held.read || records.pauses(id)
    || (id in records.held.held && TrimSpace(records.held.held[id].reason) != "")
  }

  /** A link that blocks and names work. */
  predicate BlockingLink(d: Dependency) { d.kind == "blocks" && TrimSpace(d.id) != "" }

  /** It is said to be finished, by the link itself or by the tracker. */
  predicate SaidFinished(d: Dependency, finished: set<string>) { d.status == "closed" || TrimSpace(d.id) in finished }

  /** The item reads as blocked, nothing among the admitted work blocks it, and all it names is said to be finished. */
  ghost predicate StatusIsStale(item: WorkItem, records: Records) {
    && TrimSpace(item.status) == "blocked"
    && (forall i | 0 <= i < |item.dependencies| :: !Blocks(item.dependencies[i], Ids(records.admitted)))
    && (forall i | 0 <= i < |item.dependencies| && BlockingLink(item.dependencies[i]) ::
          SaidFinished(item.dependencies[i], records.finished))
  }

  ghost predicate Stale(item: WorkItem, records: Records, r: Repair) {
    && r.workItemId == item.id && r.title == item.title
    && match r.class_
       case StatusClass => r.dependsOn == "" && StatusIsStale(item, records)
       case DependencyClass => exists i | 0 <= i < |item.dependencies| ::
         && BlockingLink(item.dependencies[i]) && SaidFinished(item.dependencies[i], records.finished)
         && r.dependsOn == TrimSpace(item.dependencies[i].id)
       case AttributionClass => r.dependsOn == "" && records.divergent(item)
       case OtherClass(_) => false
  }

  lemma StatusStaleExactly(item: WorkItem, records: Records)
    ensures StaleStatus(item, records) <==> StatusIsStale(item, records)
  {
    WaitingOnMeans(item, Ids(records.admitted));
    forall i | 0 <= i < |item.dependencies|
      ensures HoldsBack(item.dependencies[i], Ids(records.admitted))
         <==> Blocks(item.dependencies[i], Ids(records.admitted))
      ensures Unsettled(item.dependencies[i], records.finished)
         <==> BlockingLink(item.dependencies[i]) && !SaidFinished(item.dependencies[i], records.finished)
    {
    }
  }

  lemma JudgementsExactly(item: WorkItem, records: Records, r: Repair)
    ensures r in AllJudgements(item, records) <==> Stale(item, records, r)
  {
    StatusStaleExactly(item, records);
    DeadLinksMeans(item, item.dependencies, records.finished, r);
    forall i | 0 <= i < |item.dependencies|
      ensures Dead(item.dependencies[i], records.finished)
         <==> BlockingLink(item.dependencies[i]) && SaidFinished(item.dependencies[i], records.finished)
    {
    }
  }

  /** A survey repairs exactly what is stale about the items nobody holds, and tells exactly what is stale about the
      others. */
  lemma SurveyExactly(records: Records, r: Repair)
    ensures r in SurveyOf(records).repairs
       <==> exists i | 0 <= i < |records.admitted| ::
              !SomebodyHolds(records.admitted[i].id, records) && Stale(records.admitted[i], records, r)
    ensures r in SurveyOf(records).holds
       <==> exists i | 0 <= i < |records.admitted| ::
              SomebodyHolds(records.admitted[i].id, records) && Stale(records.admitted[i], records, r)
  {
    SurveyMeans(records, r);
    forall i | 0 <= i < |records.admitted|
      ensures HeldFor(records.admitted[i].id, records) <==> SomebodyHolds(records.admitted[i].id, records)
      ensures r in AllJudgements(records.admitted[i], records) <==> Stale(records.admitted[i], records, r)
    {
      JudgementsExactly(records.admitted[i], records, r);
    }
  }
}
