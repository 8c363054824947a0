/** Whether every document traces back to the product brief: internal/artifact/references.go. */
module References {
  import opened Artifacts

  /** What identifies an artifact. The walk only ever compares identities, so nothing more is said of them. */
  type Id(==,!new)

  /** What the walk reads of an artifact: its identity, its kind, and what it names upstream. */
  datatype Node = Node(id: Id, kind: Kind, supports: seq<Id>)

  type Recorded = map<Id, Node>

  /** Every artifact is recorded under its own id. */
  ghost predicate Keyed(recorded: Recorded) {
    forall id | id in recorded :: recorded[id].id == id
  }

  /** A chain of resolving references leading upstream from `start`: each step is named by the one before it. */
  ghost predicate Chain(start: Node, recorded: Recorded, path: seq<Id>) {
    && path != [] && path[0] in start.supports
    && (forall i | 0 <= i < |path| :: path[i] in recorded && path[i] != start.id)
    && (forall i | 0 <= i < |path| - 1 :: path[i + 1] in recorded[path[i]].supports)
  }

  ghost predicate Upstream(start: Node, recorded: Recorded, id: Id) {
    exists path :: Chain(start, recorded, path) && path[|path| - 1] == id
  }

  ghost predicate TracesToBrief(start: Node, recorded: Recorded) {
    exists id :: Upstream(start, recorded, id) && recorded[id].kind == Brief
  }

  lemma UpstreamStep(start: Node, recorded: Recorded, from: Node, id: Id)
    requires Keyed(recorded)
    requires from == start || (Upstream(start, recorded, from.id) && recorded[from.id] == from)
    requires id in from.supports && id in recorded && id != start.id
    ensures Upstream(start, recorded, id)
  {
    if from == start {
      assert Chain(start, recorded, [id]);
    } else {
      var path :| Chain(start, recorded, path) && path[|path| - 1] == from.id;
      assert Chain(start, recorded, path + [id]);
      assert (path + [id])[|path + [id]| - 1] == id;
    }
  }

  /** All an artifact names upstream, but the start of the walk, has been visited. */
  ghost predicate Explored(a: Node, start: Node, recorded: Recorded, visited: set<Id>) {
    forall id | id in a.supports && id in recorded && id != start.id :: id in visited
  }

  /** What the walk has queued: the start itself, or a visited artifact as it is recorded. */
  ghost predicate Queued(a: Node, start: Node, recorded: Recorded, visited: set<Id>) {
    a == start || (a.id in visited && a.id != start.id && a.id in recorded && recorded[a.id] == a)
  }

  ghost predicate VisitedSoundly(start: Node, recorded: Recorded, visited: set<Id>) {
    && start.id in visited && visited <= recorded.Keys + {start.id}
    && forall id | id in visited && id != start.id :: Upstream(start, recorded, id) && recorded[id].kind != Brief
  }

  /** What one artifact's turn in the walk has made of what was visited and queued when it began. */
  ghost predicate Turn(start: Node, recorded: Recorded, had: set<Id>, rest: seq<Node>,
                       visited: set<Id>, pending: seq<Node>)
  {
    && VisitedSoundly(start, recorded, visited) && had <= visited
    && rest <= pending && (visited == had ==> pending == rest)
    && (forall a | a in pending :: Queued(a, start, recorded, visited))
    && (forall id | id in visited - had :: id in recorded && recorded[id] in pending)
  }

  lemma TurnQueues(start: Node, recorded: Recorded, had: set<Id>, rest: seq<Node>,
                   visited: set<Id>, pending: seq<Node>, id: Id)
    requires Keyed(recorded) && Turn(start, recorded, had, rest, visited, pending)
    requires id in recorded && id !in visited && Upstream(start, recorded, id) && recorded[id].kind != Brief
    ensures Turn(start, recorded, had, rest, visited + {id}, pending + [recorded[id]])
  {
    var now := pending + [recorded[id]];
    assert forall a | a in now :: a in pending || a == recorded[id];
    assert forall a | a in pending :: a in now;
    assert recorded[id] in now;
  }

  /** One artifact's turn in the walk: what it names that nothing has visited is queued, unless it is a brief. */
  method Visit(start: Node, recorded: Recorded, current: Node, had: set<Id>, rest: seq<Node>)
    returns (found: bool, visited: set<Id>, pending: seq<Node>)
    requires Keyed(recorded) && Turn(start, recorded, had, rest, had, rest)
    requires Queued(current, start, recorded, had)
    ensures found ==> TracesToBrief(start, recorded)
    ensures !found ==> Turn(start, recorded, had, rest, visited, pending) && Explored(current, start, recorded, visited)
  {
    visited, pending := had, rest;
    for index := 0 to |current.supports|
      invariant Turn(start, recorded, had, rest, visited, pending)
      invariant forall k | 0 <= k < index && current.supports[k] in recorded :: current.supports[k] in visited
    {
      var reference := current.supports[index];
      if reference in recorded && recorded[reference].id !in visited {
        UpstreamStep(start, recorded, current, reference);
        if recorded[reference].kind == Brief {
          return true, visited, pending;
        }
        TurnQueues(start, recorded, had, rest, visited, pending, reference);
        visited := visited + {recorded[reference].id};
        pending := pending + [recorded[reference]];
      }
    }
    return false, visited, pending;
  }

  /** Everything visited has been explored or is still queued. */
  ghost predicate Frontier(start: Node, recorded: Recorded, visited: set<Id>, pending: seq<Node>) {
    && VisitedSoundly(start, recorded, visited)
    && (forall a | a in pending :: Queued(a, start, recorded, visited))
    && (start in pending || Explored(start, start, recorded, visited))
    && (forall id | id in visited && id != start.id ::
          recorded[id] in pending || Explored(recorded[id], start, recorded, visited))
  }

  lemma TurnKeepsFrontier(start: Node, recorded: Recorded, had: set<Id>, was: seq<Node>, visited: set<Id>,
                          pending: seq<Node>)
    requires was != [] && Frontier(start, recorded, had, was)
    requires Turn(start, recorded, had, was[1..], visited, pending)
    requires Explored(was[0], start, recorded, visited)
    ensures Frontier(start, recorded, visited, pending)
  {
    assert was == [was[0]] + was[1..];
    assert forall a | a in was :: a == was[0] || a in pending;
  }

  lemma NothingQueued(start: Node, recorded: Recorded, visited: set<Id>)
    requires Frontier(start, recorded, visited, [])
    ensures !TracesToBrief(start, recorded)
  {
    forall id | Upstream(start, recorded, id) ensures recorded[id].kind != Brief {
      var path :| Chain(start, recorded, path) && path[|path| - 1] == id;
      ChainStaysVisited(start, recorded, visited, path, |path| - 1);
    }
  }

  /** The walk upstream: true exactly when some chain of resolving references arrives at a brief. */
  method ReachesTheBrief(start: Node, recorded: Recorded) returns (reaches: bool)
    requires Keyed(recorded)
    ensures reaches <==> TracesToBrief(start, recorded)
  {
    var visited := {start.id};
    var pending := [start];
    while pending != []
      invariant Frontier(start, recorded, visited, pending)
      decreases recorded.Keys - visited, |pending|
    {
      var current := pending[0];
      ghost var had, was := visited, pending;
      var found;
      found, visited, pending := Visit(start, recorded, current, visited, pending[1..]);
      if found {
        return true;
      }
      TurnKeepsFrontier(start, recorded, had, was, visited, pending);
    }
    NothingQueued(start, recorded, visited);
    return false;
  }

  lemma {:induction false} ChainStaysVisited(start: Node, recorded: Recorded, visited: set<Id>, path: seq<Id>, i: nat)
    requires Chain(start, recorded, path) && i < |path|
    requires Explored(start, start, recorded, visited)
    requires forall id | id in visited && id != start.id ::
        id in recorded && Explored(recorded[id], start, recorded, visited)
    ensures path[i] in visited
  {
    if i > 0 {
      ChainStaysVisited(start, recorded, visited, path, i - 1);
      assert path[i - 1 + 1] in recorded[path[i - 1]].supports;
    }
  }

  // ---- The whole set ----

  predicate MustTraceToTheBrief(kind: Kind) { kind != Brief && kind != Decision }

  /** A broken relationship, and the artifact it is written down in. The wording of the reason is not modelled. */
  datatype Problem = Dangling(id: Id, reference: Id) | Orphan(id: Id)

  function Table(artifacts: seq<Node>): (recorded: Recorded)
    ensures Keyed(recorded)
    ensures forall id :: id in recorded <==> exists i | 0 <= i < |artifacts| :: artifacts[i].id == id
    ensures forall id | id in recorded :: recorded[id] in artifacts
  {
    if artifacts == [] then map[] else
      var last := artifacts[|artifacts| - 1];
      Table(artifacts[..|artifacts| - 1])[last.id := last]
  }

  ghost predicate DistinctIds(artifacts: seq<Node>) {
    forall i, j | 0 <= i < j < |artifacts| :: artifacts[i].id != artifacts[j].id
  }

  /** The first occurrence of each reference that resolves to nothing. */
  function Unresolved(supports: seq<Id>, ids: set<Id>): (r: seq<Id>)
    ensures forall x :: x in r <==> x in supports && x !in ids
    ensures forall i, j | 0 <= i < j < |r| :: r[i] != r[j]
  {
    if supports == [] then [] else
      var before := Unresolved(supports[..|supports| - 1], ids);
      var last := supports[|supports| - 1];
      assert supports == supports[..|supports| - 1] + [last];
      if last in ids || last in before then before else before + [last]
  }

  function DanglingOf(id: Id, references: seq<Id>): seq<Problem> {
    if references == [] then [] else
      DanglingOf(id, references[..|references| - 1]) + [Dangling(id, references[|references| - 1])]
  }

  ghost predicate IsOrphan(a: Node, recorded: Recorded) {
    MustTraceToTheBrief(a.kind) && !TracesToBrief(a, recorded)
  }

  lemma Grows(supports: seq<Id>, index: nat, ids: set<Id>, id: Id)
    requires index < |supports|
    ensures var was, now := Unresolved(supports[..index], ids), Unresolved(supports[..index + 1], ids);
      if supports[index] in ids || supports[index] in was then now == was
      else
        now == was + [supports[index]]
        && DanglingOf(id, now) == DanglingOf(id, was) + [Dangling(id, supports[index])]
  {
    assert supports[..index + 1][..index] == supports[..index];
    var was := Unresolved(supports[..index], ids);
    assert (was + [supports[index]])[..|was|] == was;
  }

  ghost function ProblemsOf(a: Node, recorded: Recorded): seq<Problem> {
    DanglingOf(a.id, Unresolved(a.supports, recorded.Keys)) + if IsOrphan(a, recorded) then [Orphan(a.id)] else []
  }

  ghost function AllProblems(artifacts: seq<Node>, recorded: Recorded): seq<Problem> {
    if artifacts == [] then [] else
      AllProblems(artifacts[..|artifacts| - 1], recorded) + ProblemsOf(artifacts[|artifacts| - 1], recorded)
  }

  /** One artifact's unresolved references, each reported once. */
  method DanglingFrom(candidate: Node, ids: set<Id>) returns (dangling: seq<Problem>)
    ensures dangling == DanglingOf(candidate.id, Unresolved(candidate.supports, ids))
  {
    dangling := [];
    var reported: set<Id> := {};
    for index := 0 to |candidate.supports|
      invariant forall x :: x in reported <==> x in Unresolved(candidate.supports[..index], ids)
      invariant dangling == DanglingOf(candidate.id, Unresolved(candidate.supports[..index], ids))
    {
      var reference := candidate.supports[index];
      Grows(candidate.supports, index, ids, candidate.id);
      if !(reference in ids || reference in reported) {
        reported := reported + {reference};
        dangling := dangling + [Dangling(candidate.id, reference)];
      }
    }
    assert candidate.supports[..|candidate.supports|] == candidate.supports;
  }

  /** One artifact's problems, appended to those already found. */
  method ProblemsWith(candidate: Node, recorded: Recorded, found: seq<Problem>) returns (problems: seq<Problem>)
    requires Keyed(recorded)
    ensures problems == found + ProblemsOf(candidate, recorded)
  {
    var dangling := DanglingFrom(candidate, recorded.Keys);
    var reaches := true;
    if MustTraceToTheBrief(candidate.kind) {
      reaches := ReachesTheBrief(candidate, recorded);
    }
    problems := found + (dangling + if reaches then [] else [Orphan(candidate.id)]);
  }

  method ReferenceProblems(artifacts: seq<Node>) returns (problems: seq<Problem>)
    ensures problems == AllProblems(artifacts, Table(artifacts))
  {
    var recorded := map[];
    for index := 0 to |artifacts|
      invariant recorded == Table(artifacts[..index])
    {
      assert artifacts[..index + 1][..index] == artifacts[..index];
      recorded := recorded[artifacts[index].id := artifacts[index]];
    }
    assert artifacts[..|artifacts|] == artifacts;
    problems := [];
    for at := 0 to |artifacts|
      invariant problems == AllProblems(artifacts[..at], recorded)
    {
      assert artifacts[..at + 1][..at] == artifacts[..at];
      problems := ProblemsWith(artifacts[at], recorded, problems);
    }
  }

  // ---- What is reported, and how often ----

  function Count<T(==)>(s: seq<T>, x: T): nat {
    if s == [] then 0 else Count(s[..|s| - 1], x) + if s[|s| - 1] == x then 1 else 0
  }

  lemma {:induction false} CountConcat<T>(a: seq<T>, b: seq<T>, x: T)
    ensures Count(a + b, x) == Count(a, x) + Count(b, x)
    decreases |b|
  {
    if b == [] {
      assert a + b == a;
    } else {
      assert (a + b)[..|a + b| - 1] == a + b[..|b| - 1];
      CountConcat(a, b[..|b| - 1], x);
    }
  }

  lemma {:induction false} CountDistinct<T>(s: seq<T>, x: T)
    requires forall i, j | 0 <= i < j < |s| :: s[i] != s[j]
    ensures Count(s, x) == if x in s then 1 else 0
    decreases |s|
  {
    if s != [] {
      assert s == s[..|s| - 1] + [s[|s| - 1]];
      CountDistinct(s[..|s| - 1], x);
    }
  }

  lemma {:induction false} CountDangling(id: Id, references: seq<Id>, p: Problem)
    ensures Count(DanglingOf(id, references), p)
         == if p.Dangling? && p.id == id then Count(references, p.reference) else 0
    decreases |references|
  {
    if references != [] {
      var n := |references| - 1;
      CountDangling(id, references[..n], p);
      CountConcat(DanglingOf(id, references[..n]), [Dangling(id, references[n])], p);
      assert [Dangling(id, references[n])][..0] == [];
    }
  }

  lemma CountOwn(a: Node, recorded: Recorded, p: Problem)
    ensures Count(ProblemsOf(a, recorded), p)
         == if p.id != a.id then 0
            else if p.Dangling? then if p.reference in a.supports && p.reference !in recorded then 1 else 0
            else if IsOrphan(a, recorded) then 1 else 0
  {
    var unresolved := Unresolved(a.supports, recorded.Keys);
    var orphan := if IsOrphan(a, recorded) then [Orphan(a.id)] else [];
    CountConcat(DanglingOf(a.id, unresolved), orphan, p);
    CountDangling(a.id, unresolved, p);
    if p.Dangling? {
      CountDistinct(unresolved, p.reference);
    }
    CountDistinct(orphan, p);
  }

  lemma CountForeign(a: Node, recorded: Recorded, p: Problem)
    requires a.id != p.id
    ensures Count(ProblemsOf(a, recorded), p) == 0
  {
    CountOwn(a, recorded, p);
  }

  lemma CountLast(artifacts: seq<Node>, recorded: Recorded, p: Problem)
    requires artifacts != []
    ensures var n := |artifacts| - 1;
      Count(AllProblems(artifacts, recorded), p)
        == Count(AllProblems(artifacts[..n], recorded), p) + Count(ProblemsOf(artifacts[n], recorded), p)
  {
    var n := |artifacts| - 1;
    CountConcat(AllProblems(artifacts[..n], recorded), ProblemsOf(artifacts[n], recorded), p);
  }

  lemma {:induction false} CountAll(artifacts: seq<Node>, recorded: Recorded, k: nat, p: Problem)
    requires k < |artifacts|
    requires forall i | 0 <= i < |artifacts| && i != k :: artifacts[i].id != p.id
    ensures Count(AllProblems(artifacts, recorded), p) == Count(ProblemsOf(artifacts[k], recorded), p)
    decreases |artifacts|
  {
    var n := |artifacts| - 1;
    CountLast(artifacts, recorded, p);
    if k < n {
      CountForeign(artifacts[n], recorded, p);
      assert artifacts[..n][k] == artifacts[k];
      CountAll(artifacts[..n], recorded, k, p);
    } else {
      assert artifacts[k] == artifacts[n];
      CountNone(artifacts[..n], recorded, p);
    }
  }

  lemma {:induction false} CountNone(artifacts: seq<Node>, recorded: Recorded, p: Problem)
    requires forall i | 0 <= i < |artifacts| :: artifacts[i].id != p.id
    ensures Count(AllProblems(artifacts, recorded), p) == 0
    decreases |artifacts|
  {
    if artifacts != [] {
      CountLast(artifacts, recorded, p);
      CountForeign(artifacts[|artifacts| - 1], recorded, p);
      CountNone(artifacts[..|artifacts| - 1], recorded, p);
    }
  }

  /** Over a set with distinct ids, each broken relationship is reported once and nothing else is reported; a brief and
      a decision need lead to no brief. */
  lemma ReportedExactlyOnce(artifacts: seq<Node>, k: nat, reference: Id)
    requires DistinctIds(artifacts) && k < |artifacts|
    ensures var a, recorded := artifacts[k], Table(artifacts);
      var problems := AllProblems(artifacts, recorded);
      && Count(problems, Dangling(a.id, reference))
        == (if reference in a.supports && reference !in recorded then 1 else 0)
      && Count(problems, Orphan(a.id))
        == (if a.kind != Brief && a.kind != Decision && !TracesToBrief(a, recorded) then 1 else 0)
  {
    var a, recorded := artifacts[k], Table(artifacts);
    CountAll(artifacts, recorded, k, Dangling(a.id, reference));
    CountAll(artifacts, recorded, k, Orphan(a.id));
    CountOwn(a, recorded, Dangling(a.id, reference));
    CountOwn(a, recorded, Orphan(a.id));
  }

  lemma {:induction false} TableOf(artifacts: seq<Node>, i: nat)
    requires DistinctIds(artifacts) && i < |artifacts|
    ensures artifacts[i].id in Table(artifacts) && Table(artifacts)[artifacts[i].id] == artifacts[i]
    decreases |artifacts|
  {
    var n := |artifacts| - 1;
    if i < n {
      TableOf(artifacts[..n], i);
    }
  }

  /** The set as loaded again after one document was recorded under an id nothing in it had. */
  ghost predicate Adds(artifacts: seq<Node>, after: seq<Node>, added: Node) {
    && DistinctIds(artifacts) && DistinctIds(after) && added in after && added !in artifacts
    && (forall i | 0 <= i < |artifacts| :: artifacts[i] in after)
    && (forall i | 0 <= i < |after| :: after[i] == added || after[i] in artifacts)
  }

  lemma AddsToTable(artifacts: seq<Node>, after: seq<Node>, added: Node, id: Id)
    requires Adds(artifacts, after, added)
    ensures added.id !in Table(artifacts)
    ensures id in Table(after) <==> id == added.id || id in Table(artifacts)
    ensures id in Table(artifacts) ==> Table(after)[id] == Table(artifacts)[id]
  {
    var k :| 0 <= k < |after| && after[k] == added;
    assert added.id !in Table(artifacts) by {
      forall i | 0 <= i < |artifacts| ensures artifacts[i].id != added.id {
        var j :| 0 <= j < |after| && after[j] == artifacts[i];
      }
    }
    if id in Table(artifacts) {
      var i :| 0 <= i < |artifacts| && artifacts[i].id == id;
      var j :| 0 <= j < |after| && after[j] == artifacts[i];
      TableOf(artifacts, i);
      TableOf(after, j);
    }
    if id in Table(after) {
      var j :| 0 <= j < |after| && after[j].id == id;
      if after[j] != added {
        var i :| 0 <= i < |artifacts| && artifacts[i] == after[j];
      }
    }
  }

  /** Recording a freshly named artifact makes no recorded artifact an orphan and leaves none newly dangling. */
  lemma AddedArtifactBreaksNothing(artifacts: seq<Node>, after: seq<Node>, added: Node, a: Node, p: Problem)
    requires Adds(artifacts, after, added) && a in artifacts && p.id == a.id
    ensures Count(AllProblems(after, Table(after)), p) <= Count(AllProblems(artifacts, Table(artifacts)), p)
  {
    var was, now := Table(artifacts), Table(after);
    var i :| 0 <= i < |artifacts| && artifacts[i] == a;
    var j :| 0 <= j < |after| && after[j] == a;
    CountAll(artifacts, was, i, p);
    CountAll(after, now, j, p);
    CountOwn(a, was, p);
    CountOwn(a, now, p);
    forall id ensures added.id !in was && (id in now <==> id == added.id || id in was)
      && (id in was ==> now[id] == was[id])
    {
      AddsToTable(artifacts, after, added, id);
    }
    if TracesToBrief(a, was) {
      var id :| Upstream(a, was, id) && was[id].kind == Brief;
      var path :| Chain(a, was, path) && path[|path| - 1] == id;
      assert Chain(a, now, path);
      assert Upstream(a, now, id);
    }
  }
}
