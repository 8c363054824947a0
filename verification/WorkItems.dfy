/** The tracker's work items as the harness reads them: internal/beads/client.go. */
module WorkItems {
  import opened Text

  datatype Dependency = Dependency(issueId: string, id: string, kind: string, status: string)

  datatype WorkItem = WorkItem(
    id: string, title: string, status: string, priority: int, executor: string, parking: string, landing: string,
    parent: string, dependencies: seq<Dependency>)

  const OPEN := "open"
  const BLOCKED := "blocked"
  const CLOSED := "closed"
  const BLOCKS := "blocks"
  const PARENT_CHILD := "parent-child"

  predicate Unfinished(item: WorkItem) { item.status == OPEN || item.status == BLOCKED }

  /** An edge that holds an item back, given the work that is still unfinished. */
  predicate HoldsBack(d: Dependency, unfinished: set<string>) {
    d.kind == BLOCKS && d.status != CLOSED && (d.id in unfinished || d.status != "")
  }

  function Waiting(dependencies: seq<Dependency>, unfinished: set<string>): (ids: seq<string>)
    ensures ids == [] <==> forall i | 0 <= i < |dependencies| :: !HoldsBack(dependencies[i], unfinished)
  {
    if dependencies == [] then [] else
      var last := dependencies[|dependencies| - 1];
      var earlier := Waiting(dependencies[..|dependencies| - 1], unfinished);
      if HoldsBack(last, unfinished) then earlier + [last.id] else earlier
  }

  /** `sort.Strings`: in order, character by character. */
  predicate Precedes(a: string, b: string) {
    a == "" || (b != "" && (a[0] < b[0] || (a[0] == b[0] && Precedes(a[1..], b[1..]))))
  }

  function Placed(sorted: seq<string>, s: string): seq<string> {
    if sorted == [] || Precedes(sorted[|sorted| - 1], s) then sorted + [s]
    else Placed(sorted[..|sorted| - 1], s) + [sorted[|sorted| - 1]]
  }

  function SortedStrings(strings: seq<string>): seq<string> {
    if strings == [] then [] else Placed(SortedStrings(strings[..|strings| - 1]), strings[|strings| - 1])
  }

  ghost predicate Ascending(strings: seq<string>) {
    forall i, j | 0 <= i <= j < |strings| :: Precedes(strings[i], strings[j])
  }

  lemma {:induction false} PrecedesOrders(a: string, b: string, c: string)
    ensures Precedes(a, a) && (Precedes(a, b) || Precedes(b, a))
    ensures Precedes(a, b) && Precedes(b, c) ==> Precedes(a, c)
    decreases |a|
  {
    if a != "" {
      PrecedesOrders(a[1..], if b == "" then "" else b[1..], if c == "" then "" else c[1..]);
    }
  }

  /** One comes before another where it begins it, or where the first character they differ in is lower. */
  lemma {:induction false} PrecedesExactly(a: string, b: string)
    ensures Precedes(a, b) <==> exists k: nat :: PrecedesAt(a, b, k)
    decreases |a|
  {
    if Precedes(a, b) && (a == "" || a[0] != b[0]) {
      assert PrecedesAt(a, b, 0);
    } else if a != "" && b != "" && a[0] == b[0] {
      PrecedesExactly(a[1..], b[1..]);
      if k: nat :| PrecedesAt(a[1..], b[1..], k) {
        assert a[..k + 1] == [a[0]] + a[1..][..k] && b[..k + 1] == [b[0]] + b[1..][..k];
        assert PrecedesAt(a, b, k + 1);
      }
      if k: nat :| PrecedesAt(a, b, k) {
        assert k > 0;
        assert a[1..][..k - 1] == a[..k][1..] && b[1..][..k - 1] == b[..k][1..];
        assert PrecedesAt(a[1..], b[1..], k - 1);
      }
    }
  }

  predicate PrecedesAt(a: string, b: string, k: nat) {
    && k <= |a| && k <= |b| && a[..k] == b[..k] && (k == |a| || (k < |b| && a[k] < b[k]))
  }

  lemma {:induction false} PlacedHolds(sorted: seq<string>, s: string)
    ensures multiset(Placed(sorted, s)) == multiset(sorted) + multiset{s}
    decreases |sorted|
  {
    if sorted != [] {
      var before, last := sorted[..|sorted| - 1], sorted[|sorted| - 1];
      assert sorted == before + [last];
      PlacedHolds(before, s);
    }
  }

  ghost predicate Below(strings: seq<string>, top: string) {
    forall i | 0 <= i < |strings| :: Precedes(strings[i], top)
  }

  lemma AscendingOnward(strings: seq<string>, top: string)
    requires Ascending(strings) && Below(strings, top)
    ensures Ascending(strings + [top])
  {
    PrecedesOrders(top, top, top);
  }

  lemma BelowOnward(strings: seq<string>, last: string, top: string)
    requires Below(strings, last) && Precedes(last, top)
    ensures Below(strings, top)
  {
    forall i | 0 <= i < |strings| ensures Precedes(strings[i], top) {
      PrecedesOrders(strings[i], last, top);
    }
  }

  lemma {:induction false} PlacedBelow(sorted: seq<string>, s: string, top: string)
    requires Below(sorted, top) && Precedes(s, top)
    ensures Below(Placed(sorted, s), top)
    decreases |sorted|
  {
    if sorted != [] && !Precedes(sorted[|sorted| - 1], s) {
      PlacedBelow(sorted[..|sorted| - 1], s, top);
    }
  }

  lemma {:induction false} PlacedInOrder(sorted: seq<string>, s: string)
    requires Ascending(sorted)
    ensures Ascending(Placed(sorted, s))
    decreases |sorted|
  {
    if sorted == [] {
      PrecedesOrders(s, s, s);
    } else {
      var before, last := sorted[..|sorted| - 1], sorted[|sorted| - 1];
      assert Below(before, last);
      PrecedesOrders(s, last, s);
      if Precedes(last, s) {
        BelowOnward(sorted, last, s);
        AscendingOnward(sorted, s);
      } else {
        PlacedInOrder(before, s);
        PlacedBelow(before, s, last);
        AscendingOnward(Placed(before, s), last);
      }
    }
  }

  lemma {:induction false} SortedStringsOrders(strings: seq<string>)
    ensures Ascending(SortedStrings(strings)) && multiset(SortedStrings(strings)) == multiset(strings)
    decreases |strings|
  {
    if strings != [] {
      var before, last := strings[..|strings| - 1], strings[|strings| - 1];
      SortedStringsOrders(before);
      PlacedInOrder(SortedStrings(before), last);
      PlacedHolds(SortedStrings(before), last);
      assert strings == before + [last];
    }
  }

  /** `WorkItem.WaitingOn`. */
  function WaitingOn(item: WorkItem, unfinished: set<string>): seq<string> {
    SortedStrings(Waiting(item.dependencies, unfinished))
  }

  /** What an item waits on is in order and is each edge that holds it back, once, and so is nothing exactly where no
      edge does. */
  lemma WaitingOnMeans(item: WorkItem, unfinished: set<string>)
    ensures Ascending(WaitingOn(item, unfinished))
    ensures multiset(WaitingOn(item, unfinished)) == multiset(Waiting(item.dependencies, unfinished))
    ensures WaitingOn(item, unfinished) == []
       <==> forall i | 0 <= i < |item.dependencies| :: !HoldsBack(item.dependencies[i], unfinished)
  {
    var ids, sorted := Waiting(item.dependencies, unfinished), WaitingOn(item, unfinished);
    SortedStringsOrders(ids);
    assert |sorted| == |multiset(sorted)| == |multiset(ids)| == |ids|;
  }

  method ReadWaitingOn(item: WorkItem, unfinished: set<string>) returns (waiting: seq<string>)
    ensures waiting == WaitingOn(item, unfinished)
  {
    waiting := [];
    for index := 0 to |item.dependencies|
      invariant waiting == Waiting(item.dependencies[..index], unfinished)
    {
      var dependency := item.dependencies[index];
      assert item.dependencies[..index + 1][..index] == item.dependencies[..index];
      if dependency.kind != BLOCKS || dependency.status == CLOSED {
        continue;
      }
      if dependency.id in unfinished || dependency.status != "" {
        waiting := waiting + [dependency.id];
      }
    }
    assert item.dependencies[..|item.dependencies|] == item.dependencies;
    waiting := SortedStrings(waiting);
  }

  function LowerAscii(s: string): string {
    seq(|s|, i requires 0 <= i < |s| => if 'A' <= s[i] <= 'Z' then s[i] - 'A' + 'a' else s[i])
  }

  function ParentEdge(id: string, dependencies: seq<Dependency>): string {
    if dependencies == [] then "" else
      var d := dependencies[0];
      var issue, parent := TrimSpace(d.issueId), TrimSpace(d.id);
      if LowerAscii(TrimSpace(d.kind)) == PARENT_CHILD && (issue == "" || issue == id) && parent != ""
        && parent != id then parent
      else ParentEdge(id, dependencies[1..])
  }

  /** The item this one was broken out of: its parent field, or else its first parent-child edge. */
  function DecomposedFrom(item: WorkItem): string {
    if TrimSpace(item.parent) != "" then TrimSpace(item.parent) else ParentEdge(TrimSpace(item.id), item.dependencies)
  }

  /** A word reads as another in lower case: character by character the same, or its capital, 32 before it. */
  predicate ReadsAs(word: string, lower: string) {
    |word| == |lower| && forall i | 0 <= i < |word| ::
      if 65 <= word[i] as int <= 90 then word[i] as int + 32 == lower[i] as int else word[i] == lower[i]
  }

  lemma LowerExactly(word: string, lower: string)
    ensures LowerAscii(word) == lower <==> ReadsAs(word, lower)
  {
    if ReadsAs(word, lower) {
      forall i | 0 <= i < |word| ensures LowerAscii(word)[i] == lower[i] {
      }
    }
    if LowerAscii(word) == lower {
      forall i | 0 <= i < |word| ensures lower[i] == LowerAscii(word)[i] {
      }
    }
  }

  /** A link of the item's own, of the parent-child kind in whatever case, that names another item. */
  predicate NamesParent(id: string, d: Dependency) {
    && ReadsAs(TrimSpace(d.kind), "parent-child") && (TrimSpace(d.issueId) == "" || TrimSpace(d.issueId) == id)
    && TrimSpace(d.id) != "" && TrimSpace(d.id) != id
  }

  ghost predicate NamesFirst(id: string, links: seq<Dependency>, i: nat) {
    i < |links| && NamesParent(id, links[i]) && forall j | 0 <= j < i :: !NamesParent(id, links[j])
  }

  /** An item is broken out of the parent its own field names, or else of the one the first such link does, or else of
      none. */
  lemma DecomposedExactly(item: WorkItem)
    ensures var links, id := item.dependencies, TrimSpace(item.id);
      && (TrimSpace(item.parent) != "" ==> DecomposedFrom(item) == TrimSpace(item.parent))
      && (TrimSpace(item.parent) == "" && (forall i | 0 <= i < |links| :: !NamesParent(id, links[i])) ==>
            DecomposedFrom(item) == "")
      && (TrimSpace(item.parent) == "" ==>
            forall i: nat | NamesFirst(id, links, i) :: DecomposedFrom(item) == TrimSpace(links[i].id))
  {
    ParentEdgeExactly(TrimSpace(item.id), item.dependencies);
  }

  lemma {:induction false} ParentEdgeExactly(id: string, links: seq<Dependency>)
    ensures (forall i | 0 <= i < |links| :: !NamesParent(id, links[i])) ==> ParentEdge(id, links) == ""
    ensures forall i: nat | NamesFirst(id, links, i) :: ParentEdge(id, links) == TrimSpace(links[i].id)
    decreases |links|
  {
    if links != [] {
      LowerExactly(TrimSpace(links[0].kind), "parent-child");
    }
    if links != [] && !NamesParent(id, links[0]) {
      ParentEdgeExactly(id, links[1..]);
      assert forall i | 0 < i < |links| :: links[1..][i - 1] == links[i];
      forall i: nat | NamesFirst(id, links, i) ensures i > 0 && NamesFirst(id, links[1..], i - 1) {
        assert forall j | 0 <= j < i - 1 :: links[1..][j] == links[j + 1];
      }
    }
  }

  function Ids(items: seq<WorkItem>): (ids: set<string>)
    ensures forall x :: x in ids <==> exists i | 0 <= i < |items| :: items[i].id == x
  {
    set i | 0 <= i < |items| :: items[i].id
  }
}
