/** What every run of the artifact store keeps, on documents as they load and on the texts they load from, and what a
    document's approval says about the run that led to it. */
module LifecycleRuns {
  import opened Text
  import opened Artifacts
  import opened Lifecycle
  import opened Documents

  /** One attempted mutation: when it was made, and whether its write would land. */
  datatype Attempt = Attempt(op: Op, now: nat, wrote: bool)

  ghost function Run(files: Files, project: Project, attempts: seq<Attempt>): Files
    decreases |attempts|
  {
    if attempts == [] then files else
      var last := attempts[|attempts| - 1];
      Execute(Run(files, project, attempts[..|attempts| - 1]), project, last.op, last.now, last.wrote).files
  }

  function Target(op: Op): string {
    if op.Create? then TrimSpace(op.draft.id) else op.id
  }

  // ---- One mutation ----

  ghost predicate Appended<T>(before: seq<T>, after: seq<T>) {
    |after| == |before| + 1 && after[..|before|] == before
  }

  /** How a change moves a document: one entry more in one of its logs, and not once it has ended. */
  ghost predicate Grew(registry: Registry, was: Artifact, now: Artifact) {
    && Ended(was.revisions).None? && now.id == was.id && now.kind == was.kind
    && if now.revisions == was.revisions then
         && now == was.(approvals := now.approvals) && Appended(was.approvals, now.approvals)
         && now.approvals[|was.approvals|].revision == |was.revisions| - 1
       else
         && now.approvals == was.approvals && Appended(was.revisions, now.revisions)
         && Authorized(registry, now.revisions[|was.revisions|].role, now.kind)
  }

  lemma ChangeGrows(project: Project, existing: Artifact, body: string, op: Op, now: nat)
    requires !op.Create?
    ensures var change := ChangeBy(project, existing, body, op, now);
      change.To? ==>
        && Grew(project.registry, existing, change.artifact)
        && (op.Approve? <==> change.artifact.revisions == existing.revisions)
        && ((op.Amend? ==> op.amendment.body.None?) ==> change.body == body)
  {
    var change := ChangeBy(project, existing, body, op, now);
    if change.To? && !op.Approve? {
      assert |change.artifact.revisions| == |existing.revisions| + 1;
    }
  }

  ghost predicate LawfulArtifact(registry: Registry, a: Artifact) {
    forall i | 0 <= i < |a.revisions| :: Authorized(registry, a.revisions[i].role, a.kind)
  }

  lemma GrewKeepsLaw(registry: Registry, was: Artifact, now: Artifact)
    requires Grew(registry, was, now) && LawfulArtifact(registry, was)
    ensures LawfulArtifact(registry, now)
  {
    assert forall i | 0 <= i < |was.revisions| :: now.revisions[i] == was.revisions[i];
  }

  /** The one file a mutation changed, and how. */
  ghost predicate Moved(files: Files, project: Project, op: Op, path: string, after: Files) {
    && path in files && path in after && after == files[path := after[path]]
    && !op.Create? && files[path].Document? && files[path].artifact.id == op.id
    && after[path].Document? && project.valid(after[path].artifact)
    && Grew(project.registry, files[path].artifact, after[path].artifact)
    && (op.Approve? <==> after[path].artifact.revisions == files[path].artifact.revisions)
    && ((op.Amend? ==> op.amendment.body.None?) ==> after[path].body == files[path].body)
  }

  /** A mutation other than a creation changes at most the one file that answers to the id it names. */
  lemma MutationStep(files: Files, project: Project, op: Op, now: nat, wrote: bool)
    requires !op.Create?
    ensures var out := Execute(files, project, op, now, wrote);
      var path := Find(files, project, op.id);
      if out.result.Failed? then out.files == files
      else path.Some? && Moved(files, project, op, path.value, out.files)
  {
    match Find(files, project, op.id)
    case None =>
    case Some(path) => ChangeGrows(project, files[path].artifact, files[path].body, op, now);
  }

  ghost predicate FreshName(files: Files, project: Project, id: string) {
    forall p | p in files :: project.idFor(p) != id
  }

  /** The one file a creation added. */
  ghost predicate Added(files: Files, project: Project, id: string, path: string, after: Files) {
    && path !in files && path in after && after == files[path := after[path]]
    && project.idFor(path) == id && FreshName(files, project, id)
    && after[path].Document? && project.valid(after[path].artifact) && after[path].artifact.id == id
    && after[path].artifact.approvals == [] && LawfulArtifact(project.registry, after[path].artifact)
  }

  lemma DraftIsLawful(project: Project, role: Role, draft: Draft, now: nat)
    ensures var change := DraftChange(project, role, draft, now);
      change.To? ==>
        && project.valid(change.artifact) && change.artifact.id == TrimSpace(draft.id)
        && change.artifact.approvals == [] && LawfulArtifact(project.registry, change.artifact)
  {
  }

  /** A creation adds one file, under an id no file in any home was named for. */
  lemma CreationStep(files: Files, project: Project, role: Role, draft: Draft, now: nat, wrote: bool)
    requires NamesIds(project)
    ensures var out := Execute(files, project, Op.Create(role, draft), now, wrote);
      var path := Place(project, draft.directory, TrimSpace(draft.id));
      if out.result.Failed? then out.files == files
      else path.Some? && Added(files, project, TrimSpace(draft.id), path.value, out.files)
  {
    var change := DraftChange(project, role, draft, now);
    DraftIsLawful(project, role, draft, now);
    if change.To? {
      var path := Place(project, draft.directory, change.artifact.id);
      if path.Some? {
        PlacedByName(project, draft.directory, change.artifact);
        UnclaimedExactly(files, project, change.artifact.id, path.value);
      }
    }
  }

  lemma PlacedByName(project: Project, directory: string, a: Artifact)
    requires NamesIds(project) && project.valid(a)
    ensures Place(project, directory, a.id).Some? ==> project.idFor(Place(project, directory, a.id).value) == a.id
  {
  }

  /** Every successful mutation added one file or moved one on. */
  lemma StepShape(files: Files, project: Project, attempt: Attempt) returns (path: string)
    requires NamesIds(project)
    ensures var out := Execute(files, project, attempt.op, attempt.now, attempt.wrote);
      if out.result.Failed? then out.files == files
      else if attempt.op.Create? then Added(files, project, Target(attempt.op), path, out.files)
      else Moved(files, project, attempt.op, path, out.files)
  {
    var op := attempt.op;
    path := "";
    if op.Create? {
      CreationStep(files, project, op.role, op.draft, attempt.now, attempt.wrote);
      if Place(project, op.draft.directory, Target(op)).Some? {
        path := Place(project, op.draft.directory, Target(op)).value;
      }
    } else {
      MutationStep(files, project, op, attempt.now, attempt.wrote);
      if Find(files, project, op.id).Some? {
        path := Find(files, project, op.id).value;
      }
    }
  }

  /** An artifact that validates lands in a file named for it: `PathNamesId`, for the rules a store is built with. */
  ghost predicate NamesIds(project: Project) {
    forall a, directory | project.valid(a) :: project.idFor(PathFor(directory, a.id)) == a.id
  }

  lemma StoresNameIds(project: Project)
    requires project.valid == Validates && project.idFor == IdForPath
    ensures NamesIds(project)
  {
    forall a, directory | project.valid(a) ensures project.idFor(PathFor(directory, a.id)) == a.id {
      assert Validates(a);
      PathNamesId(directory, a.id);
    }
  }

  // ---- Whole runs ----

  /** Every file loads, and no two answer to one id. */
  ghost predicate Sound(files: Files, project: Project) {
    && (forall p | p in files :: Readable(project, p, files[p]))
    && (forall p, q | p in files && q in files && files[p].artifact.id == files[q].artifact.id :: p == q)
  }

  ghost predicate Lawful(files: Files, project: Project) {
    forall p | p in files && files[p].Document? :: LawfulArtifact(project.registry, files[p].artifact)
  }

  /** Nothing recorded is lost or rewritten, and what has ended is frozen. */
  ghost predicate Kept(before: File, after: File) {
    before == after ||
    (&& before.Document? && after.Document? && Ended(before.artifact.revisions).None?
     && after.artifact.id == before.artifact.id && after.artifact.kind == before.artifact.kind
     && before.artifact.revisions <= after.artifact.revisions && before.artifact.approvals <= after.artifact.approvals)
  }

  ghost predicate AllKept(before: Files, after: Files) {
    forall p | p in before :: p in after && Kept(before[p], after[p])
  }

  lemma KeptOnward(a: Files, b: Files, c: Files)
    requires AllKept(a, b) && AllKept(b, c)
    ensures AllKept(a, c)
  {
    forall p | p in a ensures p in c && Kept(a[p], c[p]) {
      assert p in b && Kept(a[p], b[p]) && Kept(b[p], c[p]);
      if a[p] != b[p] && b[p] != c[p] {
        PrefixOnward(a[p].artifact.revisions, b[p].artifact.revisions, c[p].artifact.revisions);
        PrefixOnward(a[p].artifact.approvals, b[p].artifact.approvals, c[p].artifact.approvals);
      }
    }
  }

  lemma PrefixOnward<T>(a: seq<T>, b: seq<T>, c: seq<T>)
    requires a <= b <= c
    ensures a <= c
  {
  }

  lemma GrewKeeps(registry: Registry, was: Artifact, now: Artifact, before: File, after: File)
    requires before.Document? && after.Document? && before.artifact == was && after.artifact == now
    requires Grew(registry, was, now)
    ensures Kept(before, after)
  {
  }

  lemma AddedKeeps(files: Files, project: Project, id: string, path: string, after: Files)
    requires Added(files, project, id, path, after)
    ensures AllKept(files, after)
    ensures Sound(files, project) ==> Sound(after, project)
    ensures Lawful(files, project) ==> Lawful(after, project)
  {
  }

  lemma MovedKeeps(files: Files, project: Project, op: Op, path: string, after: Files)
    requires Moved(files, project, op, path, after)
    ensures AllKept(files, after)
    ensures Sound(files, project) ==> Sound(after, project)
    ensures Lawful(files, project) ==> Lawful(after, project)
  {
    GrewKeeps(project.registry, files[path].artifact, after[path].artifact, files[path], after[path]);
    if Lawful(files, project) {
      GrewKeepsLaw(project.registry, files[path].artifact, after[path].artifact);
    }
  }

  lemma StepKeeps(files: Files, project: Project, attempt: Attempt)
    requires NamesIds(project)
    ensures var after := Execute(files, project, attempt.op, attempt.now, attempt.wrote).files;
      && AllKept(files, after)
      && (Sound(files, project) ==> Sound(after, project))
      && (Lawful(files, project) ==> Lawful(after, project))
  {
    var out := Execute(files, project, attempt.op, attempt.now, attempt.wrote);
    var path := StepShape(files, project, attempt);
    if out.result.Done? {
      if attempt.op.Create? {
        AddedKeeps(files, project, Target(attempt.op), path, out.files);
      } else {
        MovedKeeps(files, project, attempt.op, path, out.files);
      }
    }
  }

  /** Every run, from any files: nothing is lost, logs grow by suffix, ended documents stay as they are, and a store
      whose files all load under distinct ids stays one. */
  lemma {:induction false} RunKeeps(files: Files, project: Project, attempts: seq<Attempt>)
    requires NamesIds(project)
    ensures AllKept(files, Run(files, project, attempts))
    ensures Sound(files, project) ==> Sound(Run(files, project, attempts), project)
    ensures Lawful(files, project) ==> Lawful(Run(files, project, attempts), project)
    decreases |attempts|
  {
    if attempts != [] {
      var before := attempts[..|attempts| - 1];
      RunKeeps(files, project, before);
      StepKeeps(Run(files, project, before), project, attempts[|attempts| - 1]);
      KeptOnward(files, Run(files, project, before), Run(files, project, attempts));
    }
  }

  /** From an empty store no load ever reports a revision as unauthorized. */
  lemma NothingUnauthorized(project: Project, attempts: seq<Attempt>, path: string, i: nat)
    requires NamesIds(project)
    requires var files := Run(map[], project, attempts); path in files
    ensures var files := Run(map[], project, attempts);
      && Readable(project, path, files[path])
      && (i < |files[path].artifact.revisions| ==> !ReportedUnauthorized(project.registry, files[path].artifact, i))
  {
    RunKeeps(map[], project, attempts);
    var a := Run(map[], project, attempts)[path].artifact;
    if i < |a.revisions| {
      assert LawfulArtifact(project.registry, a);
      forall owner | Owns(project.registry, owner, a.kind) ensures a.revisions[i].role == owner {
        assert a.revisions[i].role in project.registry(Authority(a.kind).value);
      }
    }
  }

  /** Amendments without a body, endings and approvals leave every document's prose as it was. */
  lemma {:induction false} ProseUnchanged(files: Files, project: Project, attempts: seq<Attempt>, path: string)
    requires NamesIds(project) && path in files
    requires forall k | 0 <= k < |attempts| && attempts[k].op.Amend? :: attempts[k].op.amendment.body.None?
    ensures path in Run(files, project, attempts)
    ensures files[path].Document? ==>
      Run(files, project, attempts)[path].Document? && Run(files, project, attempts)[path].body == files[path].body
    decreases |attempts|
  {
    if attempts != [] {
      var before := attempts[..|attempts| - 1];
      var last := attempts[|attempts| - 1];
      ProseUnchanged(files, project, before, path);
      var at := StepShape(Run(files, project, before), project, last);
    }
  }

  // ---- What an approval says about the run ----

  datatype Event = Changed | WasApproved

  /** What the mutations that succeeded did to one id, in order. */
  ghost function History(files: Files, project: Project, attempts: seq<Attempt>, id: string): seq<Event>
    decreases |attempts|
  {
    if attempts == [] then [] else
      var last := attempts[|attempts| - 1];
      var before := attempts[..|attempts| - 1];
      var earlier := History(files, project, before, id);
      var out := Execute(Run(files, project, before), project, last.op, last.now, last.wrote);
      if out.result.Failed? || Target(last.op) != id then earlier
      else earlier + [if last.op.Approve? then WasApproved else Changed]
  }

  /** How many changes followed the last approval, if there was one. */
  function SinceApproval(history: seq<Event>): Option<nat> {
    if history == [] then None else
      var earlier := SinceApproval(history[..|history| - 1]);
      if history[|history| - 1].WasApproved? then Some(0)
      else if earlier.Some? then Some(earlier.value + 1) else None
  }

  function ApprovalGap(a: Artifact): Option<int> {
    match LatestApproval(a)
    case None => None
    case Some(latest) => Some(|a.revisions| - 1 - latest.revision)
  }

  ghost predicate Tells(files: Files, project: Project, id: string, history: seq<Event>) {
    && (FreshName(files, project, id) ==> history == [])
    && (forall p | p in files && files[p].Document? && files[p].artifact.id == id ::
          ApprovalGap(files[p].artifact) == SinceApproval(history))
  }

  lemma AddedTells(files: Files, project: Project, added: string, path: string, after: Files, id: string,
                   history: seq<Event>)
    requires Added(files, project, added, path, after) && Tells(files, project, id, history)
    ensures Tells(after, project, id, if added == id then history + [Changed] else history)
  {
    assert [Changed][..0] == [];
  }

  lemma MovedTells(files: Files, project: Project, op: Op, path: string, after: Files, id: string, history: seq<Event>)
    requires Moved(files, project, op, path, after) && Sound(files, project) && Tells(files, project, id, history)
    ensures Tells(after, project, id, if op.id == id then history + [if op.Approve? then WasApproved else Changed]
        else history)
  {
    var event := if op.Approve? then WasApproved else Changed;
    assert (history + [event])[..|history|] == history;
    assert project.idFor(path) == files[path].artifact.id;
    GapMoves(project.registry, files[path].artifact, after[path].artifact);
  }

  lemma GapMoves(registry: Registry, was: Artifact, now: Artifact)
    requires Grew(registry, was, now)
    ensures ApprovalGap(now)
         == if now.revisions == was.revisions then Some(0)
            else if ApprovalGap(was).Some? then Some(ApprovalGap(was).value + 1) else None
  {
  }

  lemma HistoryStep(files: Files, project: Project, attempt: Attempt, id: string, history: seq<Event>)
    requires NamesIds(project) && Sound(files, project) && Tells(files, project, id, history)
    ensures var out := Execute(files, project, attempt.op, attempt.now, attempt.wrote);
      Tells(out.files, project, id,
            if out.result.Failed? || Target(attempt.op) != id then history
            else history + [if attempt.op.Approve? then WasApproved else Changed])
  {
    var out := Execute(files, project, attempt.op, attempt.now, attempt.wrote);
    var path := StepShape(files, project, attempt);
    if out.result.Done? {
      if attempt.op.Create? {
        AddedTells(files, project, Target(attempt.op), path, out.files, id, history);
      } else {
        MovedTells(files, project, attempt.op, path, out.files, id, history);
      }
    }
  }

  /** A document's approval state is what its history says: never approved, approved as it stands, or amended by so
      many changes since. */
  lemma ApprovalTellsHistory(project: Project, attempts: seq<Attempt>, path: string)
    requires NamesIds(project) && path in Run(map[], project, attempts)
    requires Run(map[], project, attempts)[path].Document?
    ensures var a := Run(map[], project, attempts)[path].artifact;
      match SinceApproval(History(map[], project, attempts, a.id))
      case None => StateOf(a) == Unapproved && RevisionsSinceApproval(a) == 0
      case Some(0) => StateOf(a) == Approved && RevisionsSinceApproval(a) == 0
      case Some(changes) => StateOf(a) == AmendedSince && RevisionsSinceApproval(a) == changes
  {
    var a := Run(map[], project, attempts)[path].artifact;
    HistoryTold(project, attempts, a.id);
  }

  lemma {:induction false} HistoryTold(project: Project, attempts: seq<Attempt>, id: string)
    requires NamesIds(project)
    ensures Sound(Run(map[], project, attempts), project)
    ensures Tells(Run(map[], project, attempts), project, id, History(map[], project, attempts, id))
    decreases |attempts|
  {
    RunKeeps(map[], project, attempts);
    if attempts != [] {
      var before := attempts[..|attempts| - 1];
      HistoryTold(project, before, id);
      HistoryStep(Run(map[], project, before), project, attempts[|attempts| - 1], id,
        History(map[], project, before, id));
    }
  }

  // ---- On the texts: what is written and what is read back ----

  /** The codec undoes itself, and no line of what it writes reads as a fence. */
  ghost predicate Clean(project: Project, a: Artifact) {
    project.decode(project.encode(a)) == Some(a) && NoFence(project.encode(a))
  }

  /** An artifact whose encoding decodes reads back as it was written exactly when no line of that encoding reads as a
      fence, whatever the prose. */
  lemma ReadsBackExactly(project: Project, a: Artifact, body: string)
    requires project.decode(project.encode(a)) == Some(a)
    ensures FileOf(project, TextOf(project, a, body)) == Document(a, body) <==> NoFence(project.encode(a))
  {
    RenderedDocumentSplits(project.encode(a), body);
  }

  lemma LoadedWith(project: Project, texts: Texts, path: string, text: string)
    ensures Loaded(project, texts[path := text]) == Loaded(project, texts)[path := FileOf(project, text)]
  {
  }

  /** A write moves the loaded files as it moves the texts exactly when nothing is written, or what is written is
      clean. */
  lemma StoredLoads(texts: Texts, project: Project, decision: Decision, wrote: bool)
    requires decision.Write? ==> project.decode(project.encode(decision.artifact)) == Some(decision.artifact)
    ensures Loaded(project, Stored(texts, project, decision, wrote).texts)
        == Landed(Loaded(project, texts), decision, wrote).files
       <==> (decision.Write? && wrote ==> NoFence(project.encode(decision.artifact)))
    ensures Stored(texts, project, decision, wrote).result == Landed(Loaded(project, texts), decision, wrote).result
  {
    if decision.Write? && wrote {
      var text, meant := TextOf(project, decision.artifact, decision.body), Document(decision.artifact, decision.body);
      LoadedWith(project, texts, decision.path, text);
      ReadsBackExactly(project, decision.artifact, decision.body);
      assert Loaded(project, texts)[decision.path := FileOf(project, text)][decision.path] == FileOf(project, text);
      assert Loaded(project, texts)[decision.path := meant][decision.path] == meant;
    }
  }

  // ---- A reason the code accepts and does not read back ----

  const FENCED_REASON := "x" + "\n" + FENCE + "\n" + "y"

  /** Each line of a reason stands on a line of the metadata, but for the space around it, as in an indented block. */
  ghost predicate InBlock(metadata: string, reason: string) {
    forall j: nat | j < |Lines(reason)| :: Stands(Lines(metadata), Lines(reason)[j])
  }

  ghost predicate Stands(lines: seq<string>, line: string) {
    exists i: nat :: i < |lines| && TrimSpace(lines[i]) == TrimSpace(line)
  }

  lemma BlockHoldsFence(metadata: string, reason: string, j: nat)
    requires InBlock(metadata, reason) && j < |Lines(reason)| && IsFence(Lines(reason)[j])
    ensures !NoFence(metadata)
  {
    var lines := Lines(metadata);
    assert Stands(lines, Lines(reason)[j]);
    var i: nat :| i < |lines| && TrimSpace(lines[i]) == TrimSpace(Lines(reason)[j]);
    assert IsFence(lines[i]);
  }

  /** It is valid, trimmed already, and one of its lines is a fence. */
  lemma FencedReason()
    ensures ReasonValid(FENCED_REASON) && TrimSpace(FENCED_REASON) == FENCED_REASON
    ensures |Lines(FENCED_REASON)| == 3 && IsFence(Lines(FENCED_REASON)[1])
  {
    FenceIsItsOwnLine();
    OneLine("x");
    OneLine("y");
    LinesConcat("x" + "\n" + FENCE, "y");
    LinesConcat("x", FENCE);
    assert FENCED_REASON[0] == 'x' && FENCED_REASON[|FENCED_REASON| - 1] == 'y';
    assert TrimLeft(FENCED_REASON) == FENCED_REASON && TrimRight(FENCED_REASON) == FENCED_REASON;
    BytesPerChar(FENCED_REASON);
  }

  function ApprovedFor(a: Artifact, now: nat): Artifact {
    a.(approvals := a.approvals + [Approval(|a.revisions| - 1, true, now, FENCED_REASON)])
  }

  lemma StillInOrder(a: Artifact, now: nat)
    requires ApprovalsInOrder(a.approvals, |a.revisions|) && a.revisions != [] && now > 0
    requires LatestApproval(a).Some? ==> LatestApproval(a).value.revision < |a.revisions| - 1
    ensures ApprovalsInOrder(ApprovedFor(a, now).approvals, |a.revisions|)
  {
    FencedReason();
    OneMoreApproval(a, Approval(|a.revisions| - 1, true, now, FENCED_REASON));
  }

  lemma OneMoreApproval(existing: Artifact, last: Approval)
    requires ApprovalsInOrder(existing.approvals, |existing.revisions|) && existing.revisions != []
    requires last.revision == |existing.revisions| - 1
    requires LatestApproval(existing).Some? ==> LatestApproval(existing).value.revision < last.revision
    ensures ApprovalsInOrder(existing.approvals + [last], |existing.revisions|) <==> ApprovalValid(last)
  {
    InOrderStep(existing.approvals, last, |existing.revisions|, ApprovalValid);
    forall i | 0 <= i < |existing.approvals| ensures existing.approvals[i].revision < last.revision {
      assert existing.approvals[i].revision <= existing.approvals[|existing.approvals| - 1].revision;
    }
  }

  lemma StillValidates(a: Artifact, now: nat)
    requires Validates(a) && now > 0
    requires LatestApproval(a).Some? ==> LatestApproval(a).value.revision < |a.revisions| - 1
    ensures Validates(ApprovedFor(a, now))
  {
    StillInOrder(a, now);
    var b := ApprovedFor(a, now);
    assert SupportsValid(b) && b.revisions == a.revisions && b.status == a.status;
  }

  ghost predicate Approvable(a: Artifact) {
    Ended(a.revisions).None? && (LatestApproval(a).Some? ==> LatestApproval(a).value.revision < |a.revisions| - 1)
  }

  lemma ApprovalChanges(a: Artifact, body: string, now: nat)
    requires Validates(a) && now > 0 && Approvable(a)
    ensures ApproveChange(a, body, FENCED_REASON, now) == To(ApprovedFor(a, now), body)
  {
    FencedReason();
  }

  lemma ApprovalIsDecided(files: Files, project: Project, id: string, path: string, now: nat)
    requires project.valid == Validates && now > 0 && Find(files, project, id) == Some(path)
        && Approvable(files[path].artifact)
    ensures Decide(files, project, Op.Approve(id, FENCED_REASON), now)
         == Write(path, ApprovedFor(files[path].artifact, now), files[path].body)
  {
    var a, body := files[path].artifact, files[path].body;
    assert path in Claimants(files, project, id);
    StillValidates(a, now);
    ApprovalChanges(a, body, now);
  }

  lemma FencedIsMisread(project: Project, a: Artifact, body: string)
    requires !NoFence(project.encode(a))
    ensures FileOf(project, TextOf(project, a, body)) != Document(a, body)
    ensures var file := FileOf(project, TextOf(project, a, body)); file.Document? ==> |file.body| > |body|
  {
    RenderedDocumentSplits(project.encode(a), body);
  }

  /** Approving any document that may be approved, for that reason, goes through, and the file does not load as what was
      written: whatever it loads as, its prose is longer by what is left of the metadata. */
  lemma FencedApprovalIsMisread(texts: Texts, project: Project, id: string, path: string, now: nat)
    requires project.valid == Validates && now > 0
    ensures Find(Loaded(project, texts), project, id) == Some(path) ==>
      var was := Loaded(project, texts)[path];
      var out := ExecuteOn(texts, project, Op.Approve(id, FENCED_REASON), now, true);
      Approvable(was.artifact) && InBlock(project.encode(ApprovedFor(was.artifact, now)), FENCED_REASON) ==>
        && out.result == Done(ApprovedFor(was.artifact, now)) && path in out.texts
        && FileOf(project, out.texts[path]) != Document(ApprovedFor(was.artifact, now), was.body)
        && (FileOf(project, out.texts[path]).Document? ==> |FileOf(project, out.texts[path]).body| > |was.body|)
  {
    if Find(Loaded(project, texts), project, id) == Some(path) {
      var was := Loaded(project, texts)[path];
      if Approvable(was.artifact) && InBlock(project.encode(ApprovedFor(was.artifact, now)), FENCED_REASON) {
        FencedReason();
        BlockHoldsFence(project.encode(ApprovedFor(was.artifact, now)), FENCED_REASON, 1);
        ApprovalIsDecided(Loaded(project, texts), project, id, path, now);
        FencedIsMisread(project, ApprovedFor(was.artifact, now), was.body);
      }
    }
  }

  // ---- On the texts: whole runs ----

  ghost function RunOn(texts: Texts, project: Project, attempts: seq<Attempt>): Texts
    decreases |attempts|
  {
    if attempts == [] then texts else
      var last := attempts[|attempts| - 1];
      ExecuteOn(RunOn(texts, project, attempts[..|attempts| - 1]), project, last.op, last.now, last.wrote).texts
  }

  /** Everything a run writes is clean. */
  ghost predicate WritesClean(texts: Texts, project: Project, attempts: seq<Attempt>)
    decreases |attempts|
  {
    attempts == [] ||
    (var before, last := attempts[..|attempts| - 1], attempts[|attempts| - 1];
     var decision := Decide(Loaded(project, RunOn(texts, project, before)), project, last.op, last.now);
     WritesClean(texts, project, before) && (decision.Write? && last.wrote ==> Clean(project, decision.artifact)))
  }

  /** The texts of such a run load as the run of what they load as. */
  lemma {:induction false} TextsLoadAsRun(texts: Texts, project: Project, attempts: seq<Attempt>)
    requires WritesClean(texts, project, attempts)
    ensures Loaded(project, RunOn(texts, project, attempts)) == Run(Loaded(project, texts), project, attempts)
    decreases |attempts|
  {
    if attempts != [] {
      var before, last := attempts[..|attempts| - 1], attempts[|attempts| - 1];
      TextsLoadAsRun(texts, project, before);
      var was := RunOn(texts, project, before);
      CleanStepLoads(was, project, Decide(Loaded(project, was), project, last.op, last.now), last.wrote);
    }
  }

  lemma CleanStepLoads(texts: Texts, project: Project, decision: Decision, wrote: bool)
    requires decision.Write? && wrote ==> Clean(project, decision.artifact)
    ensures Loaded(project, Stored(texts, project, decision, wrote).texts)
        == Landed(Loaded(project, texts), decision, wrote).files
  {
    if decision.Write? && wrote {
      StoredLoads(texts, project, decision, wrote);
    }
  }

  /** Over every run that writes clean metadata, from any texts: whatever loaded still loads, logs grow by suffix, ended
      documents stay as they are, and a store whose files all load under distinct ids stays one. */
  lemma LoadsKeep(texts: Texts, project: Project, attempts: seq<Attempt>)
    requires NamesIds(project) && WritesClean(texts, project, attempts)
    ensures var was, now := Loaded(project, texts), Loaded(project, RunOn(texts, project, attempts));
      && AllKept(was, now)
      && (Sound(was, project) ==> Sound(now, project))
      && (Lawful(was, project) ==> Lawful(now, project))
  {
    TextsLoadAsRun(texts, project, attempts);
    RunKeeps(Loaded(project, texts), project, attempts);
  }

  /** From an empty store, whatever such a run wrote loads, and no load reports a revision of it as unauthorized. */
  lemma NothingLoadsUnauthorized(project: Project, attempts: seq<Attempt>, path: string, i: nat)
    requires NamesIds(project) && WritesClean(map[], project, attempts)
    ensures path in RunOn(map[], project, attempts) ==>
      var file := FileOf(project, RunOn(map[], project, attempts)[path]);
      && Readable(project, path, file)
      && (i < |file.artifact.revisions| ==> !ReportedUnauthorized(project.registry, file.artifact, i))
  {
    TextsLoadAsRun(map[], project, attempts);
    assert Loaded(project, map[]) == map[];
    if path in RunOn(map[], project, attempts) {
      NothingUnauthorized(project, attempts, path, i);
    }
  }

  /** Whose each kind is: the brief, the goals and the non-goals one role's, and the designs, the specifications and the
      decisions another's. */
  predicate Holds(registry: Registry, product: Role, design: Role) {
    registry(ProductMutate) == {product} && registry(DesignMutate) == {design}
  }

  predicate OwnedBy(kind: Kind, role: Role, product: Role, design: Role) {
    || ((kind == Brief || kind == Goals || kind == NonGoals) && role == product)
    || ((kind == Design || kind == Specification || kind == Decision) && role == design)
  }

  lemma LawfulIsOwned(registry: Registry, product: Role, design: Role, a: Artifact, i: nat)
    requires Holds(registry, product, design) && LawfulArtifact(registry, a) && i < |a.revisions|
    ensures OwnedBy(a.kind, a.revisions[i].role, product, design)
  {
    assert Authorized(registry, a.revisions[i].role, a.kind);
  }

  /** Where one role holds product mutation and one design mutation: whatever a clean run from an empty store wrote,
      each revision of what loads is by the role the kind belongs to. */
  lemma WrittenByItsOwner(project: Project, attempts: seq<Attempt>, product: Role, design: Role, path: string, i: nat)
    requires NamesIds(project) && WritesClean(map[], project, attempts) && Holds(project.registry, product, design)
    ensures path in RunOn(map[], project, attempts) ==>
      var file := FileOf(project, RunOn(map[], project, attempts)[path]);
      && file.Document?
      && (i < |file.artifact.revisions| ==>
            OwnedBy(file.artifact.kind, file.artifact.revisions[i].role, product, design))
  {
    TextsLoadAsRun(map[], project, attempts);
    assert Loaded(project, map[]) == map[];
    if path in RunOn(map[], project, attempts) {
      RunKeeps(map[], project, attempts);
      var file := Run(map[], project, attempts)[path];
      assert Readable(project, path, file) && LawfulArtifact(project.registry, file.artifact);
      if i < |file.artifact.revisions| {
        LawfulIsOwned(project.registry, product, design, file.artifact, i);
      }
    }
  }

  predicate Known(kind: Kind) {
    kind == Brief || kind == Goals || kind == NonGoals || kind == Design || kind == Specification || kind == Decision
  }

  /** And what is refused as unauthorized is exactly what any other role asks of one of those kinds: a creation, and
      then every change but an approval, which is the operator's. */
  lemma CreationRefused(texts: Texts, project: Project, product: Role, design: Role, role: Role, draft: Draft, now: nat,
                        wrote: bool)
    requires Holds(project.registry, product, design)
    ensures var result := ExecuteOn(texts, project, Op.Create(role, draft), now, wrote).result;
      && (result == Failed(Unauthorized) <==> Known(draft.kind) && !OwnedBy(draft.kind, role, product, design))
      && (result == Failed(NoSuchKind) <==> !Known(draft.kind))
  {
    var change := DraftChange(project, role, draft, now);
    DraftDenied(project, product, design, role, draft, now);
    var place := Place(project, draft.directory, Drafted(role, draft, now).id);
    if change.To? && place.Some? {
      NotDenied(texts, project, place.value, change, wrote);
    }
  }

  lemma DraftDenied(project: Project, product: Role, design: Role, role: Role, draft: Draft, now: nat)
    requires Holds(project.registry, product, design)
    ensures var change := DraftChange(project, role, draft, now);
      && (change == Refused(Unauthorized) <==> Known(draft.kind) && !OwnedBy(draft.kind, role, product, design))
      && (change == Refused(NoSuchKind) <==> !Known(draft.kind))
  {
  }

  /** What is decided on a change that goes through is not an authority refused. */
  lemma NotDenied(texts: Texts, project: Project, path: string, change: Change, wrote: bool)
    ensures var result := Stored(texts, project, Checked(project, path, change), wrote).result;
      && (result == Failed(Unauthorized) <==> change == Refused(Unauthorized))
      && (result == Failed(NoSuchKind) <==> change == Refused(NoSuchKind))
  {
  }

  lemma ChangeDenied(project: Project, existing: Artifact, body: string, product: Role, design: Role, op: Op, now: nat)
    requires Holds(project.registry, product, design) && !op.Create?
    ensures var change := ChangeBy(project, existing, body, op, now);
      && (change == Refused(Unauthorized)
          <==> !op.Approve? && Known(existing.kind) && !OwnedBy(existing.kind, op.role, product, design))
      && (change == Refused(NoSuchKind) <==> !op.Approve? && !Known(existing.kind))
  {
  }

  lemma ChangeRefused(texts: Texts, project: Project, product: Role, design: Role, op: Op, path: string, now: nat,
                      wrote: bool)
    requires Holds(project.registry, product, design) && !op.Create?
    requires Find(Loaded(project, texts), project, op.id) == Some(path)
    ensures var kind := Loaded(project, texts)[path].artifact.kind;
      var result := ExecuteOn(texts, project, op, now, wrote).result;
      && (result == Failed(Unauthorized)
          <==> !op.Approve? && Known(kind) && !OwnedBy(kind, op.role, product, design))
      && (result == Failed(NoSuchKind) <==> !op.Approve? && !Known(kind))
  {
    var was := Loaded(project, texts)[path];
    ChangeDenied(project, was.artifact, was.body, product, design, op, now);
    NotDenied(texts, project, path, ChangeBy(project, was.artifact, was.body, op, now), wrote);
  }

  /** Amendments without a body, endings and approvals leave the prose every file loads with as it was. */
  lemma ProseStays(texts: Texts, project: Project, attempts: seq<Attempt>, path: string)
    requires NamesIds(project) && WritesClean(texts, project, attempts) && path in texts
        && FileOf(project, texts[path]).Document?
    requires forall k | 0 <= k < |attempts| && attempts[k].op.Amend? :: attempts[k].op.amendment.body.None?
    ensures path in RunOn(texts, project, attempts)
    ensures var now := FileOf(project, RunOn(texts, project, attempts)[path]);
      now.Document? && now.body == FileOf(project, texts[path]).body
  {
    TextsLoadAsRun(texts, project, attempts);
    ProseUnchanged(Loaded(project, texts), project, attempts, path);
  }

  /** The approval state a file loads with, and how many revisions since, are what the run did to that document. */
  lemma LoadedApprovalTellsHistory(project: Project, attempts: seq<Attempt>, path: string)
    requires NamesIds(project) && WritesClean(map[], project, attempts) && path in RunOn(map[], project, attempts)
    ensures FileOf(project, RunOn(map[], project, attempts)[path]).Document?
    ensures var a := FileOf(project, RunOn(map[], project, attempts)[path]).artifact;
      match SinceApproval(History(map[], project, attempts, a.id))
      case None => StateOf(a) == Unapproved && RevisionsSinceApproval(a) == 0
      case Some(0) => StateOf(a) == Approved && RevisionsSinceApproval(a) == 0
      case Some(changes) => StateOf(a) == AmendedSince && RevisionsSinceApproval(a) == changes
  {
    TextsLoadAsRun(map[], project, attempts);
    assert Loaded(project, map[]) == map[];
    NothingLoadsUnauthorized(project, attempts, path, 0);
    ApprovalTellsHistory(project, attempts, path);
  }

  // ---- What is refused as invalid ----

  predicate TitleFits(title: string) { TrimSpace(title) != "" && ByteLen(TrimSpace(title)) <= 200 }

  predicate ReasonFits(reason: string) { TrimSpace(reason) != "" && ByteLen(TrimSpace(reason)) <= 1024 }

  predicate SupportsFit(supports: seq<string>, id: string) {
    |supports| <= 20 && forall i | 0 <= i < |supports| :: Identifier(supports[i]) && supports[i] != id
  }

  predicate KnownRole(role: Role) {
    || role == ProductManager || role == Architect || role == DevelopmentManager || role == Developer
    || role == Reviewer
  }

  /** What a list of references is recorded as: each that is not blank, trimmed. */
  lemma {:induction false} TrimmedListMeans(values: seq<string>, x: string)
    ensures x in TrimmedList(values) <==> x != "" && exists i | 0 <= i < |values| :: TrimSpace(values[i]) == x
    ensures forall i | 0 <= i < |TrimmedList(values)| :: TrimSpace(TrimmedList(values)[i]) == TrimmedList(values)[i]
    decreases |values|
  {
    if values != [] {
      TrimmedListMeans(values[1..], x);
      TrimTwice(values[0]);
      assert forall i | 0 < i < |values| :: values[1..][i - 1] == values[i];
    }
  }

  /** A draft is valid exactly where what it says, trimmed, fits: an identifier, one of the six kinds, one of the five
      roles, a title, a reason, and references to others. */
  lemma DraftValidExactly(role: Role, draft: Draft, now: nat)
    ensures Validates(Drafted(role, draft, now)) <==>
      && Identifier(TrimSpace(draft.id)) && Known(draft.kind) && KnownRole(role) && now != 0
      && TitleFits(draft.title) && ReasonFits(draft.reason)
      && SupportsFit(TrimmedList(draft.supports), TrimSpace(draft.id))
  {
    var a := Drafted(role, draft, now);
    TrimTwice(draft.title);
    TrimTwice(draft.reason);
    TrimmedListMeans(draft.supports, "");
    SupportsExactly(a);
    RevisionValidExactly(a.revisions[0]);
    NewIsInOrder(a);
    TrimTwice(draft.id);
  }

  lemma NewIsInOrder(a: Artifact)
    requires a.approvals == [] && |a.revisions| == 1 && a.revisions[0].action == Created
    ensures ApprovalsInOrder(a.approvals, 1) && Ended(a.revisions).None?
  {
  }

  lemma SupportsExactly(a: Artifact)
    requires forall i | 0 <= i < |a.supports| :: TrimSpace(a.supports[i]) == a.supports[i]
    ensures SupportsValid(a) <==> SupportsFit(a.supports, TrimSpace(a.id))
  {
  }

  /** Nothing but what it changes can make an amendment of a valid document invalid. */
  lemma AmendmentValidExactly(existing: Artifact, role: Role, amendment: Amendment, now: nat)
    requires Validates(existing) && Ended(existing.revisions).None?
    ensures Validates(WithAmendment(existing, role, amendment, now)) <==>
      && (amendment.title.Some? ==> TitleFits(amendment.title.value))
      && (amendment.supports.Some? ==> SupportsFit(TrimmedList(amendment.supports.value), TrimSpace(existing.id)))
      && KnownRole(role) && now != 0 && ReasonFits(amendment.reason)
  {
    var a := WithAmendment(existing, role, amendment, now);
    var revision := Revision(Amended, role, now, TrimSpace(amendment.reason));
    TrimTwice(amendment.reason);
    RevisionValidExactly(revision);
    OneMoreRevision(existing, revision);
    if amendment.title.Some? {
      TrimTwice(amendment.title.value);
    }
    if amendment.supports.Some? {
      TrimmedListMeans(amendment.supports.value, "");
      SupportsExactly(a);
    } else {
      assert SupportsValid(a);
    }
  }

  lemma RevisionValidExactly(r: Revision)
    ensures RevisionValid(r)
       <==> !r.action.UnknownAction? && KnownRole(r.role) && r.at != 0 && ReasonFits(r.reason)
  {
  }

  lemma OneMoreRevision(existing: Artifact, r: Revision)
    requires Validates(existing) && Ended(existing.revisions).None?
    ensures var revisions := existing.revisions + [r];
      && ((forall i | 0 <= i < |revisions| :: RevisionValid(revisions[i])) <==> RevisionValid(r))
      && ApprovalsInOrder(existing.approvals, |revisions|)
      && Ended(revisions) == if Ending(r.action) then Some(r) else None
  {
    var revisions := existing.revisions + [r];
    assert revisions[|existing.revisions|] == r && revisions[..|existing.revisions|] == existing.revisions;
    assert forall i | 0 <= i < |existing.revisions| :: revisions[i] == existing.revisions[i];
  }

  /** An ending is invalid only for who makes it, when, or why. */
  lemma EndingValidExactly(existing: Artifact, role: Role, retired: bool, reason: string, now: nat)
    requires Validates(existing) && Ended(existing.revisions).None?
    ensures var revision := Revision(if retired then RetiredBy else SupersededBy, role, now, TrimSpace(reason));
      var status := if retired then Retired else Superseded;
      Validates(existing.(status := status, revisions := existing.revisions + [revision])) <==>
        KnownRole(role) && now != 0 && ReasonFits(reason)
  {
    var revision := Revision(if retired then RetiredBy else SupersededBy, role, now, TrimSpace(reason));
    var a := existing.(status := if retired then Retired else Superseded, revisions := existing.revisions + [revision]);
    TrimTwice(reason);
    RevisionValidExactly(revision);
    OneMoreRevision(existing, revision);
    assert SupportsValid(a);
  }

  /** An approval of a standing revision is invalid only for its moment or the length of its reason. */
  lemma ApprovalValidExactly(existing: Artifact, body: string, reason: string, now: nat)
    requires Validates(existing) && ApproveChange(existing, body, reason, now).To?
    ensures Validates(ApproveChange(existing, body, reason, now).artifact)
       <==> now != 0 && ByteLen(TrimSpace(reason)) <= 1024
  {
    var last := Approval(|existing.revisions| - 1, true, now, TrimSpace(reason));
    TrimTwice(reason);
    OneMoreApproval(existing, last);
    ApprovalsDecide(existing, existing.approvals + [last]);
  }

  lemma ApprovalsDecide(existing: Artifact, approvals: seq<Approval>)
    requires Validates(existing)
    ensures Validates(existing.(approvals := approvals)) <==> ApprovalsInOrder(approvals, |existing.revisions|)
  {
    assert SupportsValid(existing.(approvals := approvals));
  }

  /** A new document lands in a home or under one, not in an excluded directory nor under one, and never as an index. */
  lemma PlaceExactly(project: Project, directory: string, id: string)
    ensures var target := project.resolve(directory);
      && (Place(project, directory, id).Some? <==>
            && target.Some? && id != "readme"
            && (exists i | 0 <= i < |project.homes| :: In(target.value, project.homes[i]))
            && !exists i | 0 <= i < |project.excluded| :: In(target.value, project.excluded[i]))
      && (Place(project, directory, id).Some? ==>
            Place(project, directory, id).value == target.value + "/" + id + ".md")
  {
  }

  /** A directory is another, or is under it. */
  predicate In(directory: string, other: string) {
    directory == other || (|directory| > |other| && directory[..|other|] == other && directory[|other|] == '/')
  }
}
