/** The artifact store's mutations: internal/artifact/store.go and approval.go.

    A store's files are the text of the Markdown its homes hold, and a load is what is read out of it: metadata up
    to the fence that closes it, and the prose after. A write that fails, for its size or on the disk, is an input. */
module Lifecycle {
  import opened Text
  import opened Artifacts
  import opened Documents

  datatype File = Document(artifact: Artifact, body: string) | Unreadable

  /** What a load makes of each file. */
  type Files = map<string, File>

  type Texts = map<string, string>

  /** What a store works by. A store built here validates with `Artifacts.Validates` and names with `IdForPath`, and
      what is proved of runs holds whatever the two are. `resolve` is `resolveDirectories` on one directory; homes and
      excluded directories are resolved already. `encode` and `decode` are the metadata's codec, less the newline the
      encoder ends with and with the trimming `parse` does. */
  datatype Project = Project(
    homes: seq<string>, excluded: seq<string>, registry: Registry, resolve: string -> Option<string>,
    valid: Artifact -> bool, idFor: string -> string, encode: Artifact -> string, decode: string -> Option<Artifact>)

  /** `read` and `splitDocument` on one file. */
  function FileOf(project: Project, text: string): File {
    match SplitOf(text)
    case None => Unreadable
    case Some(split) =>
      match project.decode(split.metadata)
      case None => Unreadable
      case Some(artifact) => Document(artifact, split.body)
  }

  /** `render`. */
  function TextOf(project: Project, artifact: Artifact, body: string): string { Render(project.encode(artifact), body) }

  function Loaded(project: Project, texts: Texts): Files {
    map path | path in texts :: FileOf(project, texts[path])
  }

  datatype Draft = Draft(id: string, kind: Kind, title: string, supports: seq<string>, directory: string,
                         body: string, reason: string)

  datatype Amendment = Amendment(title: Option<string>, supports: Option<seq<string>>, body: Option<string>,
                                 reason: string)

  datatype Failure =
    | Unauthorized | NoSuchKind | Invalid | NoDocument | OutsideHomes | AlreadyClaimed | NotRecorded | AlreadyEnded
    | ChangesNothing | NoReason | AlreadyApproved | WriteFailed

  datatype Result = Done(artifact: Artifact) | Failed(failure: Failure)

  // ---- Names and places ----

  function StripExt(name: string): string {
    if name == "" || '.' !in name then name
    else if name[|name| - 1] == '.' then name[..|name| - 1]
    else StripExt(name[..|name| - 1])
  }

  /** `idForPath`: the file's own name without its extension. */
  function IdForPath(path: string): string { StripExt(Base(path)) }

  predicate Within(directory: string, directories: seq<string>) {
    exists i | 0 <= i < |directories| :: directory == directories[i] || directories[i] + "/" <= directory
  }

  function PathFor(directory: string, id: string): string { directory + "/" + id + ".md" }

  /** What is left of a name is what stands before its last dot, or all of it where it has none. */
  lemma {:induction false} StripExtExactly(stem: string, extension: string)
    requires '.' !in extension
    ensures StripExt(stem + "." + extension) == stem && StripExt(extension) == extension
    decreases |extension|
  {
    var name := stem + "." + extension;
    assert name[|stem|] == '.';
    if extension == "" {
      assert name[|name| - 1] == '.' && name[..|name| - 1] == stem;
    } else {
      var shorter := extension[..|extension| - 1];
      assert name[|name| - 1] == extension[|extension| - 1] && name[..|name| - 1] == stem + "." + shorter;
      StripExtExactly(stem, shorter);
    }
  }

  lemma {:induction false} LastSlashAt(directory: string, name: string)
    requires '/' !in name
    ensures AfterLastSlash(directory + "/" + name) == name
    decreases |name|
  {
    if name != "" {
      var shorter, last := name[..|name| - 1], name[|name| - 1];
      var before := directory + "/" + shorter;
      assert directory + "/" + name == before + [last];
      LastSlashAt(directory, shorter);
      assert (before + [last])[..|before|] == before && shorter + [last] == name;
    }
  }

  lemma BaseOf(directory: string, name: string)
    requires name != "" && '/' !in name
    ensures Base(directory + "/" + name) == name
  {
    var path := directory + "/" + name;
    assert path[|path| - 1] == name[|name| - 1];
    assert StripTrailingSlashes(path) == path;
    LastSlashAt(directory, name);
  }

  /** An artifact lands in a file whose name is its id. */
  lemma PathNamesId(directory: string, id: string)
    requires Identifier(id)
    ensures IdForPath(PathFor(directory, id)) == id
  {
    assert '/' !in id && '.' !in id;
    assert PathFor(directory, id) == directory + "/" + (id + ".md");
    BaseOf(directory, id + ".md");
    StripExtExactly(id, "md");
    assert id + ".md" == id + "." + "md";
  }

  // ---- Loading: one id names one artifact ----

  predicate Readable(project: Project, path: string, file: File) {
    file.Document? && file.artifact.id == project.idFor(path) && project.valid(file.artifact)
  }

  function Claimants(files: Files, project: Project, id: string): set<string> {
    set path | path in files && Readable(project, path, files[path]) && files[path].artifact.id == id
  }

  /** The artifact an id names is the file that alone claims it. */
  predicate Answers(files: Files, project: Project, id: string, path: string) {
    path in Claimants(files, project, id) && forall other | other in Claimants(files, project, id) :: other == path
  }

  lemma AloneIn<T>(s: set<T>, x: T)
    requires x in s
    ensures |s| == 1 <==> forall y | y in s :: y == x
  {
    assert |s| == |s - {x}| + 1;
    if |s| == 1 {
      assert s - {x} == {};
      assert forall y | y in s :: y == x || y in s - {x};
    } else {
      var y :| y in s - {x};
    }
  }

  /** A file reported instead of loaded: unreadable, or one of several claiming an id. */
  predicate Reported(files: Files, project: Project, path: string) {
    path in files && (files[path].Unreadable? || !Answers(files, project, files[path].artifact.id, path))
  }

  ghost function Find(files: Files, project: Project, id: string): (path: Option<string>)
    ensures path.Some? ==> Answers(files, project, id, path.value)
    ensures path.Some? ==> path.value in files && files[path.value].Document? && files[path.value].artifact.id == id
    ensures path.None? ==> forall p :: !Answers(files, project, id, p)
  {
    if exists p :: Answers(files, project, id, p) then
      var p :| Answers(files, project, id, p);
      Some(p)
    else None
  }

  predicate Unclaimed(files: Files, project: Project, id: string, path: string) {
    && path !in files
    && (forall p | p in files :: !Answers(files, project, id, p))
    && (forall p | p in files && Reported(files, project, p) :: project.idFor(p) != id)
  }

  /** Nothing claims an id exactly when no file in any home, readable or not, is named for it. */
  lemma UnclaimedExactly(files: Files, project: Project, id: string, path: string)
    requires project.idFor(path) == id
    ensures Unclaimed(files, project, id, path) <==> forall p | p in files :: project.idFor(p) != id
  {
    if Unclaimed(files, project, id, path) {
      forall p | p in files ensures project.idFor(p) != id {
        if !Reported(files, project, p) {
          assert Answers(files, project, files[p].artifact.id, p);
        }
      }
    }
  }

  // ---- What each mutation does to the files ----

  function TrimmedList(values: seq<string>): seq<string> {
    if values == [] then [] else
      var rest := TrimmedList(values[1..]);
      if TrimSpace(values[0]) == "" then rest else [TrimSpace(values[0])] + rest
  }

  /** A refused authority is told apart from a kind nobody can place. */
  function Denied(kind: Kind): Failure { if Authority(kind).Some? then Unauthorized else NoSuchKind }

  datatype Op =
    | Create(role: Role, draft: Draft)
    | Amend(role: Role, id: string, amendment: Amendment)
    | Supersede(role: Role, id: string, reason: string)
    | Retire(role: Role, id: string, reason: string)
    | Approve(id: string, reason: string)

  datatype Outcome = Outcome(files: Files, result: Result)

  /** What a mutation makes of the one document it is about, before anything is written. */
  datatype Change = To(artifact: Artifact, body: string) | Refused(failure: Failure)

  function Drafted(role: Role, draft: Draft, now: nat): Artifact {
    Artifact(TrimSpace(draft.id), draft.kind, TrimSpace(draft.title), TrimmedList(draft.supports), Active,
             [Revision(Created, role, now, TrimSpace(draft.reason))], [])
  }

  function DraftChange(project: Project, role: Role, draft: Draft, now: nat): Change {
    if !Authorized(project.registry, role, draft.kind) then Refused(Denied(draft.kind))
    else if !project.valid(Drafted(role, draft, now)) then Refused(Invalid)
    else if TrimSpace(draft.body) == "" then Refused(NoDocument)
    else To(Drafted(role, draft, now), "\n" + TrimSpace(draft.body) + "\n")
  }

  function WithAmendment(existing: Artifact, role: Role, amendment: Amendment, now: nat): Artifact {
    existing.(
      title := if amendment.title.Some? then TrimSpace(amendment.title.value) else existing.title,
      supports := if amendment.supports.Some? then TrimmedList(amendment.supports.value) else existing.supports,
      revisions := existing.revisions + [Revision(Amended, role, now, TrimSpace(amendment.reason))])
  }

  function AmendChange(project: Project, existing: Artifact, body: string, role: Role, amendment: Amendment,
                       now: nat): Change {
    if !Authorized(project.registry, role, existing.kind) then Refused(Denied(existing.kind))
    else if Ended(existing.revisions).Some? then Refused(AlreadyEnded)
    else if amendment.title.None? && amendment.supports.None? && amendment.body.None? then Refused(ChangesNothing)
    else if amendment.body.Some? && TrimSpace(amendment.body.value) == "" then Refused(NoDocument)
    else To(WithAmendment(existing, role, amendment, now),
            if amendment.body.Some? then "\n" + TrimSpace(amendment.body.value) + "\n" else body)
  }

  function EndChange(project: Project, existing: Artifact, body: string, role: Role, action: Action, status: Status,
                     reason: string, now: nat): Change
  {
    if !Authorized(project.registry, role, existing.kind) then Refused(Denied(existing.kind))
    else if Ended(existing.revisions).Some? then Refused(AlreadyEnded)
    else
      var revisions := existing.revisions + [Revision(action, role, now, TrimSpace(reason))];
      To(existing.(status := status, revisions := revisions), body)
  }

  function ApproveChange(existing: Artifact, body: string, reason: string, now: nat): Change {
    var revision := |existing.revisions| - 1;
    var latest := LatestApproval(existing);
    if Ended(existing.revisions).Some? then Refused(AlreadyEnded)
    else if TrimSpace(reason) == "" then Refused(NoReason)
    else if latest.Some? && latest.value.revision >= revision then Refused(AlreadyApproved)
    else To(existing.(approvals := existing.approvals + [Approval(revision, true, now, TrimSpace(reason))]), body)
  }

  function ChangeBy(project: Project, existing: Artifact, body: string, op: Op, now: nat): Change
    requires !op.Create?
  {
    match op
    case Amend(role, _, amendment) => AmendChange(project, existing, body, role, amendment, now)
    case Supersede(role, _, reason) => EndChange(project, existing, body, role, SupersededBy, Superseded, reason, now)
    case Retire(role, _, reason) => EndChange(project, existing, body, role, RetiredBy, Retired, reason, now)
    case Approve(_, reason) => ApproveChange(existing, body, reason, now)
  }

  /** What is to be written where, once a mutation has been judged on the files as they load. */
  datatype Decision = Refuse(failure: Failure) | Write(path: string, artifact: Artifact, body: string)

  function Checked(project: Project, path: string, change: Change): Decision {
    if change.Refused? then Refuse(change.failure)
    else if !project.valid(change.artifact) then Refuse(Invalid)
    else Write(path, change.artifact, change.body)
  }

  /** What the files load as, were a file loaded as what was written to it. */
  function Landed(files: Files, decision: Decision, wrote: bool): Outcome {
    if decision.Refuse? then Outcome(files, Failed(decision.failure))
    else if !wrote then Outcome(files, Failed(WriteFailed))
    else Outcome(files[decision.path := Document(decision.artifact, decision.body)], Done(decision.artifact))
  }

  datatype Saved = Saved(texts: Texts, result: Result)

  /** `write`. */
  function Stored(texts: Texts, project: Project, decision: Decision, wrote: bool): Saved {
    if decision.Refuse? then Saved(texts, Failed(decision.failure))
    else if !wrote then Saved(texts, Failed(WriteFailed))
    else Saved(texts[decision.path := TextOf(project, decision.artifact, decision.body)], Done(decision.artifact))
  }

  /** Where a new artifact lands: in a home, outside the excluded directories, and not on a directory's index. */
  function Place(project: Project, directory: string, id: string): Option<string> {
    var target := project.resolve(directory);
    if id == "readme" || target.None? then None
    else if !Within(target.value, project.homes) || Within(target.value, project.excluded) then None
    else Some(PathFor(target.value, id))
  }

  function DecideCreate(files: Files, project: Project, role: Role, draft: Draft, now: nat): Decision {
    var change := DraftChange(project, role, draft, now);
    if change.Refused? then Refuse(change.failure) else
      match Place(project, draft.directory, change.artifact.id)
      case None => Refuse(OutsideHomes)
      case Some(path) =>
        if !Unclaimed(files, project, change.artifact.id, path) then Refuse(AlreadyClaimed)
        else Checked(project, path, change)
  }

  ghost function Decide(files: Files, project: Project, op: Op, now: nat): Decision {
    if op.Create? then DecideCreate(files, project, op.role, op.draft, now) else
      match Find(files, project, op.id)
      case None => Refuse(NotRecorded)
      case Some(path) => Checked(project, path, ChangeBy(project, files[path].artifact, files[path].body, op, now))
  }

  /** A mutation on loaded files. */
  ghost function Execute(files: Files, project: Project, op: Op, now: nat, wrote: bool): Outcome {
    Landed(files, Decide(files, project, op, now), wrote)
  }

  /** A mutation on the texts themselves. */
  ghost function ExecuteOn(texts: Texts, project: Project, op: Op, now: nat, wrote: bool): Saved {
    Stored(texts, project, Decide(Loaded(project, texts), project, op, now), wrote)
  }

  class Store {
    const project: Project
    var texts: Texts

    constructor (homes: seq<string>, excluded: seq<string>, registry: Registry, resolve: string -> Option<string>,
                 encode: Artifact -> string, decode: string -> Option<Artifact>)
      ensures project == Project(homes, excluded, registry, resolve, Validates, IdForPath, encode, decode)
          && texts == map[]
    {
      project := Project(homes, excluded, registry, resolve, Validates, IdForPath, encode, decode);
      texts := map[];
    }

    /** `loadOne`, over the table of which files claim which id. */
    method LoadOne(files: Files, id: string) returns (path: Option<string>)
      ensures path == Find(files, project, id)
    {
      var claimants := Claimants(files, project, id);
      if |claimants| != 1 {
        forall p ensures !Answers(files, project, id, p) {
          if p in claimants {
            AloneIn(claimants, p);
          }
        }
        return None;
      }
      var p :| p in claimants;
      AloneIn(claimants, p);
      assert Answers(files, project, id, p);
      return Some(p);
    }

    method Put(path: string, changed: Artifact, body: string, wrote: bool) returns (result: Result)
      modifies this`texts
      ensures Saved(texts, result) == Stored(old(texts), project, Checked(project, path, To(changed, body)), wrote)
    {
      if !project.valid(changed) {
        return Failed(Invalid);
      }
      if !wrote {
        return Failed(WriteFailed);
      }
      texts := texts[path := TextOf(project, changed, body)];
      return Done(changed);
    }

    method Create(role: Role, draft: Draft, now: nat, wrote: bool) returns (result: Result)
      modifies this`texts
      ensures Saved(texts, result) == ExecuteOn(old(texts), project, Op.Create(role, draft), now, wrote)
    {
      if !Authorized(project.registry, role, draft.kind) {
        return Failed(Denied(draft.kind));
      }
      var created := Drafted(role, draft, now);
      if !project.valid(created) {
        return Failed(Invalid);
      }
      var body := TrimSpace(draft.body);
      if body == "" {
        return Failed(NoDocument);
      }
      var path := Place(project, draft.directory, created.id);
      if path.None? {
        return Failed(OutsideHomes);
      }
      if !Unclaimed(Loaded(project, texts), project, created.id, path.value) {
        return Failed(AlreadyClaimed);
      }
      result := Put(path.value, created, "\n" + body + "\n", wrote);
    }

    method Amend(role: Role, id: string, amendment: Amendment, now: nat, wrote: bool) returns (result: Result)
      modifies this`texts
      ensures var files := Loaded(project, old(texts));
        match Find(files, project, id)
        case None => texts == old(texts) && result == Failed(NotRecorded)
        case Some(path) =>
          var was := files[path];
          Saved(texts, result) == Stored(old(texts), project,
            Checked(project, path, AmendChange(project, was.artifact, was.body, role, amendment, now)), wrote)
    {
      var files := Loaded(project, texts);
      var path := LoadOne(files, id);
      if path.None? {
        return Failed(NotRecorded);
      }
      var existing, body := files[path.value].artifact, files[path.value].body;
      if !Authorized(project.registry, role, existing.kind) {
        return Failed(Denied(existing.kind));
      }
      if Ended(existing.revisions).Some? {
        return Failed(AlreadyEnded);
      }
      if amendment.title.None? && amendment.supports.None? && amendment.body.None? {
        return Failed(ChangesNothing);
      }
      if amendment.body.Some? {
        var replacement := TrimSpace(amendment.body.value);
        if replacement == "" {
          return Failed(NoDocument);
        }
        body := "\n" + replacement + "\n";
      }
      result := Put(path.value, WithAmendment(existing, role, amendment, now), body, wrote);
    }

    method End(role: Role, id: string, action: Action, status: Status, reason: string, now: nat,
               wrote: bool) returns (result: Result)
      modifies this`texts
      ensures var files := Loaded(project, old(texts));
        match Find(files, project, id)
        case None => texts == old(texts) && result == Failed(NotRecorded)
        case Some(path) =>
          var was := files[path];
          Saved(texts, result) == Stored(old(texts), project,
            Checked(project, path, EndChange(project, was.artifact, was.body, role, action, status, reason, now)),
              wrote)
    {
      var files := Loaded(project, texts);
      var path := LoadOne(files, id);
      if path.None? {
        return Failed(NotRecorded);
      }
      var existing := files[path.value].artifact;
      if !Authorized(project.registry, role, existing.kind) {
        return Failed(Denied(existing.kind));
      }
      if Ended(existing.revisions).Some? {
        return Failed(AlreadyEnded);
      }
      var revision := Revision(action, role, now, TrimSpace(reason));
      var ended := existing.(status := status, revisions := existing.revisions + [revision]);
      result := Put(path.value, ended, files[path.value].body, wrote);
    }

    method Supersede(role: Role, id: string, reason: string, now: nat, wrote: bool) returns (result: Result)
      modifies this`texts
      ensures Saved(texts, result) == ExecuteOn(old(texts), project, Op.Supersede(role, id, reason), now, wrote)
    {
      result := End(role, id, SupersededBy, Superseded, reason, now, wrote);
    }

    method Retire(role: Role, id: string, reason: string, now: nat, wrote: bool) returns (result: Result)
      modifies this`texts
      ensures Saved(texts, result) == ExecuteOn(old(texts), project, Op.Retire(role, id, reason), now, wrote)
    {
      result := End(role, id, RetiredBy, Retired, reason, now, wrote);
    }

    method Approve(id: string, reason: string, now: nat, wrote: bool) returns (result: Result)
      modifies this`texts
      ensures var files := Loaded(project, old(texts));
        match Find(files, project, id)
        case None => texts == old(texts) && result == Failed(NotRecorded)
        case Some(path) =>
          var was := files[path];
          Saved(texts, result) == Stored(old(texts), project,
            Checked(project, path, ApproveChange(was.artifact, was.body, reason, now)), wrote)
    {
      var files := Loaded(project, texts);
      var path := LoadOne(files, id);
      if path.None? {
        return Failed(NotRecorded);
      }
      var existing := files[path.value].artifact;
      if Ended(existing.revisions).Some? {
        return Failed(AlreadyEnded);
      }
      if TrimSpace(reason) == "" {
        return Failed(NoReason);
      }
      var revision := |existing.revisions| - 1;
      var latest := LatestApproval(existing);
      if latest.Some? && latest.value.revision >= revision {
        return Failed(AlreadyApproved);
      }
      var approval := Approval(revision, true, now, TrimSpace(reason));
      result := Put(path.value, existing.(approvals := existing.approvals + [approval]), files[path.value].body, wrote);
    }
  }
}
