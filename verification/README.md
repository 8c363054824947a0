# A verified model of the harness's closed logic

Yoyodyne drives coding agents: it holds conversations with roles, keeps the documents and the work queue those roles act on,
and stands guard over what they may write. This project models the parts of it that decide something, and proves what the
harness relies on them for.

| module | what it models |
|---|---|
| `ShellScan`, `Guards` | the hand-written reading of a shell line, and the two refusals built on it |
| `Artifacts`, `References`, `Documents`, `Lifecycle`, `LifecycleRuns` | the artifact store: what an artifact is, what it traces to, how its file is split and rendered, and its life from creation to its end, on documents as they load and on the texts they load from |
| `WorkItems`, `StableOrders`, `Backlog`, `Claim`, `Repair` | the queue, the claim past a stale block, and the repair of stale state: three readings of "blocked" |
| `Contract` | what a provider's stream of observations leaves on a result |
| `Admission`, `Ledger`, `LedgerRuns`, `LedgerIds`, `Admitting` | proposals in one conversation, and what becomes of each, whichever process takes its record up |
| `Protocol` | several processes sharing that conversation through a hold and a saved record |
| `Budget` | the provider session a conversation resumes, its measure, and its compaction |
| `Amendments`, `Merge` | the amendment log and its delivery; ending a side conversation |
| `Wrap` | the word wrap of a generated index |
| `Codes`, `Bytes`, `Duplicates`, `Scopes` | citing an identifier, and two titles that carry one scope |
| `Text` | the string operations the others share |

Code that changes fields is a class here, whose methods are proved against a function of the state they found; a loop in the
source is a loop here, proved against a recursive function; what the source promises is then proved of those functions, over
every input and every run. What the outside world answers (a provider, the tracker, a save, an append, the clock) is a
parameter, so that a theorem about a run is about every way those could have gone, failures included. An append or a save
may be reported failed after it has landed, as the store's own can.

## Where the code does not do what is said of it

Each of these is a lemma below, with the exact condition beside it.

- An outage can stand beside an overload or an interruption, which the comment on `ProviderOutage` rules out
  (internal/backend/backend.go:345-349): `OutageThenOverload`, and exactly when by `OutageBesideFleeting`.
- A metadata line that trims to `---` closes the fence early, and the file does not load as it was written:
  `RenderedDocumentSplits` and `ReadsBackExactly` are equivalences, and a run keeps its promises on every load where what it
  writes has no such line (`LoadsKeep`, `ProseStays`, `LoadedApprovalTellsHistory`). A reason may hold one: it is only trimmed
  and bounded (internal/artifact/artifact.go:298-303, internal/artifact/approval.go:109-114). Where the encoder sets such a
  reason as an indented block, an approval for it goes through and is not read back: `FencedApprovalIsMisread`.
- A rejection that reaches the log and then fails leaves its proposal undecided, so the log can hold two decisions of one
  proposal: `TornThenRetried`. So can a record that is taken up while it still lists a proposal that was decided:
  `ListedThenApproved`. Nothing else can, and `SettledExactly` counts both.
- A creation in a lane is numbered past the proposals that are held (internal/chat/lane.go:231-243), so that one whose event
  reached the log and which was then reported failed leaves its id to the next creation of that turn. Two recorded events
  share an id exactly where that happens: `NamedOnceExactly`, by what the reply asked for and how its writes went.
- A process that ends between logging a rejection or creating an item and the save that follows leaves the record listing a
  proposal that is settled, and the next process can settle it again: `CarelessSettlesTwice`, and never without such a step:
  `SettledOnce`.
- A turn rebuilt for the conversation's own provider and then moved to the session the alternate holds goes there with its
  rebuild, past the budget it was judged by: `FitsExactly` says when this can be, by what is known before the turn.
- The failover puts a rebuild of the record in front of a turn it moves, and the measure is of the prompt without it
  (internal/chat/chat.go:1927): the measure is exact after a turn that began a session exactly when nothing was put in front
  of it, `BegunExactly`. A turn served by a provider that begins a session without naming it, while another's is held, leaves
  that other session under the wrong provider's name, and nothing else does: `TurnAccounted`; and `AccountedExactly` says when
  a turn can, by what is known before it.
- A citation is judged a byte at a time, each byte read as a character. That is not exact where the text around it is not
  ASCII: an em dash right after an identifier hides it. `CitesMeans` says what is read, `DashHidesACitation` that it differs.
- A cut merge fits its bound only where the note that says it was cut does: `BoundedSubstance` is an equivalence.
- The survey trims a status before it reads it and the queue does not, so an item whose stale status is offered for repair
  reads as startable already exactly where that status is `blocked` to the letter: `StatusRepairStartable`. That the tracker
  ever answers with another spelling is not shown.

## Model

| member | source | states |
|---|---|---|
| `ShellScan.SimpleCommands` | internal/beads/notesguard.go:144-219 | the index loop, with its look-ahead jumps, reads a line as the state machine `Commands` does one character at a time |
| `ShellScan.PrintedLineReadsBack` | internal/beads/notesguard.go:144-219 | any commands, each word quoted piece by piece singly, doubly, by backslashes or not at all where it can be, with any blanks between words and any of `;`, `&`, a pipe, a newline or a parenthesis between commands, print to a line that reads back as exactly them |
| `ShellScan.ScanComposes` | internal/beads/notesguard.go:144-219 | after a line with no quote open and no backslash pending, whatever holds a separator and is otherwise separators and blanks ends one reading and begins another |
| `ShellScan.Joined` | internal/beads/notesguard.go:144-219 | so do each of the six separators alone, `&&`, and two pipes, spaced or not |
| `ShellScan.ComposesExactlyWhenClosed` | internal/beads/notesguard.go:144-219 | and that is exactly when it does, for every line that could follow |
| `ShellScan.OpenLineSwallows` | internal/beads/notesguard.go:144-219 | a line left open changes how what follows it reads |
| `ShellScan.DoubleBackslashIsLiteral` | internal/beads/notesguard.go:163-180 | in double quotes a backslash before anything it cannot escape stays in the word |
| `Guards.NotesReplacement` | internal/beads/notesguard.go:95-125 | the loop over words, skipping values, reads what `NotesOf` does |
| `Guards.ReplacesExactly` | internal/beads/notesguard.go:87-125 | a command replaces notes exactly when it is an update by `bd` with a notes flag among its arguments |
| `Guards.InvokesBdExactly` | internal/beads/notesguard.go:129-131 | a word invokes `bd` exactly when it is a path whose last part is `bd` |
| `Guards.DestroyedAttribution` | internal/beads/notesguard.go:65-85 | refuses for the first command in the line that the notes rule refuses |
| `Guards.StatusMove` | internal/beads/statusguard.go:77-116 | the loop over words reads the item, the status and whether notes are appended as `StatusOf` does |
| `Guards.StatusFromSettings` | internal/beads/statusguard.go:77-116 | a move is a status set among the flags, and an account is notes appended among them, wherever they stand |
| `Guards.UnaccountedStatusMove` | internal/beads/statusguard.go:46-69 | refuses for the first command in the line that moves a status without an account |
| `Guards.NotesRefusedExactly` | internal/beads/notesguard.go:65-125 | a command is refused exactly when it runs `bd update` with `--notes` among its arguments and the notes it gives last carry no goal; and which notes are read and which item is named, by the words as they stand |
| `Guards.StatusRefusedExactly` | internal/beads/statusguard.go:46-140 | refused exactly when it runs `bd reopen`, or `bd update` with a status set and no note appended that is more than blanks; and which item and which status are named |
| `Guards.StatusVerdictIgnoresOrder` | internal/beads/statusguard.go:46-116 | reordering the flags of an update never changes the verdict |
| `Guards.PrefixCannotHide` | internal/beads/notesguard.go:65-85 | after a closed line, whatever joins them, either guard refuses the two together exactly as it refuses the first or else the second |
| `Guards.QuotingCannotHide` | internal/beads/notesguard.go:65-85 | however its words are quoted and spaced and its commands joined, a line is refused exactly when one of its commands is |
| `Artifacts.Ended` | internal/artifact/artifact.go:198-206 | nothing has ended exactly when no revision, at any place, ends it |
| `Artifacts.IdentifierExactly` | internal/domain/types.go:439-446 | an identifier is runs of lower-case letters and digits joined by single hyphens, the first opening with a letter, and nothing else is |
| `Artifacts.ApprovalProblems` | internal/artifact/approval.go:179-202 | no problem is found exactly when approvals are valid, strictly rising and of revisions there are |
| `Artifacts.InOrderStep` | internal/artifact/approval.go:179-202 | one more approval keeps them in order exactly when it is of a later revision than every one before |
| `References.ReachesTheBrief` | internal/artifact/references.go:136-155 | the worklist search ends on every graph, cycles included, and is true exactly when some chain of resolving references leads to a brief |
| `References.ReferenceProblems` | internal/artifact/references.go:92-128 | reports each artifact's unresolved references and then its being an orphan, in order |
| `References.ReportedExactlyOnce` | internal/artifact/references.go:92-128 | each distinct reference that does not resolve is reported once, and an orphan once exactly when no chain from it exists |
| `References.AddedArtifactBreaksNothing` | internal/artifact/references.go:92-155 | a freshly named artifact, wherever it is listed, gives an existing one no problem it did not have |
| `Documents.SplitDocument` | internal/artifact/store.go:684-697 | the scan for the closing fence finds the first line that trims to it |
| `Documents.SplitsExactly` | internal/artifact/store.go:684-697 | a document is metadata between its first line and the next that trims to three hyphens, and all that follows; one that does not open so, or has no such next line, is none |
| `Documents.MarkIsIgnored` | internal/artifact/store.go:684-697 | a byte-order mark before a document changes nothing of how it splits |
| `Documents.RenderedDocumentSplits` | internal/artifact/store.go:491-510 | a rendered document splits into its metadata and its body, character for character, exactly when no line of the metadata trims to the fence; where one does, its prose reads back longer |
| `Documents.ProseSurvivesRewrites` | internal/artifact/store.go:285-311 | any number of rewrites of the metadata leaves the body as it was |
| `Lifecycle.PathNamesId` | internal/artifact/store.go:582-585 | the path an identifier is written under reads back as that identifier |
| `Lifecycle.Find` | internal/artifact/store.go:368-404 | one document is found exactly where one alone claims the identifier |
| `Lifecycle.UnclaimedExactly` | internal/artifact/store.go:242-261 | a creation is let through exactly when no file answers to its identifier, readable or not |
| `Lifecycle.Store.LoadOne` | internal/artifact/store.go:368-404 | of the files as they load, the one that alone claims the identifier |
| `Lifecycle.Store.Put` | internal/artifact/store.go:468-484 | one file's text becomes the rendered artifact and prose and no other's changes, or nothing does where the artifact is not valid or the write fails |
| `Lifecycle.Store.Create` | internal/artifact/store.go:199-235 | the texts after a creation, and every refusal in its order |
| `Lifecycle.Store.Amend` | internal/artifact/store.go:267-312 | the texts after an amendment of the document as it loads, and every refusal in its order |
| `Lifecycle.Store.End` | internal/artifact/store.go:335-360 | the texts after an ending of the document as it loads, and every refusal in its order |
| `Lifecycle.Store.Supersede` | internal/artifact/store.go:325-327 | ends with the status and the action of being superseded |
| `Lifecycle.Store.Retire` | internal/artifact/store.go:329-331 | ends with the status and the action of being retired |
| `Lifecycle.Store.Approve` | internal/artifact/approval.go:255-286 | the texts after an approval of the revision that stands, and every refusal in its order |
| `LifecycleRuns.MutationStep` | internal/artifact/store.go:267-360 | a mutation that fails changes nothing, and one that does not changes one document, which grew by one revision by a role that may make it, or by one approval |
| `LifecycleRuns.CreationStep` | internal/artifact/store.go:199-235 | a creation that fails changes nothing, and one that does not adds one document nothing answered to |
| `LifecycleRuns.ChangeGrows` | internal/artifact/store.go:285-360 | no operation touches the identity, the kind or what either log already holds |
| `LifecycleRuns.StoresNameIds` | internal/artifact/store.go:409-451 | every valid artifact is filed under its own name |
| `LifecycleRuns.ReadsBackExactly` | internal/artifact/store.go:491-510 | what is written of an artifact loads as that artifact and that prose exactly when no line of its encoding trims to the fence |
| `LifecycleRuns.StoredLoads` | internal/artifact/store.go:468-510 | a write moves the files as they load, as it moves their texts, exactly when what it writes has no such line |
| `LifecycleRuns.FencedReason` | internal/artifact/artifact.go:281-305 | a reason that holds a fence on a line of its own is valid and is not changed by trimming |
| `LifecycleRuns.FencedApprovalIsMisread` | internal/artifact/approval.go:255-286 | where such a reason is set as an indented block, approving any document that may be approved goes through, and the file does not load as what was written: its prose is longer by what was left of the metadata |
| `LifecycleRuns.TextsLoadAsRun` | internal/artifact/store.go:75-150 | over every run that writes no such line, the texts load as the run of what they loaded as |
| `LifecycleRuns.LoadsKeep` | internal/artifact/store.go:75-150 | over every such run, from any texts: logs grow only by suffix, what has ended is frozen, and a store whose files all load under distinct identifiers stays one |
| `LifecycleRuns.NothingLoadsUnauthorized` | internal/artifact/ownership.go:140-168 | from an empty store, everything such a run wrote loads, and no revision of it was made by a role without the authority |
| `LifecycleRuns.WrittenByItsOwner` | internal/artifact/ownership.go:72-81 | where one role holds product mutation and another design mutation: of whatever a clean run from an empty store wrote, each revision of a brief, goals or non-goals is by the first, and of a design, specification or decision by the second |
| `LifecycleRuns.CreationRefused` | internal/artifact/ownership.go:107-126 | a creation is refused as unauthorized exactly for a kind of the six under any role but its own, and for its kind exactly where it is none of the six |
| `LifecycleRuns.ChangeRefused` | internal/artifact/ownership.go:107-126 | so is every change to a recorded document but an approval, which is the operator's |
| `LifecycleRuns.DraftValidExactly` | internal/artifact/artifact.go:208-305 | what makes a draft valid, field by field: identifier, kind, role, moment, title within 200 bytes, reason within 1024, at most 20 references, each an identifier and none its own |
| `LifecycleRuns.AmendmentValidExactly` | internal/artifact/artifact.go:208-305 | nothing but what it changes can make an amendment of a valid document invalid |
| `LifecycleRuns.EndingValidExactly` | internal/artifact/artifact.go:208-305 | an ending is invalid only for who makes it, when, or why |
| `LifecycleRuns.ApprovalValidExactly` | internal/artifact/approval.go:100-202 | an approval of a standing revision is invalid only for its moment or the length of its reason |
| `LifecycleRuns.PlaceExactly` | internal/artifact/store.go:409-451 | a document lands in a home or under one, not in an excluded directory nor under one, and never as an index |
| `LifecycleRuns.ProseStays` | internal/artifact/store.go:267-312 | such a run with no amendment of a body leaves the prose every file loads with as it was |
| `LifecycleRuns.LoadedApprovalTellsHistory` | internal/artifact/approval.go:139-171 | the approval state a file loads with, and how many revisions since, are what such a run's history says happened since the last approval |
| `WorkItems.ReadWaitingOn` | internal/beads/client.go:292-305 | the loop over dependencies gathers, and sorts, what `WaitingOn` names |
| `WorkItems.WaitingOnMeans` | internal/beads/client.go:292-305 | what an item waits on is in order, is each edge that holds it back once, and is nothing exactly where no edge does |
| `WorkItems.Waiting` | internal/beads/client.go:292-305 | nothing is waited on exactly when no dependency of a blocking kind names unfinished work |
| `WorkItems.DecomposedExactly` | internal/beads/client.go:237-255 | an item is broken out of the parent its own field names, or else of the one its first parent-child link does, or else of none |
| `StableOrders.Sorted` | internal/backlog/backlog.go:444-448 | a stable order of a list is in order and is all of it |
| `StableOrders.StableOrderIsUnique` | internal/backlog/backlog.go:444-448 | there is one stable order, so that whatever sorts stably sorts so |
| `StableOrders.FirstIsLeast` | internal/backlog/backlog.go:454-461 | the first wanted in the sorted list is the least by priority and then by place among all those wanted |
| `Backlog.Sort` | internal/backlog/backlog.go:444-448 | in place, the array becomes the stable order by priority of what it held |
| `Backlog.SelectAdmitted` | internal/backlog/backlog.go:351-367 | keeps the open and the blocked, sorted |
| `Backlog.Order` | internal/backlog/backlog.go:351-416 | one entry for each admitted item, in order |
| `Backlog.OrderIsStablePriority` | internal/backlog/backlog.go:351-416 | exactly the open and blocked items, by priority with ties in tracker order, at positions from one on |
| `Backlog.ReadyExactly` | internal/backlog/backlog.go:351-436 | an entry is ready exactly when nobody holds it, no unlanded parent is awaited, no executor and no parking is named, and it is reported ready or, where blocked, nothing blocks it and the holds were read |
| `Backlog.AwaitsExactly` | internal/backlog/backlog.go:499-504 | an entry awaits a person exactly when one holds it and no executor or parking is named, to decide or to carry out as the hold says |
| `Backlog.Next` | internal/backlog/backlog.go:454-461 | the first entry that is ready |
| `Backlog.NextIsLeast` | internal/backlog/backlog.go:454-461 | which is the ready item least by priority and then by tracker order, and none only when none is ready |
| `Backlog.EntryHolds` | internal/backlog/backlog.go:499-504 | a ready entry awaits nobody, and one with no other hold is unready only for holds that could not be read or for not being reported ready |
| `Backlog.Awaiting` | internal/backlog/backlog.go:520-528 | counts the entries held for a person, by whether what they await is a decision or its carrying out |
| `Backlog.AwaitingCountsAddUp` | internal/backlog/backlog.go:512-528 | the two counts together are all the entries held for a person |
| `Claim.Client.Claim` | internal/beads/client.go:866-875 | a claim, and past a refusal for a block, the calls `ClaimRun` makes |
| `Claim.Client.ClaimPastStaleBlock` | internal/beads/client.go:970-1024 | the reads, the one write and what follows, in that order and no other |
| `Claim.Client.ConfirmStaleBlockClear` | internal/beads/client.go:1030-1054 | the bounded loop of reads and waits after the write, and the account it gives |
| `Claim.Client.ClaimAfterClear` | internal/beads/client.go:999-1024 | the second claim follows only where the reads confirmed the write |
| `Claim.ClaimIsSafe` | internal/beads/client.go:866-1081 | against every tracker, whatever others change between calls: `open` is written at most once and only to an item just read as blocked with nothing waited on, the second claim comes only right after a read of `open`, and it ends within the bound |
| `Claim.ClaimEndsExactly` | internal/beads/client.go:866-1081 | a claim stops for a cause and no sooner, every answer on its log being the tracker's, and says the item is claimed exactly where its last call was a claim the tracker took |
| `Claim.AccountTellsReads` | internal/beads/client.go:1030-1054 | confirmed, confirmed late and unconfirmed are exactly the first read being open, a later one, and none of all the bound allows |
| `Claim.AfterClearIsSafe` | internal/beads/client.go:999-1054 | after the write there are reads and waits within the bound, and then at most one claim |
| `Claim.ReadyIsNeverRefusedForWaiting` | internal/backlog/backlog.go:431-436 | on one snapshot, a blocked item the queue calls ready is never refused a claim for waiting on anything |
| `Repair.Survey` | internal/backlogrepair/backlogrepair.go:203-223 | every item judged for every class, told apart by whether it is held |
| `Repair.SurveyExactly` | internal/backlogrepair/backlogrepair.go:203-360 | a survey repairs exactly what is stale about items nobody holds and tells exactly what is stale about the others: statuses, links and attributions, by what was read |
| `Repair.SurveyAndJudgeAgree` | internal/backlogrepair/backlogrepair.go:203-252 | on the same records a repair is offered exactly when naming it is accepted |
| `Repair.NeverHeldAndRepaired` | internal/backlogrepair/backlogrepair.go:203-223 | no item is both held and repaired |
| `Repair.DeadLinksMeans` | internal/backlogrepair/backlogrepair.go:331-360 | a link is offered for removal exactly when it blocks and something says its end is finished |
| `Repair.StatusRepairMeansBlockersClosed` | internal/backlogrepair/backlogrepair.go:289-326 | where what is recorded is true, a status repair is accepted only with every blocker closed |
| `Repair.StatusRepairStartable` | internal/backlogrepair/backlogrepair.go:289-302 | an item whose status repair is accepted can be started, by the queue's reading, exactly when its status is `blocked` to the letter |
| `Contract.RunResult.Record` | internal/backend/contract.go:306-352 | the in-place update of a result by one observation |
| `Contract.RecordAll` | internal/backend/contract.go:306-352 | recording a history one observation at a time leaves the closed form `After` of the history |
| `Contract.AfterOneMore` | internal/backend/contract.go:306-352 | the closed form of one observation more is one step from the closed form |
| `Contract.WhatStands` | internal/backend/contract.go:306-352 | what stands, by place in the history: a limit with nothing served after it; an overload, or an interruption with no overload, with nothing after it that clears them |
| `Contract.OverloadNeverTransient` | internal/backend/backend.go:331-337 | an overload and a transient failure never stand together |
| `Contract.OutageBesideFleeting` | internal/backend/backend.go:345-350 | an outage stands beside one of them exactly when one of them stands and there ever was an outage |
| `Contract.OutageThenOverload` | internal/backend/backend.go:345-350 | so the comment is false of an outage followed by an overload |
| `Wrap.WriteWords` | internal/artifacthome/artifacthome.go:265-282 | the loop over words writes the greedy breaking of them |
| `Wrap.WriteParagraph` | internal/artifacthome/artifacthome.go:265-282 | a blank line and the wrapped words of a text |
| `Wrap.GreedyBreaks` | internal/artifacthome/artifacthome.go:265-282 | the words are kept in order, and every line fits or is one word |
| `Wrap.GreedyIsOptimal` | internal/artifacthome/artifacthome.go:265-282 | no other such breaking has fewer lines |
| `Wrap.ParagraphExactly` | internal/artifacthome/artifacthome.go:260-282 | a paragraph is its words in order on lines within 79 bytes or of one wider word, as few as there can be |
| `Wrap.Readme` | internal/artifacthome/artifacthome.go:244-258 | the index of one home |
| `Wrap.GeneratedReadmeAnswers` | internal/artifacthome/artifacthome.go:359-374 | for any texts at all the generated index leaves no question unanswered, so that inspecting it calls it written |
| `Wrap.UnansweredExactly` | internal/artifacthome/artifacthome.go:359-374 | a question is left unanswered exactly where its words are not in the text |
| `Amendments.Pending` | internal/amendment/decision.go:227-236 | the proposals no record decides, in order |
| `Amendments.PendingMeans` | internal/amendment/decision.go:227-249 | pending for an owner is exactly owned by them, raised, and nowhere decided |
| `Amendments.DecisionStands` | internal/amendment/decision.go:216-223 | a decision never changes once recorded, whatever is appended |
| `Amendments.DecidedMeans` | internal/amendment/decision.go:216-223 | there is one exactly when some record decides that proposal |
| `Amendments.Session.Adopt` | internal/chat/chat.go:1028-1031 | what a record that was saved remembers is remembered after it is taken up, in the set as in the list |
| `Amendments.Session.MarkDelivered` | internal/chat/amendment.go:131-144 | the set and the durable list stay equal, duplicate-free and bounded; one already remembered is not marked again |
| `Amendments.Session.Deliver` | internal/chat/amendment.go:53-124 | shows the longest prefix of the undelivered that fits both bounds, marks exactly that, and counts the rest |
| `Amendments.MarkAgesOut` | internal/chat/amendment.go:131-144 | an identifier is marked again only after it has aged out of the list |
| `Amendments.RememberedIsDistinct` | internal/chat/amendment.go:131-144 | over every run of marks the list is duplicate-free and bounded |
| `Amendments.RemembersTheLast` | internal/chat/amendment.go:131-144 | what is remembered is the last 256 marks, or as many as there were |
| `Amendments.DeliveryMarksWhatItShowed` | internal/chat/amendment.go:53-144 | after a delivery what is remembered and was not before was shown, and everything shown is among the most recent |
| `Merge.Keep` | internal/agentcontext/merge.go:214-232 | the loop stops at the last character start within the room, so the cut ends on a character, and its bytes are a prefix of the text's |
| `Merge.Bounded` | internal/agentcontext/merge.go:214-232 | a text that fits is itself, one that does not is cut there and closed with its note, and the result fits exactly when the text or the note does |
| `Merge.BoundedSubstance` | internal/agentcontext/merge.go:214-232 | the same of a merge's substance, its bound and its note |
| `Merge.SubjectOf` | internal/agentcontext/merge.go:386-403 | a subject always fits its bound, and is the topic's line where that fits |
| `Merge.Side.Conclude` | internal/agentcontext/merge.go:140-171 | merges, then saves; a refusal or a failed merge changes nothing |
| `Merge.EndedWasMerged` | internal/agentcontext/merge.go:140-171 | in every schedule of attempts and failures: a stream recorded as ended has a stored revision naming it, gains no more, and all of a stream's revisions are of the memory named for it |
| `Merge.OneRevisionPerMerge` | internal/agentcontext/merge.go:140-171 | how many revisions a stream has: one if it ended, and one for each merge whose save did not land |
| `Codes.SomewhereAlone` | internal/admission/admission.go:223-230 | in any code where a word's characters stand for themselves, it stands alone among the codes exactly where it stands alone among the characters, as their first and last units tell |
| `Duplicates.Index` | internal/admission/admission.go:234-238 | the first occurrence from there on, or none |
| `Duplicates.Cites` | internal/admission/admission.go:231-247 | ends, and is true exactly when some occurrence, overlapping ones included, has no identifier byte on either side |
| `Duplicates.LastByte` | internal/admission/admission.go:258-265 | which characters' last bytes read as letters |
| `Duplicates.FirstByte` | internal/admission/admission.go:258-265 | which characters' first bytes do: every one outside ASCII but one block |
| `Duplicates.CitesMeans` | internal/admission/admission.go:226-247 | what it answers of an ASCII identifier in any text, in characters |
| `Duplicates.DashHidesACitation` | internal/admission/admission.go:226-247 | a citation followed by an em dash is not read as one |
| `Duplicates.BytesAreExactInAscii` | internal/admission/admission.go:226-247 | in a text of ASCII the bytes are exact |
| `Scopes.NewScope` | internal/admission/admission.go:283-301 | counts the titles that hold each word, and those that hold any |
| `Scopes.RarerWeighsMore` | internal/admission/admission.go:303-320 | a rarer word weighs more, so none outweighs one the backlog never used, and all weigh something once any title has words |
| `Scopes.WeighsExactly` | internal/admission/admission.go:307-309 | a word weighs the logarithm of how rare it is: the titles that have words and those that hold it, and one more, over the latter and one more |
| `Scopes.MeasuredOverBacklog` | internal/admission/admission.go:267-351 | by the weights the tracker's own titles give: what one of them contains, or is contained in, is its scope, and words none of them holds never make a match |
| `Scopes.MassOf` | internal/admission/admission.go:322-328 | the weight of some words, whichever order they come in |
| `Scopes.Same` | internal/admission/admission.go:335-351 | the answer is `SameScope`, whichever order the words come in |
| `Scopes.SameScopeExactly` | internal/admission/admission.go:335-351 | two titles carry one scope exactly when each has three telling words or more, both weigh something, and they share seven tenths of what one of them weighs |
| `Scopes.Symmetric` | internal/admission/admission.go:335-351 | the two titles may be exchanged |
| `Scopes.RatioAtMostOne` | internal/admission/admission.go:335-351 | the share is never more than the whole |
| `Scopes.ContainmentIsSameScope` | internal/admission/admission.go:330-351 | a title that says everything another of three or more words says is the same scope |
| `Scopes.ForeignWordsNeverMatch` | internal/admission/admission.go:311-351 | words the other title does not hold never make a match of a candidate of three words or more |
| `Scopes.ForeignWordMakesAMatch` | internal/admission/admission.go:335-339 | of a candidate of two they can |
| `Admission.AdmittedExactly` | internal/chat/admission.go:200-212 | nothing keeps work out exactly where the project admits on goals and the goal is approved, or asks per item and the class is exempt and the goal resolves |
| `Admission.AskedWhy` | internal/chat/admission.go:200-212 | why work is not let in, and why a proposal is put to the operator, for each policy, class and attribution |
| `Admission.BasisIsTheAuthority` | internal/chat/admission.go:319-325 | the basis named is the one that let the work in |
| `Ledger.Session.UndecidedProposals` | internal/chat/chat.go:3749-3761 | the undecided, in order, the oldest cut past the bound |
| `Ledger.Session.Record` | internal/chat/chat.go:3729-3743 | a save that lands leaves exactly those listed |
| `Ledger.Session.Emit` | internal/chat/chat.go:2585-2595 | appends, and saves only where the append went through |
| `Ledger.Session.RecordProposals` | internal/chat/chat.go:2393-2425 | each proposal logged before it is held, with what is asked about it, and all of it saved |
| `Ledger.Session.AwaitingDecision` | internal/chat/chat.go:2569-2581 | the entry of that id, where it is undecided |
| `Ledger.Session.CreateFromProposal` | internal/chat/chat.go:2315-2351 | an item created is decided before its event is logged; one the tracker refused changes nothing |
| `Ledger.Session.Approve` | internal/chat/chat.go:2275-2308 | the approval is logged before anything is created, and refused for a goal that does not resolve |
| `Ledger.Session.Reject` | internal/chat/chat.go:2356-2371 | decided only once its event went through |
| `Ledger.Session.AdmitOne` | internal/chat/chat.go:2531-2567 | judged again at that moment, logged with its basis, then created |
| `Ledger.Session.Admit` | internal/chat/chat.go:2479-2510 | every proposal is either made an item or left for the operator, and those left are named in order |
| `Ledger.Session.Adopt` | internal/chat/chat.go:1037-1048 | the record taken up: its turns, and what it lists, undecided |
| `Ledger.Session.Answer` | internal/chat/chat.go:1952-1981 | a turn is counted and the count saved before anything its reply proposes is given an id |
| `Ledger.Session.NextProposalId` | internal/chat/lane.go:231-243 | the place after the last of those held that the turn gave out |
| `Ledger.Session.ProposeLaneCreation` | internal/chat/lane.go:168-210 | numbered past what is held, logged, held only once its event and the save after it went through, and saved again |
| `Ledger.Session.PerformLane` | internal/chat/tracker.go:1276-1348 | every creation of a lane, one after another whatever became of those before, those the gate would refuse put to the operator |
| `LedgerRuns.CreatedWasAuthorized` | internal/chat/chat.go:2275-2371 | over every run, by one process or by several that take the record up at any point: what was created was approved or admitted before that, and recorded before that, as the same proposal |
| `LedgerRuns.AdmittedUnasked` | internal/chat/chat.go:2517-2567 | over every such run: what was admitted without asking resembled nothing when it was recorded and nothing was asked of it, nothing kept it out at that moment, and the basis recorded is the authority that let it in |
| `LedgerRuns.RunKeeps` | internal/chat/chat.go:2393-2425 | over every such run: ids are distinct and of turns the record counts, the record lists only what is held, and whatever is held was recorded |
| `LedgerRuns.SettledExactly` | internal/chat/chat.go:2315-2371 | over every such run, however its writes went: a proposal is settled once for each rejection of it that tore, once for each time the record was taken up still listing it decided, and at most once more; and the log never says more |
| `LedgerRuns.TornThenRetried` | internal/chat/chat.go:2356-2371 | a torn rejection asked for again is in the log twice |
| `LedgerRuns.ListedThenApproved` | internal/chat/chat.go:1037-1048 | a proposal already settled that the record still lists is settled again by taking the record up and approving it |
| `LedgerIds.NamedOnceExactly` | internal/chat/lane.go:231-243 | over every such run, no two recorded events share an id exactly when no reply had, after proposals that were all recorded, a lane creation that reached the log without being held and then another that reached it |
| `Admitting.AdmitsExactly` | internal/chat/chat.go:2479-2525 | with a tracker and every write going through: each proposal that nothing is asked about is made exactly where, by policy, class and goal, it is let in, in order, and every other is left for the operator, in order |
| `Admitting.ReplyAdmitsExactly` | internal/chat/chat.go:2393-2525 | so a whole reply puts in the queue exactly the proposals that resembled nothing and were let in, both when recorded and when made |
| `Admitting.LaneAsksExactly` | internal/chat/tracker.go:1361-1397 | a creation in a lane is put to the operator exactly where there is a tracker, its goal is not one nothing states, and it is not let in without asking |
| `Protocol.Session.constructor` | internal/chat/chat.go:951-1011 | the recorded conversation resumed, or the record replaced by a new one |
| `Protocol.Session.Adopt` | internal/chat/chat.go:1017-1068 | takes the record up, with what is undecided back on the table and undecided |
| `Protocol.Session.Record` | internal/chat/chat.go:3729-3779 | writes the newest of what is undecided, up to the bound |
| `Protocol.Session.Reload` | internal/chat/chat.go:1081-1109 | adopts the record of its own conversation, and ends where the record is of another |
| `Protocol.RunKeeps` | internal/chat/chat.go:2950-2982 | over every interleaving of every process: the holder is in the recorded conversation and holds the record it last read or wrote, and no id is given out twice |
| `Protocol.NoLostUpdate` | internal/chat/chat.go:1070-1109 | so whoever saves over the record read or wrote it last, and a displaced session never saves over the conversation that replaced it |
| `Protocol.RetakesExactly` | internal/chat/chat.go:1081-1109 | in every world there can be, a process that put the conversation down and comes back has it again exactly where the record is still of its conversation, and then as the record has it |
| `Protocol.ResumesExactly` | internal/chat/chat.go:963-973 | a process that opens the recorded conversation has it as the record does, and where there is none, or it has one of its own away, nothing changes |
| `Protocol.BeginsExactly` | internal/chat/chat.go:980-999 | a new conversation is had exactly where its first save is reported done, and replaces the record wherever that save landed |
| `Protocol.HandsOver` | internal/chat/chat.go:2950-2982 | whoever takes the conversation up next, the same process or another, finds the newest of what was waiting |
| `Protocol.TurnsAndRaises` | internal/chat/chat.go:1952-1981 | a saved turn is followed by ids of its own, in order, each waiting as it is given |
| `Protocol.MarksWhatItSettled` | internal/chat/chat.go:2275-2371 | what was settled and marked waits no more, and nothing else changes |
| `Protocol.SettledOnce` | internal/chat/chat.go:3339-3374 | over every interleaving with no careless step, no proposal or concern is settled twice |
| `Protocol.CarelessSettlesTwice` | internal/chat/chat.go:3530-3559 | any careless step can be followed to a second settling |
| `Protocol.OneList` | internal/chat/chat.go:3745-3779 | each orderly step of all the processes is one change of one list |
| `Protocol.VanishesOnlyByAge` | internal/chat/chat.go:3745-3779 | what vanishes from it was settled by that step, was older than the bound of others still waiting, or went with its conversation |
| `Protocol.ManyAreOne` | internal/chat/chat.go:2939-2982 | over every orderly interleaving the processes together are that one list |
| `Budget.Session.Compact` | internal/chat/compact.go:120-144 | the prompt behind the rebuilt record, and compacting; or, where it cannot be made or noted, neither |
| `Budget.Session.MeasureSession` | internal/chat/compact.go:154-162 | adds to a session resumed, and begins the measure of one begun |
| `Budget.Session.Land` | internal/chat/chat.go:1913-1952 | what a served attempt leaves on the record |
| `Budget.Session.Ask` | internal/chat/chat.go:1764-1852 | the loop of attempts: waits, the session set aside once, the rebuild halved once |
| `Budget.Session.TakeTurn` | internal/chat/chat.go:1590-1993 | the turn as `Took` has it, compacting no more when it is over |
| `Budget.TooMuchIsNotSent` | internal/chat/chat.go:1606-1608 | a turn of more than three mebibytes is not sent and changes nothing |
| `Budget.OwnResumesExactly` | internal/chat/compact.go:91-109 | the first request to the provider that holds the session carries it, and the turn's own prompt, exactly when what it measures, the system prompt and the prompt are within the budget; and otherwise carries none |
| `Budget.AlternateResumesExactly` | internal/chat/compact.go:91-109 | moved to the alternate that holds the session, the first request to it carries it exactly when there is that room |
| `Budget.CompactsExactly` | internal/chat/compact.go:91-144 | a session with no room is left: with the record rebuilt and the change noted, the turn begins a new one behind the rebuild; otherwise nothing is sent and the session stays |
| `Budget.FirstTurnGoesAlone` | internal/chat/chat.go:980-999 | a fresh conversation's first turn is sent as it is, with no session |
| `Budget.SetsAsideExactly` | internal/chat/chat.go:1764-1852 | refused as too long, a held session is set aside and the turn sent again behind a rebuild, and the record no longer has it |
| `Budget.AlternateSetsAsideExactly` | internal/chat/chat.go:1764-1852 | so is one the alternate holds, refused there |
| `Budget.ShrinksExactly` | internal/chat/chat.go:1764-1852 | refused with no session to set aside, a rebuild is halved, once |
| `Budget.BudgetHolds` | internal/chat/compact.go:91-109 | however its attempts go, whatever a turn sends on a resumed session was judged to fit beside its measure as the turn's own prompt, and never passes the budget by more than a turn may carry |
| `Budget.FitsExactly` | internal/modelfailover/modelfailover.go:487-507 | however its attempts may go, everything a turn sends on a resumed session fits the budget exactly when nothing is at risk beforehand: the alternate does not hold the session, or the turn is not tried on the conversation's own provider first, or what is rebuilt for it leaves room |
| `Budget.TurnAccounted` | internal/chat/chat.go:1913-1935 | after a turn the record still accounts for its session exactly unless the turn was served by a provider that began one without naming it while another's was held; and what the measure was not shown of it is exactly what the failover put in front of the turn that began it |
| `Budget.AccountedExactly` | internal/chat/chat.go:1913-1935 | however its attempts may go, the record accounts for its session after a turn exactly when it does not fit, is to be compacted, or finds no session held, or else every provider it may be tried on holds that session |
| `Budget.BegunExactly` | internal/chat/chat.go:1927 | after a turn that began a session and named it, the measure is exact exactly when nothing was put in front of it |
| `Budget.MeasureIsExact` | internal/chat/compact.go:146-174 | over every run, each turn under the options of the process that takes it, in which no turn begins a session without naming it while another's is held: the measure is exactly the prompts and replies of the session it measures but for what the failover put in front of the turn that began it; no session is resumed where it was not issued; none measured is compacted as unmeasured |
| `Budget.OnlySilenceIsUnmeasured` | internal/chat/compact.go:101-103 | a fresh session measures as unmeasured exactly when nothing was said in it |

## Left out

- Guards.DestroyedAttribution: the goals a note carries are a predicate, and the wording of a refusal is not modelled; nor is it for the other guard.
- Lifecycle.Store.Put: the file system, its symbolic links and its confined root write a file or fail; so does the bound on a file's size.
- Lifecycle.Store.LoadOne: resolving a path through the file system is a function of the path.
- LifecycleRuns.ProseStays: says nothing of an amendment that carries a body, which replaces it.
- LifecycleRuns.LoadsKeep: the encoder and the decoder of metadata are any two that undo each other on what is written; that the YAML of this repository does, and sets a reason of several lines as an indented block, is not shown.
- Backlog.Order: the regular expression for building on a parent's branch is a predicate, and so is what a landing awaits.
- Claim.Client.Claim: whether a refusal is for a block is an input rather than its wording matched, and the time the account spans is its number of reads.
- Repair.Survey: a directive in force and a divergent attribution are predicates of an item, and what a repair says of itself, and the order its dead links are listed in, are not modelled.
- Contract.RunResult.Record: the time a limit resets is a value, not a clock compared with one.
- Wrap.Readme: which homes a project has, and their texts, are parameters.
- Amendments.Session.Deliver: a proposal shown takes the bytes it is recorded as taking; its rendering is not modelled.
- Merge.Side.Conclude: a revision is the memory and the stream it names; leases, and what else bounds a conclusion, are an input.
- Duplicates.Cites: `strings.ToLower` is done before, for the identifier and the text alike.
- Scopes.Same: weights are real numbers, so nothing is said of rounding; a title is already the set of its distinctive words.
- Ledger.Session.CreateFromProposal: linking the created item to its dependencies comes after its event and changes nothing modelled; and a creation the tracker reports as failed made nothing, so that one it reports failed after it landed, and is then asked for again, is not counted.
- Ledger.Session.Emit: the sequence number an event takes is not modelled.
- Ledger.Session.RecordProposals: the raising and answering of concerns, which are numbered and recorded by the same steps, is modelled by `Protocol` alone.
- Ledger.Session.PerformLane: a creation refused for its own content or for a parent outside the lane records nothing and is left out of the list; so is every other action a reply asks of the tracker.
- Protocol.SettledOnce: the hold is an exclusive lock by its own contract; a session that was given none, and a run reported from underneath the prompt, are not modelled.
- Protocol.Session.Record: notices, the pending picture and delivered amendments ride on the same record and are not modelled with it.
- Budget.Session.TakeTurn: an answer that is only a provider's notice of being too long, unflagged, is taken as a refusal each time, where the second in one turn would be taken as an answer; an alternate model of the same provider is the same provider.
- Amendments.Session.Adopt: a mark lost with its process before a save is not among those it starts from, and its proposal is shown again.
- Budget.MeasureIsExact: supposes that a turn says something; `OnlySilenceIsUnmeasured` shows that to be needed.
- The loop of rounds one message takes: nothing in it bounds the rounds.
- Provider invocation, running processes, the tracker's command line, encodings of records, Git, and file system walks.
- Consoles, prompts, theming, rendered prose, help and the wording of errors.
- Look-ups and first-match lists: capabilities, authorities, registries, role contracts, coverage.
