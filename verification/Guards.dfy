/** The two guards that read an agent's shell line before it runs: internal/beads/notesguard.go and statusguard.go.

    `carries` stands for `goal.NamedIn`, which says whether replacement notes carry a goal through. */
module Guards {
  import opened Text
  import opened ShellScan

  const NOTES_FLAG := "--notes"
  const APPEND_FLAG := "--append-notes"
  const STATUS_FLAG := "--status"

  // ---- Which program a word runs ----

  function Slashed(word: string): (r: string)
    ensures |r| == |word|
  {
    seq(|word|, i requires 0 <= i < |word| => if word[i] == '\\' then '/' else word[i])
  }

  predicate InvokesBd(word: string) {
    Base(Slashed(word)) == "bd"
  }

  ghost predicate PathToBd(path: string, dir: string) {
    && dir + "bd" <= path
    && (dir == "" || dir[|dir| - 1] == '/')
    && forall i | |dir| + 2 <= i < |path| :: path[i] == '/'
  }

  /** `bd` stands at a place in the word, after nothing or a slash of either kind, and before nothing but slashes. */
  ghost predicate BdAt(word: string, at: nat) {
    && at + 2 <= |word| && word[at] == 'b' && word[at + 1] == 'd'
    && (at == 0 || word[at - 1] in {'/', '\\'})
    && forall i | at + 2 <= i < |word| :: word[i] in {'/', '\\'}
  }

  ghost predicate RunsBd(word: string) { exists at: nat :: BdAt(word, at) }

  /** A word runs the tracker exactly when it is `bd` or a path to it. */
  lemma InvokesBdExactly(word: string)
    ensures InvokesBd(word) <==> RunsBd(word)
  {
    if InvokesBd(word) {
      BdIsThere(word);
    }
    if at: nat :| BdAt(word, at) {
      PathOfBd(word, at);
      PathEndsInBd(Slashed(word), Slashed(word)[..at]);
    }
  }

  lemma BdIsThere(word: string)
    requires InvokesBd(word)
    ensures RunsBd(word)
  {
    var path := Slashed(word);
    var stripped := StripTrailingSlashes(path);
    BdEnds(stripped);
    forall i | |stripped| <= i < |word| ensures word[i] in {'/', '\\'} {
      assert path[i] == '/';
    }
    var at: nat := |stripped| - 2;
    assert path[at] == 'b' && path[at + 1] == 'd' && (at == 0 || path[at - 1] == '/');
    assert BdAt(word, at);
  }

  lemma BdEnds(stripped: string)
    requires AfterLastSlash(stripped) == "bd"
    ensures |stripped| >= 2 && stripped[|stripped| - 2] == 'b' && stripped[|stripped| - 1] == 'd'
    ensures |stripped| == 2 || stripped[|stripped| - 3] == '/'
  {
    var last := AfterLastSlash(stripped);
    assert stripped[|stripped| - 2..][0] == last[0] && stripped[|stripped| - 2..][1] == last[1];
  }

  lemma PathOfBd(word: string, at: nat)
    requires BdAt(word, at)
    ensures PathToBd(Slashed(word), Slashed(word)[..at])
  {
    var path := Slashed(word);
    assert path[..at + 2] == path[..at] + "bd";
  }

  lemma PathEndsInBd(path: string, dir: string)
    requires PathToBd(path, dir)
    ensures Base(path) == "bd"
  {
    var stripped := StripTrailingSlashes(path);
    assert (dir + "bd")[|dir| + 1] == 'd' && (dir + "bd")[|dir|] == 'b';
    assert |stripped| == |dir| + 2;
    assert stripped == dir + "bd";
    var base := AfterLastSlash(stripped);
    var start := |stripped| - |base|;
    assert forall i | start <= i < |stripped| :: stripped[i] == base[i - start] != '/';
    assert stripped[|dir|] == 'b' && stripped[|dir| + 1] == 'd';
    assert dir != "" ==> stripped[|dir| - 1] == '/';
    assert start == |dir|;
  }

  predicate BdCommand(words: seq<string>, verb: string) {
    |words| >= 2 && InvokesBd(words[0]) && words[1] == verb
  }

  // ---- The notes guard ----

  datatype NotesReading = NotesReading(item: string, notes: string, replacing: bool)

  function NotesFrom(args: seq<string>, r: NotesReading): NotesReading {
    if args == [] then r
    else if args[0] == NOTES_FLAG then
      if |args| > 1 then NotesFrom(args[2..], r.(notes := args[1], replacing := true)) else r.(replacing := true)
    else if NOTES_FLAG + "=" <= args[0] then
      NotesFrom(args[1..], r.(notes := args[0][|NOTES_FLAG| + 1..], replacing := true))
    else if "-" <= args[0] then NotesFrom(args[1..], r)
    else NotesFrom(args[1..], if r.item == "" then r.(item := args[0]) else r)
  }

  function NotesOf(words: seq<string>): NotesReading {
    if !BdCommand(words, "update") then NotesReading("", "", false) else
      var r := NotesFrom(words[2..], NotesReading("", "", false));
      if r.item == "" then r.(item := "<id>") else r
  }

  method NotesReplacement(words: seq<string>) returns (replaced: string, notes: string, replacing: bool)
    ensures NotesReading(replaced, notes, replacing) == NotesOf(words)
  {
    replaced, notes, replacing := "", "", false;
    if |words| < 2 || !InvokesBd(words[0]) || words[1] != "update" {
      return;
    }
    var index := 2;
    while index < |words|
      invariant 2 <= index <= |words|
      invariant NotesFrom(words[index..], NotesReading(replaced, notes, replacing))
             == NotesFrom(words[2..], NotesReading("", "", false))
    {
      var word := words[index];
      assert words[index..][1..] == words[index + 1..];
      if word == NOTES_FLAG {
        replacing := true;
        if index + 1 < |words| {
          assert words[index..][2..] == words[index + 2..];
          index := index + 1;
          notes := words[index];
        }
      } else if NOTES_FLAG + "=" <= word {
        notes, replacing := word[|NOTES_FLAG| + 1..], true;
      } else if "-" <= word {
      } else if replaced == "" {
        replaced := word;
      }
      index := index + 1;
    }
    if replaced == "" {
      replaced := "<id>";
    }
  }

  predicate IsNotesFlag(word: string) {
    word == NOTES_FLAG || NOTES_FLAG + "=" <= word
  }

  ghost predicate Any<T>(s: seq<T>, p: T -> bool) {
    exists x | x in s :: p(x)
  }

  lemma AnyHead<T>(s: seq<T>, p: T -> bool)
    requires s != []
    ensures Any(s, p) <==> p(s[0]) || Any(s[1..], p)
  {
    assert forall x :: x in s <==> x == s[0] || x in s[1..] by {
      assert s == [s[0]] + s[1..];
    }
  }

  lemma AnyPermutes<T>(a: seq<T>, b: seq<T>, p: T -> bool)
    requires multiset(a) == multiset(b)
    ensures Any(a, p) <==> Any(b, p)
  {
    assert forall x :: (x in a <==> x in multiset(a)) && (x in b <==> x in multiset(b));
  }

  lemma {:induction false} NotesFromReplaces(args: seq<string>, r: NotesReading)
    ensures NotesFrom(args, r).replacing <==> r.replacing || Any(args, IsNotesFlag)
    decreases |args|
  {
    if args != [] {
      AnyHead(args, IsNotesFlag);
      if args[0] == NOTES_FLAG {
        if |args| > 1 {
          NotesFromReplaces(args[2..], r.(notes := args[1], replacing := true));
        }
      } else if NOTES_FLAG + "=" <= args[0] {
        NotesFromReplaces(args[1..], r.(notes := args[0][|NOTES_FLAG| + 1..], replacing := true));
      } else {
        NotesFromReplaces(args[1..], if "-" <= args[0] || r.item != "" then r else r.(item := args[0]));
      }
    }
  }

  /** A command is a replacement of notes exactly when it is `bd update` with the flag somewhere among its arguments. */
  lemma ReplacesExactly(words: seq<string>)
    ensures NotesOf(words).replacing
       <==> BdCommand(words, "update") && Any(words[2..], IsNotesFlag)
  {
    if BdCommand(words, "update") {
      NotesFromReplaces(words[2..], NotesReading("", "", false));
    }
  }

  // ---- The status guard ----

  datatype StatusReading = StatusReading(item: string, status: string, appended: bool, moves: bool)

  /** What one argument of an update is to the status guard. */
  datatype Argument =
    | StatusFlag | StatusSet(status: string) | AppendFlag | NoteAppended(note: string) | OtherFlag | BareWord

  function Classify(word: string): Argument {
    if word == STATUS_FLAG then StatusFlag
    else if STATUS_FLAG + "=" <= word then StatusSet(word[|STATUS_FLAG| + 1..])
    else if word == APPEND_FLAG then AppendFlag
    else if APPEND_FLAG + "=" <= word then NoteAppended(word[|APPEND_FLAG| + 1..])
    else if "-" <= word then OtherFlag
    else BareWord
  }

  function StatusFrom(args: seq<string>, r: StatusReading): StatusReading {
    if args == [] then r else
      match Classify(args[0])
      case StatusFlag =>
        if |args| > 1 then StatusFrom(args[2..], r.(moves := true, status := args[1])) else r.(moves := true)
      case StatusSet(status) => StatusFrom(args[1..], r.(moves := true, status := status))
      case AppendFlag =>
        if |args| > 1 then StatusFrom(args[2..], r.(appended := r.appended || TrimSpace(args[1]) != "")) else r
      case NoteAppended(note) => StatusFrom(args[1..], r.(appended := r.appended || TrimSpace(note) != ""))
      case OtherFlag => StatusFrom(args[1..], r)
      case BareWord => StatusFrom(args[1..], if r.item == "" then r.(item := args[0]) else r)
  }

  function StatusOf(words: seq<string>): StatusReading {
    if !BdCommand(words, "update") then StatusReading("", "", false, false) else
      var r := StatusFrom(words[2..], StatusReading("", "", false, false));
      var named := if r.item == "" then r.(item := "<id>") else r;
      if named.status == "" then named.(status := "<status>") else named
  }

  /** The reading of what is left, by what its first word is. */
  lemma StatusFromAt(words: seq<string>, index: nat, r: StatusReading)
    requires index < |words|
    ensures index + 1 < |words| || words[index + 1..] == []
    ensures StatusFrom(words[index..], r) == match Classify(words[index])
      case StatusFlag =>
        if index + 1 < |words| then StatusFrom(words[index + 2..], r.(moves := true, status := words[index + 1]))
          else r.(moves := true)
      case StatusSet(status) => StatusFrom(words[index + 1..], r.(moves := true, status := status))
      case AppendFlag =>
        if index + 1 < |words| then
          StatusFrom(words[index + 2..], r.(appended := r.appended || TrimSpace(words[index + 1]) != ""))
        else r
      case NoteAppended(note) => StatusFrom(words[index + 1..], r.(appended := r.appended || TrimSpace(note) != ""))
      case OtherFlag => StatusFrom(words[index + 1..], r)
      case BareWord => StatusFrom(words[index + 1..], if r.item == "" then r.(item := words[index]) else r)
  {
    assert words[index..][1..] == words[index + 1..];
    if index + 1 < |words| {
      assert words[index..][2..] == words[index + 2..];
    }
  }

  method StatusMove(words: seq<string>) returns (moved: string, status: string, appended: bool, moves: bool)
    ensures StatusReading(moved, status, appended, moves) == StatusOf(words)
  {
    moved, status, appended, moves := "", "", false, false;
    if |words| < 2 || !InvokesBd(words[0]) || words[1] != "update" {
      return;
    }
    moved, status, appended, moves := ReadUpdate(words);
    moved := if moved == "" then "<id>" else moved;
    status := if status == "" then "<status>" else status;
  }

  /** The loop over an update's arguments, from nothing read. */
  method ReadUpdate(words: seq<string>) returns (moved: string, status: string, appended: bool, moves: bool)
    requires |words| >= 2
    ensures StatusReading(moved, status, appended, moves)
         == StatusFrom(words[2..], StatusReading("", "", false, false))
  {
    moved, status, appended, moves := "", "", false, false;
    var index := 2;
    while index < |words|
      invariant 2 <= index <= |words|
      invariant StatusFrom(words[index..], StatusReading(moved, status, appended, moves))
             == StatusFrom(words[2..], StatusReading("", "", false, false))
    {
      StatusFromAt(words, index, StatusReading(moved, status, appended, moves));
      match Classify(words[index]) {
        case StatusFlag =>
          moves := true;
          if index + 1 < |words| {
            index := index + 1;
            status := words[index];
          }
        case StatusSet(named) =>
          status, moves := named, true;
        case AppendFlag =>
          if index + 1 < |words| {
            index := index + 1;
            appended := appended || TrimSpace(words[index]) != "";
          }
        case NoteAppended(note) =>
          appended := appended || TrimSpace(note) != "";
        case OtherFlag =>
        case BareWord =>
          if moved == "" {
            moved := words[index];
          }
      }
      index := index + 1;
    }
  }

  function ReopenedItem(args: seq<string>): string {
    if args == [] then "<id>" else if !("-" <= args[0]) then args[0] else ReopenedItem(args[1..])
  }

  /** One setting an `update` reads: a two-word flag with its value, or a word that stands alone. */
  datatype Setting = Pair(flag: Argument, value: string) | Alone(argument: Argument)

  function Settings(args: seq<string>): seq<Setting> {
    if args == [] then [] else
      var argument := Classify(args[0]);
      if (argument.StatusFlag? || argument.AppendFlag?) && |args| > 1
        then [Pair(argument, args[1])] + Settings(args[2..])
      else [Alone(argument)] + Settings(args[1..])
  }

  predicate SetsStatus(s: Setting) {
    match s
    case Pair(flag, _) => flag.StatusFlag?
    case Alone(argument) => argument.StatusFlag? || argument.StatusSet?
  }

  predicate Accounts(s: Setting) {
    match s
    case Pair(flag, value) => flag.AppendFlag? && TrimSpace(value) != ""
    case Alone(argument) => argument.NoteAppended? && TrimSpace(argument.note) != ""
  }

  lemma {:induction false} StatusFromSettings(args: seq<string>, r: StatusReading)
    ensures StatusFrom(args, r).moves <==> r.moves || Any(Settings(args), SetsStatus)
    ensures StatusFrom(args, r).appended <==> r.appended || Any(Settings(args), Accounts)
    decreases |args|
  {
    if args != [] {
      AnyHead(Settings(args), SetsStatus);
      AnyHead(Settings(args), Accounts);
      match Classify(args[0])
      case StatusFlag =>
        if |args| > 1 {
          StatusFromSettings(args[2..], r.(moves := true, status := args[1]));
        } else {
          assert args[1..] == [];
        }
      case StatusSet(status) => StatusFromSettings(args[1..], r.(moves := true, status := status));
      case AppendFlag =>
        if |args| > 1 {
          StatusFromSettings(args[2..], r.(appended := r.appended || TrimSpace(args[1]) != ""));
        } else {
          assert args[1..] == [];
        }
      case NoteAppended(note) => StatusFromSettings(args[1..], r.(appended := r.appended || TrimSpace(note) != ""));
      case OtherFlag => StatusFromSettings(args[1..], r);
      case BareWord => StatusFromSettings(args[1..], if r.item == "" then r.(item := args[0]) else r);
    }
  }

  // ---- Refusals ----

  datatype Refusal = NotesReplaced(item: string) | Reopened(item: string) | StatusMoved(item: string, status: string)

  function NotesRefusal(words: seq<string>, carries: string -> bool): Option<Refusal> {
    var r := NotesOf(words);
    if r.replacing && !carries(r.notes) then Some(NotesReplaced(r.item)) else None
  }

  function StatusRefusal(words: seq<string>): Option<Refusal> {
    if BdCommand(words, "reopen") then Some(Reopened(ReopenedItem(words[2..]))) else
      var r := StatusOf(words);
      if r.moves && !r.appended then Some(StatusMoved(r.item, r.status)) else None
  }

  /** A guard's answer about a whole line is its answer about the first command it refuses. */
  function FirstRefusal(commands: seq<seq<string>>, rule: seq<string> -> Option<Refusal>): Option<Refusal> {
    if commands == [] then None
    else if rule(commands[0]).Some? then rule(commands[0])
    else FirstRefusal(commands[1..], rule)
  }

  lemma FirstRefusalOf(commands: seq<seq<string>>, index: nat, rule: seq<string> -> Option<Refusal>)
    requires index < |commands|
    ensures FirstRefusal(commands[index..], rule)
         == if rule(commands[index]).Some? then rule(commands[index]) else FirstRefusal(commands[index + 1..], rule)
  {
    assert commands[index..][1..] == commands[index + 1..];
  }

  method NotesVerdict(words: seq<string>, carries: string -> bool) returns (refusal: Option<Refusal>)
    ensures refusal == NotesRefusal(words, carries)
  {
    var replaced, notes, replacing := NotesReplacement(words);
    refusal := if replacing && !carries(notes) then Some(NotesReplaced(replaced)) else None;
  }

  method DestroyedAttribution(command: string, carries: string -> bool) returns (refusal: Option<Refusal>)
    ensures refusal == FirstRefusal(Commands(command), words => NotesRefusal(words, carries))
  {
    var commands := SimpleCommands(command);
    ghost var rule := words => NotesRefusal(words, carries);
    var index := 0;
    while index < |commands|
      invariant 0 <= index <= |commands| && FirstRefusal(commands[index..], rule) == FirstRefusal(commands, rule)
    {
      FirstRefusalOf(commands, index, rule);
      refusal := NotesVerdict(commands[index], carries);
      if refusal.Some? {
        return;
      }
      index := index + 1;
    }
    return None;
  }

  method UnaccountedStatusMove(command: string) returns (refusal: Option<Refusal>)
    ensures refusal == FirstRefusal(Commands(command), StatusRefusal)
  {
    var commands := SimpleCommands(command);
    var index := 0;
    while index < |commands|
      invariant 0 <= index <= |commands|
      invariant FirstRefusal(commands[index..], StatusRefusal) == FirstRefusal(commands, StatusRefusal)
    {
      assert commands[index..][1..] == commands[index + 1..];
      if BdCommand(commands[index], "reopen") {
        return Some(Reopened(ReopenedItem(commands[index][2..])));
      }
      var moved, status, appended, moves := StatusMove(commands[index]);
      if moves && !appended {
        return Some(StatusMoved(moved, status));
      }
      index := index + 1;
    }
    return None;
  }

  lemma {:induction false} FirstRefusalConcat(a: seq<seq<string>>, b: seq<seq<string>>,
                                              rule: seq<string> -> Option<Refusal>)
    ensures FirstRefusal(a + b, rule) == if FirstRefusal(a, rule).Some? then FirstRefusal(a, rule)
        else FirstRefusal(b, rule)
    decreases |a|
  {
    if a == [] {
      assert a + b == b;
    } else {
      assert (a + b)[1..] == a[1..] + b;
      FirstRefusalConcat(a[1..], b, rule);
    }
  }

  /** A closed prefix hides nothing, whatever joins them: whichever part would be refused alone is refused in the whole
      line. */
  lemma PrefixCannotHide(a: string, join: string, b: string, rule: seq<string> -> Option<Refusal>)
    requires Closed(a) && Joins(join)
    ensures FirstRefusal(Commands(a + join + b), rule)
         == if FirstRefusal(Commands(a), rule).Some? then FirstRefusal(Commands(a), rule)
           else FirstRefusal(Commands(b), rule)
  {
    ScanComposes(a, join, b);
    FirstRefusalConcat(Commands(a), Commands(b), rule);
  }

  /** Nor does spelling: a line is refused for exactly the commands it means. */
  lemma QuotingCannotHide(line: seq<Clause>, rule: seq<string> -> Option<Refusal>)
    requires Spelled(line)
    ensures FirstRefusal(Commands(PrintLine(line)), rule).Some?
       <==> exists i | 0 <= i < |line| :: rule(Texts(line[i].words)).Some?
  {
    PrintedLineReadsBack(line);
    FirstRefusalExists(AllTexts(line), rule);
    TextsOfEach(line);
  }

  lemma {:induction false} TextsOfEach(line: seq<Clause>)
    ensures |AllTexts(line)| == |line|
    ensures forall i | 0 <= i < |line| :: AllTexts(line)[i] == Texts(line[i].words)
    decreases |line|
  {
    if line != [] {
      TextsOfEach(line[..|line| - 1]);
    }
  }

  lemma {:induction false} FirstRefusalExists(commands: seq<seq<string>>, rule: seq<string> -> Option<Refusal>)
    ensures FirstRefusal(commands, rule).Some? <==> exists i | 0 <= i < |commands| :: rule(commands[i]).Some?
    decreases |commands|
  {
    if commands != [] && rule(commands[0]).None? {
      FirstRefusalExists(commands[1..], rule);
      assert forall i | 0 < i < |commands| :: commands[i] == commands[1..][i - 1];
    }
  }

  /** The order of an update's settings never decides the verdict, so long as each two-word flag keeps its value. */
  lemma StatusVerdictIgnoresOrder(words: seq<string>, reordered: seq<string>)
    requires |words| >= 2 && |reordered| >= 2 && words[..2] == reordered[..2]
    requires words[1] == "update"
    requires multiset(Settings(words[2..])) == multiset(Settings(reordered[2..]))
    ensures StatusRefusal(words).Some? <==> StatusRefusal(reordered).Some?
  {
    assert words[0] == words[..2][0] == reordered[..2][0] == reordered[0];
    assert reordered[1] == reordered[..2][1] == words[..2][1] == words[1];
    AnyPermutes(Settings(words[2..]), Settings(reordered[2..]), SetsStatus);
    AnyPermutes(Settings(words[2..]), Settings(reordered[2..]), Accounts);
    StatusFromSettings(words[2..], StatusReading("", "", false, false));
    StatusFromSettings(reordered[2..], StatusReading("", "", false, false));
  }

  // ---- What each guard refuses, by the words as they stand ----

  /** The argument before is a flag that takes this one as its value. */
  predicate Taken(args: seq<string>, i: nat, takes: set<string>)
    requires i < |args|
  {
    i > 0 && args[i - 1] in takes && !Taken(args, i - 1, takes)
  }

  /** An argument that is read for itself. */
  predicate Read(args: seq<string>, i: int, takes: set<string>) { 0 <= i < |args| && !Taken(args, i, takes) }

  /** What a flag gives at a place, as its own word or after an equals sign; one that ends the line gives nothing. */
  function Given(args: seq<string>, i: nat, flag: string): Option<string>
    requires i < |args|
  {
    if args[i] == flag then if i + 1 < |args| then Some(args[i + 1]) else None
    else if flag + "=" <= args[i] then Some(args[i][|flag| + 1..])
    else None
  }

  /** The last the arguments give by a flag, from a place on, or what there was before. */
  ghost predicate LastGiven(args: seq<string>, from: nat, flag: string, takes: set<string>, before: string,
                            value: string)
  {
    || (value == before && forall i | from <= i < |args| && Read(args, i, takes) :: Given(args, i, flag).None?)
    || exists i | from <= i < |args| ::
         && Read(args, i, takes) && Given(args, i, flag) == Some(value)
         && forall j | i < j < |args| && Read(args, j, takes) :: Given(args, j, flag).None?
  }

  predicate NamesItem(args: seq<string>, i: int, takes: set<string>) {
    Read(args, i, takes) && args[i] != "" && args[i][0] != '-'
  }

  /** The first argument that is not a flag, from a place on, where none was read before. */
  ghost predicate FirstItem(args: seq<string>, from: nat, takes: set<string>, before: string, item: string) {
    if before != "" then item == before
    else
      || (item == "" && forall i | from <= i < |args| :: !NamesItem(args, i, takes))
      || exists i | from <= i < |args| ::
           NamesItem(args, i, takes) && item == args[i] && forall j | from <= j < i :: !NamesItem(args, j, takes)
  }

  /** Some argument read for itself, from a place on, is of a kind. */
  ghost predicate SomeRead(args: seq<string>, from: nat, takes: set<string>, kind: (seq<string>, int) -> bool) {
    exists i | from <= i < |args| :: Read(args, i, takes) && kind(args, i)
  }

  /** Where the next argument read for itself stands. */
  function Next(args: seq<string>, from: nat, takes: set<string>): nat
    requires from < |args|
  {
    if args[from] in takes && from + 1 < |args| then from + 2 else from + 1
  }

  lemma NextReads(args: seq<string>, from: nat, takes: set<string>)
    requires Read(args, from, takes)
    ensures var next := Next(args, from, takes); next == |args| || Read(args, next, takes)
    ensures forall i | from < i < Next(args, from, takes) :: !Read(args, i, takes)
  {
    if from + 1 < |args| {
      assert Taken(args, from + 1, takes) <==> args[from] in takes;
    }
    if from + 2 < |args| && args[from] in takes {
      assert !Taken(args, from + 2, takes);
    }
  }

  lemma LastGivenNext(args: seq<string>, from: nat, flag: string, takes: set<string>, before: string, value: string)
    requires Read(args, from, takes)
    requires LastGiven(args, Next(args, from, takes), flag, takes,
               if Given(args, from, flag).Some? then Given(args, from, flag).value else before, value)
    ensures LastGiven(args, from, flag, takes, before, value)
  {
    NextReads(args, from, takes);
  }

  lemma FirstItemNext(args: seq<string>, from: nat, takes: set<string>, before: string, item: string)
    requires Read(args, from, takes)
    requires FirstItem(args, Next(args, from, takes), takes,
               if before == "" && NamesItem(args, from, takes) then args[from] else before, item)
    ensures FirstItem(args, from, takes, before, item)
  {
    NextReads(args, from, takes);
  }

  lemma SomeReadNext(args: seq<string>, from: nat, takes: set<string>, kind: (seq<string>, int) -> bool)
    requires Read(args, from, takes)
    ensures SomeRead(args, from, takes, kind)
       <==> kind(args, from) || SomeRead(args, Next(args, from, takes), takes, kind)
  {
    NextReads(args, from, takes);
  }

  lemma {:induction false} NotesFromTells(args: seq<string>, from: nat, r: NotesReading)
    requires from == |args| || Read(args, from, {"--notes"})
    ensures var read := NotesFrom(args[from..], r);
      && LastGiven(args, from, "--notes", {"--notes"}, r.notes, read.notes)
      && FirstItem(args, from, {"--notes"}, r.item, read.item)
    decreases |args| - from
  {
    if from < |args| {
      var next := Next(args, from, {"--notes"});
      var given := Given(args, from, "--notes");
      var here := r.(
        notes := if given.Some? then given.value else r.notes,
        replacing := r.replacing || IsNotesFlag(args[from]),
        item := if r.item == "" && NamesItem(args, from, {"--notes"}) then args[from] else r.item);
      NextReads(args, from, {"--notes"});
      assert args[from..][1..] == args[from + 1..];
      if next == from + 2 {
        assert args[from..][2..] == args[from + 2..];
      }
      assert NotesFrom(args[from..], r) == NotesFrom(args[next..], here);
      NotesFromTells(args, next, here);
      LastGivenNext(args, from, "--notes", {"--notes"}, r.notes, NotesFrom(args[from..], r).notes);
      FirstItemNext(args, from, {"--notes"}, r.item, NotesFrom(args[from..], r).item);
    }
  }

  /** A command that runs the tracker with a verb. */
  ghost predicate RunsVerb(words: seq<string>, verb: string) {
    |words| >= 2 && RunsBd(words[0]) && words[1] == verb
  }

  /** The item a refusal names, for the item that was read. */
  function Named(item: string): string { if item == "" then "<id>" else item }

  /** Among the arguments there is the flag. */
  predicate ReplacesNotes(words: seq<string>) {
    exists i | 2 <= i < |words| :: words[i] == "--notes" || "--notes=" <= words[i]
  }

  /** The notes guard refuses an update by `bd` that has `--notes` among its arguments, unless the notes it gives last
      carry a goal; and it names the first argument that is not a flag. */
  lemma NotesRefusedExactly(words: seq<string>, carries: string -> bool) returns (notes: string, item: string)
    ensures |words| >= 2 ==>
      && LastGiven(words[2..], 0, "--notes", {"--notes"}, "", notes)
      && FirstItem(words[2..], 0, {"--notes"}, "", item)
    ensures NotesRefusal(words, carries)
         == if RunsVerb(words, "update") && ReplacesNotes(words) && !carries(notes)
            then Some(NotesReplaced(Named(item))) else None
  {
    notes, item := "", "";
    if |words| >= 2 {
      InvokesBdExactly(words[0]);
      var args := words[2..];
      var read := NotesFrom(args, NotesReading("", "", false));
      assert args[0..] == args;
      NotesFromTells(args, 0, NotesReading("", "", false));
      notes, item := read.notes, read.item;
      ReplacesExactly(words);
      if i :| 2 <= i < |words| && (words[i] == "--notes" || "--notes=" <= words[i]) {
        assert args[i - 2] == words[i] && IsNotesFlag(words[i]);
      }
      if Any(args, IsNotesFlag) {
        var x :| x in args && IsNotesFlag(x);
        var k :| 0 <= k < |args| && args[k] == x;
        assert words[k + 2] == x;
      }
    }
  }

  /** A status set at a place. */
  predicate SetsAt(args: seq<string>, i: int) {
    0 <= i < |args| && (args[i] == "--status" || "--status=" <= args[i])
  }

  /** An account given at a place that is more than blanks. */
  predicate AccountAt(args: seq<string>, i: int) {
    && 0 <= i < |args| && Given(args, i, "--append-notes").Some?
    && TrimSpace(Given(args, i, "--append-notes").value) != ""
  }

  lemma {:induction false} StatusFromTells(args: seq<string>, from: nat, r: StatusReading)
    requires from == |args| || Read(args, from, {"--status", "--append-notes"})
    ensures var read, takes := StatusFrom(args[from..], r), {"--status", "--append-notes"};
      && LastGiven(args, from, "--status", takes, r.status, read.status)
      && FirstItem(args, from, takes, r.item, read.item)
      && (read.moves <==> r.moves || SomeRead(args, from, takes, SetsAt))
      && (read.appended <==> r.appended || SomeRead(args, from, takes, AccountAt))
    decreases |args| - from
  {
    if from < |args| {
      var takes := {"--status", "--append-notes"};
      var next := Next(args, from, takes);
      var given := Given(args, from, "--status");
      var here := StatusReading(
        if r.item == "" && NamesItem(args, from, takes) then args[from] else r.item,
        if given.Some? then given.value else r.status,
        r.appended || AccountAt(args, from),
        r.moves || SetsAt(args, from));
      NextReads(args, from, takes);
      StatusFromHere(args, from, r, here);
      StatusFromTells(args, next, here);
      var read := StatusFrom(args[from..], r);
      LastGivenNext(args, from, "--status", takes, r.status, read.status);
      FirstItemNext(args, from, takes, r.item, read.item);
      SomeReadNext(args, from, takes, SetsAt);
      SomeReadNext(args, from, takes, AccountAt);
    }
  }

  lemma StatusFromHere(args: seq<string>, from: nat, r: StatusReading, here: StatusReading)
    requires var takes := {"--status", "--append-notes"}; Read(args, from, takes) && here == StatusReading(
      if r.item == "" && NamesItem(args, from, takes) then args[from] else r.item,
      if Given(args, from, "--status").Some? then Given(args, from, "--status").value else r.status,
      r.appended || AccountAt(args, from),
      r.moves || SetsAt(args, from))
    ensures StatusFrom(args[from..], r)
         == StatusFrom(args[Next(args, from, {"--status", "--append-notes"})..], here)
  {
    StatusFromAt(args, from, r);
    FlagsDiffer(args[from]);
  }

  lemma FlagsDiffer(word: string)
    ensures word == "--status" || "--status=" <= word ==> word != "--append-notes" && !("--append-notes=" <= word)
    ensures "-" <= word <==> word != "" && word[0] == '-'
    ensures !("--status=" <= "--status") && !("--append-notes=" <= "--append-notes")
  {
    assert "--status"[2] == 's' && "--append-notes"[2] == 'a';
    assert "--status="[2] == 's' && "--append-notes="[2] == 'a';
  }

  /** The status guard refuses a reopening by `bd`, and an update that sets a status and gives no account that is more
      than blanks; each naming what it is about. */
  lemma StatusRefusedExactly(words: seq<string>) returns (item: string, status: string)
    ensures RunsVerb(words, "update") ==>
      && FirstItem(words[2..], 0, {"--status", "--append-notes"}, "", item)
      && LastGiven(words[2..], 0, "--status", {"--status", "--append-notes"}, "", status)
    ensures RunsVerb(words, "reopen") ==>
      && (forall i | ReopensAt(words, i) :: item == words[i])
      && ((forall i :: !ReopensAt(words, i)) ==> item == "<id>")
    ensures StatusRefusal(words) ==
      if RunsVerb(words, "reopen") then Some(Reopened(item))
      else if RunsVerb(words, "update") && SomeRead(words[2..], 0, {"--status", "--append-notes"}, SetsAt)
        && !SomeRead(words[2..], 0, {"--status", "--append-notes"}, AccountAt)
      then Some(StatusMoved(Named(item), if status == "" then "<status>" else status))
      else None
  {
    item, status := "", "";
    if |words| >= 2 {
      InvokesBdExactly(words[0]);
      var args := words[2..];
      assert args[0..] == args;
      if words[1] == "reopen" {
        item := ReopenedItem(args);
        ReopensFirst(words, 2);
      } else {
        var read := StatusFrom(args, StatusReading("", "", false, false));
        StatusFromTells(args, 0, StatusReading("", "", false, false));
        item, status := read.item, read.status;
      }
    }
  }

  /** The first argument of a reopening that is not a flag. */
  predicate ReopensAt(words: seq<string>, i: int) {
    2 <= i < |words| && !("-" <= words[i]) && forall j | 2 <= j < i :: "-" <= words[j]
  }

  lemma {:induction false} ReopensFirst(words: seq<string>, from: nat)
    requires 2 <= from <= |words| && forall j | 2 <= j < from :: "-" <= words[j]
    ensures forall i | ReopensAt(words, i) :: ReopenedItem(words[from..]) == words[i]
    ensures (forall i :: !ReopensAt(words, i)) ==> ReopenedItem(words[from..]) == "<id>"
    decreases |words| - from
  {
    if from < |words| {
      assert words[from..][0] == words[from] && words[from..][1..] == words[from + 1..];
      if "-" <= words[from] {
        ReopensFirst(words, from + 1);
      } else {
        assert ReopensAt(words, from);
      }
    }
  }
}
