/** Claiming an item past a stale blocked status, against a tracker others may change between any two calls:
    `Claim`, `claimPastStaleBlock` and `confirmStaleBlockClear` in internal/beads/client.go. */
module Claim {
  import opened Text
  import opened WorkItems
  import opened Backlog
  import opened StableOrders

  /** What the claim reads off an item: its status, and whether it waits on any of the work listed as unfinished. */
  datatype Reader = Reader(isOpen: WorkItem -> bool, isBlocked: WorkItem -> bool,
                           waits: (WorkItem, seq<WorkItem>) -> bool)

  const TRACKER := Reader(
    (item: WorkItem) => item.status == OPEN,
    (item: WorkItem) => item.status == BLOCKED,
    (item: WorkItem, unfinished: seq<WorkItem>) => WaitingOn(item, Ids(unfinished)) != [])

  /** How the tracker answers a claim: the item, its refusal for a status of blocked, or any other failure. */
  datatype ClaimReply = Taken(item: WorkItem) | StaleRefusal | OtherFailure

  datatype Listing = OpenItems | BlockedItems

  /** What the tracker, and the clock, would answer each kind of call made as the n-th. Nothing is assumed of it. */
  datatype World = World(
    show: nat -> Option<WorkItem>, list: (nat, Listing) -> Option<seq<WorkItem>>, write: nat -> bool,
    claim: nat -> ClaimReply, wait: nat -> bool)

  /** One call and its answer. */
  datatype Call =
    | Show(shown: Option<WorkItem>) | List(listing: Listing, listed: Option<seq<WorkItem>>)
    | SetOpen(wrote: bool) | AppendNote(wrote: bool) | TryClaim(reply: ClaimReply) | Wait(waited: bool)

  datatype ClearOutcome = Confirmed | ConfirmedLate | Unconfirmed

  /** `last` is the item as the last read found it, which carries the status the account reports. */
  datatype Account = Account(outcome: ClearOutcome, tries: nat, last: Option<WorkItem>)

  const UNREAD := Account(Unconfirmed, 0, None)

  datatype Result = Claimed(item: WorkItem, account: Option<Account>) | NotClaimed(account: Option<Account>)

  const REFUSED := NotClaimed(None)

  const DEFAULT_READS := 5

  /** `settled`: a bound nobody set is the default one. */
  function Settled(bound: int): (most: nat)
    ensures most > 0
  {
    if bound < 1 then DEFAULT_READS else bound
  }

  // ---- What the calls are: each function carries on the log it is given ----

  datatype Reading = Reading(log: seq<Call>, account: Account, failed: bool)

  function ReadBack(world: World, isOpen: WorkItem -> bool, log: seq<Call>, attempt: nat, bound: nat,
                    account: Account): Reading
    requires 1 <= attempt <= bound + 1
    decreases bound + 1 - attempt
  {
    if attempt > bound then Reading(log, account, false) else
      var waited := attempt == 1 || world.wait(|log|);
      var before := if attempt > 1 then log + [Wait(waited)] else log;
      if !waited then Reading(before, account, true) else
        var shown := world.show(|before|);
        var after := before + [Show(shown)];
        if shown.None? then Reading(after, account, true)
        else if isOpen(shown.value) then
          Reading(after, Account(if attempt > 1 then ConfirmedLate else Confirmed, attempt, shown), false)
        else ReadBack(world, isOpen, after, attempt + 1, bound, Account(Unconfirmed, attempt, shown))
  }

  datatype Run = Run(log: seq<Call>, result: Result)

  function AfterClear(world: World, reader: Reader, log: seq<Call>, bound: nat): Run {
    var r := ReadBack(world, reader.isOpen, log, 1, bound, UNREAD);
    if r.failed then Run(r.log, NotClaimed(Some(r.account)))
    else if r.account.outcome == Unconfirmed then
      Run(r.log + [AppendNote(world.write(|r.log|))], NotClaimed(Some(r.account)))
    else
      var reply := world.claim(|r.log|);
      Run(r.log + [TryClaim(reply)],
          if reply.Taken? then Claimed(reply.item, Some(r.account)) else NotClaimed(Some(r.account)))
  }

  function Cleared(world: World, reader: Reader, log: seq<Call>, bound: nat): Run {
    var wrote := world.write(|log|);
    if wrote then AfterClear(world, reader, log + [SetOpen(wrote)], bound) else Run(log + [SetOpen(wrote)], REFUSED)
  }

  function PastStaleBlock(world: World, reader: Reader, log: seq<Call>, bound: nat): Run {
    var shown := world.show(|log|);
    var one := log + [Show(shown)];
    if shown.None? || !reader.isBlocked(shown.value) then Run(one, REFUSED) else
      var open := world.list(|one|, OpenItems);
      var two := one + [List(OpenItems, open)];
      if open.None? then Run(two, REFUSED) else
        var blocked := world.list(|two|, BlockedItems);
        var three := two + [List(BlockedItems, blocked)];
        if blocked.None? || reader.waits(shown.value, open.value + blocked.value) then Run(three, REFUSED)
        else Cleared(world, reader, three, bound)
  }

  function ClaimRun(world: World, reader: Reader, log: seq<Call>, bound: nat): Run {
    var reply := world.claim(|log|);
    var one := log + [TryClaim(reply)];
    match reply
    case Taken(item) => Run(one, Claimed(item, None))
    case OtherFailure => Run(one, REFUSED)
    case StaleRefusal => PastStaleBlock(world, reader, one, bound)
  }

  // ---- The client ----

  class Client {
    const world: World
    const reader: Reader
    const bound: int
    /** Every call made, with its answer. */
    var calls: seq<Call>

    constructor (world: World, bound: int)
      ensures this.world == world && reader == TRACKER && this.bound == bound && calls == []
    {
      this.world, this.reader, this.bound, calls := world, TRACKER, bound, [];
    }

    method ShowItem() returns (shown: Option<WorkItem>)
      modifies this`calls
      ensures shown == world.show(|old(calls)|) && calls == old(calls) + [Show(shown)]
    {
      shown := world.show(|calls|);
      calls := calls + [Show(shown)];
    }

    method ListItems(listing: Listing) returns (listed: Option<seq<WorkItem>>)
      modifies this`calls
      ensures listed == world.list(|old(calls)|, listing) && calls == old(calls) + [List(listing, listed)]
    {
      listed := world.list(|calls|, listing);
      calls := calls + [List(listing, listed)];
    }

    method TakeItem() returns (reply: ClaimReply)
      modifies this`calls
      ensures reply == world.claim(|old(calls)|) && calls == old(calls) + [TryClaim(reply)]
    {
      reply := world.claim(|calls|);
      calls := calls + [TryClaim(reply)];
    }

    /** The status read back after the clear was written, until a read returns open or the bound is spent. */
    method ConfirmStaleBlockClear() returns (account: Account, failed: bool)
      modifies this`calls
      ensures Reading(calls, account, failed) == ReadBack(world, reader.isOpen, old(calls), 1, Settled(bound), UNREAD)
    {
      var most := Settled(bound);
      account := UNREAD;
      var attempt := 1;
      while attempt <= most
        invariant 1 <= attempt <= most + 1
        invariant ReadBack(world, reader.isOpen, calls, attempt, most, account)
               == ReadBack(world, reader.isOpen, old(calls), 1, most, UNREAD)
      {
        if attempt > 1 {
          var waited := world.wait(|calls|);
          calls := calls + [Wait(waited)];
          if !waited {
            return account, true;
          }
        }
        var shown := ShowItem();
        if shown.None? {
          return account, true;
        }
        account := Account(Unconfirmed, attempt, shown);
        if reader.isOpen(shown.value) {
          account := account.(outcome := Confirmed);
          if attempt > 1 {
            account := account.(outcome := ConfirmedLate);
          }
          return account, false;
        }
        attempt := attempt + 1;
      }
      return account, false;
    }

    /** From the write on: what the read-back found decides between the claim and the note that it was not confirmed. */
    method ClaimAfterClear() returns (result: Result)
      modifies this`calls
      ensures Run(calls, result) == AfterClear(world, reader, old(calls), Settled(bound))
    {
      var account, failed := ConfirmStaleBlockClear();
      if failed {
        return NotClaimed(Some(account));
      }
      if account.outcome == Unconfirmed {
        calls := calls + [AppendNote(world.write(|calls|))];
        return NotClaimed(Some(account));
      }
      var reply := TakeItem();
      result := if reply.Taken? then Claimed(reply.item, Some(account)) else NotClaimed(Some(account));
    }

    method ClaimPastStaleBlock() returns (result: Result)
      modifies this`calls
      ensures Run(calls, result) == PastStaleBlock(world, reader, old(calls), Settled(bound))
    {
      var item := ShowItem();
      if item.None? || !reader.isBlocked(item.value) {
        return REFUSED;
      }
      var open := ListItems(OpenItems);
      if open.None? {
        return REFUSED;
      }
      var blocked := ListItems(BlockedItems);
      if blocked.None? || reader.waits(item.value, open.value + blocked.value) {
        return REFUSED;
      }
      var wrote := world.write(|calls|);
      calls := calls + [SetOpen(wrote)];
      if !wrote {
        return REFUSED;
      }
      result := ClaimAfterClear();
    }

    method Claim() returns (result: Result)
      modifies this`calls
      ensures Run(calls, result) == ClaimRun(world, reader, old(calls), Settled(bound))
    {
      var reply := TakeItem();
      match reply
      case Taken(item) => return Claimed(item, None);
      case OtherFailure => return REFUSED;
      case StaleRefusal => result := ClaimPastStaleBlock();
    }
  }

  // ---- What every run of the protocol keeps ----

  predicate ReadOpen(call: Call,
                     isOpen: WorkItem -> bool) { call.Show? && call.shown.Some? && isOpen(call.shown.value) }

  /** Reads with one wait between each two, from an index on. */
  ghost predicate Alternates(log: seq<Call>, from: nat) {
    forall k | from <= k < |log| :: if (k - from) % 2 == 0 then log[k].Show? else log[k].Wait?
  }

  /** How many reads that is. */
  function Reads(log: seq<Call>, from: nat): nat
    requires from <= |log|
  {
    (|log| - from + 1) / 2
  }

  ghost predicate NoneOpen(log: seq<Call>, from: nat, to: int, isOpen: WorkItem -> bool) {
    forall k | from <= k < to && k < |log| :: !ReadOpen(log[k], isOpen)
  }

  /** A reading asks within its bound, alternating with waits, and only its last call can have found the item open. */
  lemma {:induction false} ReadBackAsks(world: World, isOpen: WorkItem -> bool, from: nat, log: seq<Call>, attempt: nat,
                                        bound: nat, account: Account)
    requires 1 <= attempt <= bound + 1 && from <= |log|
    requires |log| - from == if attempt == 1 then 0 else 2 * attempt - 3
    requires Alternates(log, from) && NoneOpen(log, from, |log|, isOpen)
    ensures var r := ReadBack(world, isOpen, log, attempt, bound, account);
      log <= r.log && Alternates(r.log, from) && Reads(r.log, from) <= bound
        && NoneOpen(r.log, from, |r.log| - 1, isOpen)
    decreases bound + 1 - attempt
  {
    if attempt <= bound {
      var waited := attempt == 1 || world.wait(|log|);
      var before := if attempt > 1 then log + [Wait(waited)] else log;
      if waited {
        var shown := world.show(|before|);
        var after := before + [Show(shown)];
        if shown.Some? && !isOpen(shown.value) {
          ReadBackAsks(world, isOpen, from, after, attempt + 1, bound, Account(Unconfirmed, attempt, shown));
        }
      }
    }
  }

  /** And what its account says: the outcome by where the first open read was, and how many reads it took. */
  lemma {:induction false} ReadBackTells(world: World, isOpen: WorkItem -> bool, from: nat, log: seq<Call>,
                                         attempt: nat, bound: nat, account: Account)
    requires 1 <= attempt <= bound + 1 && from <= |log| && account.outcome == Unconfirmed
        && account.tries == attempt - 1
    requires |log| - from == if attempt == 1 then 0 else 2 * attempt - 3
    requires NoneOpen(log, from, |log|, isOpen)
    ensures var r := ReadBack(world, isOpen, log, attempt, bound, account);
      && log <= r.log
      && (r.account.outcome != Unconfirmed <==> |r.log| > from && ReadOpen(r.log[|r.log| - 1], isOpen))
      && (r.account.outcome != Unconfirmed ==>
            && !r.failed && r.account.tries == Reads(r.log, from)
              && Some(r.log[|r.log| - 1].shown) == Some(r.account.last)
            && (r.account.outcome == Confirmed <==> r.account.tries == 1))
      && (r.account.outcome == Unconfirmed && !r.failed ==> r.account.tries == bound == Reads(r.log, from))
    decreases bound + 1 - attempt
  {
    if attempt <= bound {
      var waited := attempt == 1 || world.wait(|log|);
      var before := if attempt > 1 then log + [Wait(waited)] else log;
      if waited {
        var shown := world.show(|before|);
        var after := before + [Show(shown)];
        if shown.Some? && !isOpen(shown.value) {
          ReadBackTells(world, isOpen, from, after, attempt + 1, bound, Account(Unconfirmed, attempt, shown));
        }
      }
    }
  }

  /** What the account says is exactly what the reads after the write returned: open at the first, open at a later one,
      or, where every read the bound allows was made, open at none. */
  lemma AccountTellsReads(world: World, isOpen: WorkItem -> bool, log: seq<Call>, bound: nat)
    requires bound > 0
    ensures var r := ReadBack(world, isOpen, log, 1, bound, UNREAD);
      && log <= r.log && Alternates(r.log, |log|) && Reads(r.log, |log|) <= bound
        && NoneOpen(r.log, |log|, |r.log| - 1, isOpen)
      && (r.account.outcome == Confirmed <==> |r.log| == |log| + 1 && ReadOpen(r.log[|log|], isOpen))
      && (r.account.outcome == ConfirmedLate <==> |r.log| > |log| + 1 && ReadOpen(r.log[|r.log| - 1], isOpen))
      && (!r.failed ==> r.account.tries == Reads(r.log, |log|))
      && (r.account.outcome == Unconfirmed && !r.failed ==> r.account.tries == bound)
  {
    ReadBackAsks(world, isOpen, |log|, log, 1, bound, UNREAD);
    ReadBackTells(world, isOpen, |log|, log, 1, bound, UNREAD);
  }

  /** Right before the write: the item read back as blocked, both listings, and nothing it waits on among them. */
  ghost predicate StaleWhenWritten(log: seq<Call>, reader: Reader, k: nat)
    requires 3 <= k < |log|
  {
    && log[k - 3].Show? && log[k - 3].shown.Some? && reader.isBlocked(log[k - 3].shown.value)
    && log[k - 2].List? && log[k - 2].listing == OpenItems && log[k - 2].listed.Some?
    && log[k - 1].List? && log[k - 1].listing == BlockedItems && log[k - 1].listed.Some?
    && !reader.waits(log[k - 3].shown.value, log[k - 2].listed.value + log[k - 1].listed.value)
  }

  /** Everything after the write: reads and waits within the bound, then at most one claim, right after a read of
      open. */
  lemma AfterClearIsSafe(world: World, reader: Reader, log: seq<Call>, bound: nat)
    requires bound > 0
    ensures var after := AfterClear(world, reader, log, bound).log;
      && log <= after && |after| <= |log| + 2 * bound + 1
      && (forall k | |log| <= k < |after| - 1 :: after[k].Show? || after[k].Wait?)
      && (|after| > |log| ==> !after[|after| - 1].SetOpen?)
      && (|after| > |log| && after[|after| - 1].TryClaim?
        ==> |after| - 2 >= |log| && ReadOpen(after[|after| - 2], reader.isOpen))
  {
    AccountTellsReads(world, reader.isOpen, log, bound);
  }

  /** What a claim begun at an index may have done: open is written only to an item just read as blocked with nothing to
      wait on, and once; the item is claimed a second time only on the call after a read that returned open. */
  ghost predicate Safe(all: seq<Call>, reader: Reader, from: nat) {
    && |all| > from && all[from].TryClaim?
    && (forall k | from <= k < |all| && all[k].SetOpen? :: k == from + 4 && StaleWhenWritten(all, reader, k))
    && (forall k | from < k < |all| && all[k].TryClaim? ::
          k == |all| - 1 && k > from + 5 && all[from + 4] == SetOpen(true) && ReadOpen(all[k - 1], reader.isOpen))
  }

  /** Every claim, against every tracker, is safe, and ends within two calls for each read the bound allows. */
  lemma ClaimIsSafe(world: World, reader: Reader, log: seq<Call>, bound: nat)
    requires bound > 0
    ensures var all := ClaimRun(world, reader, log, bound).log;
      log <= all && Safe(all, reader, |log|) && |all| <= |log| + 6 + 2 * bound
  {
    var reply := world.claim(|log|);
    if reply.StaleRefusal? {
      PastStaleBlockIsSafe(world, reader, log, log + [TryClaim(reply)], bound);
    }
  }

  lemma PastStaleBlockIsSafe(world: World, reader: Reader, log: seq<Call>, one: seq<Call>, bound: nat)
    requires bound > 0 && log <= one && |one| == |log| + 1 && one[|log|].TryClaim?
    ensures var all := PastStaleBlock(world, reader, one, bound).log;
      log <= all && Safe(all, reader, |log|) && |all| <= |log| + 6 + 2 * bound
  {
    var shown := world.show(|one|);
    var two := one + [Show(shown)];
    var open := world.list(|two|, OpenItems);
    var three := two + [List(OpenItems, open)];
    var blocked := world.list(|three|, BlockedItems);
    var four := three + [List(BlockedItems, blocked)];
    if shown.Some? && reader.isBlocked(shown.value) && open.Some? && blocked.Some?
       && !reader.waits(shown.value, open.value + blocked.value)
    {
      assert StaleWhenWritten(four + [SetOpen(true)], reader, |four|);
      WriteIsSafe(world, reader, log, four, bound);
    }
  }

  lemma WriteIsSafe(world: World, reader: Reader, log: seq<Call>, read: seq<Call>, bound: nat)
    requires bound > 0 && log <= read && |read| == |log| + 4 && read[|log|].TryClaim?
    requires StaleWhenWritten(read + [SetOpen(true)], reader, |read|)
    requires forall k | |log| < k < |read| :: !read[k].TryClaim? && !read[k].SetOpen?
    ensures var all := Cleared(world, reader, read, bound).log;
      log <= all && Safe(all, reader, |log|) && |all| <= |log| + 6 + 2 * bound
  {
    var all := Cleared(world, reader, read, bound).log;
    if world.write(|read|) {
      AfterClearIsSafe(world, reader, read + [SetOpen(true)], bound);
    }
    assert forall k | 0 <= k < |read| :: all[k] == read[k];
    assert all[|read|].SetOpen?;
  }

  // ---- How a claim ends ----

  predicate IsAnswer(world: World, k: nat, call: Call) {
    match call
    case Show(shown) => shown == world.show(k)
    case List(listing, listed) => listed == world.list(k, listing)
    case SetOpen(wrote) => wrote == world.write(k)
    case AppendNote(wrote) => wrote == world.write(k)
    case TryClaim(reply) => reply == world.claim(k)
    case Wait(waited) => waited == world.wait(k)
  }

  /** Every answer on the log is the one the tracker, or the clock, gave to that call. */
  ghost predicate Answered(world: World, log: seq<Call>, from: nat) {
    forall k | from <= k < |log| :: IsAnswer(world, k, log[k])
  }

  lemma {:induction false} ReadBackStops(world: World, isOpen: WorkItem -> bool, log: seq<Call>, attempt: nat,
                                         bound: nat, account: Account, from: nat)
    requires 1 <= attempt <= bound + 1 && Answered(world, log, from) && from <= |log|
    ensures var r := ReadBack(world, isOpen, log, attempt, bound, account);
      && log <= r.log && Answered(world, r.log, from)
      && (r.failed ==> |r.log| > |log| && (r.log[|r.log| - 1] == Show(None) || r.log[|r.log| - 1] == Wait(false)))
    decreases bound + 1 - attempt
  {
    if attempt <= bound {
      var waited := attempt == 1 || world.wait(|log|);
      var before := if attempt > 1 then log + [Wait(waited)] else log;
      if waited {
        var after := before + [Show(world.show(|before|))];
        if world.show(|before|).Some? && !isOpen(world.show(|before|).value) {
          ReadBackStops(world, isOpen, after, attempt + 1, bound, Account(Unconfirmed, attempt, world.show(|before|)),
            from);
        }
      }
    }
  }

  /** But for its last call, a log has every read the bound allows from an index on, and none of them open. */
  ghost predicate ReadsAll(all: seq<Call>, reader: Reader, from: nat, bound: nat) {
    |all| > from && Reads(all[..|all| - 1], from) == bound && NoneOpen(all, from, |all| - 1, reader.isOpen)
  }

  /** The claim goes as far as it can: it stops where the tracker took the item or refused it otherwise, where it could
      not be read or was not blocked, where work could not be listed or one of it is waited on, where the write failed;
      and after the write where a read failed or a wait was cut short, where every read the bound allows was made and
      none was open, or once the item was claimed again. */
  ghost predicate StopsForCause(all: seq<Call>, reader: Reader, from: nat, bound: nat) {
    |all| > from && var last, calls := all[|all| - 1], |all| - from;
      if calls == 1 then last.TryClaim? && last.reply != StaleRefusal
      else if calls == 2 then last.Show? && (last.shown.None? || !reader.isBlocked(last.shown.value))
      else if calls == 3 then last.List? && last.listed.None?
      else if calls == 4 then
        && last.List?
        && (last.listed.None?
            || (all[from + 1].Show? && all[from + 1].shown.Some? && all[from + 2].List? && all[from + 2].listed.Some?
                && reader.waits(all[from + 1].shown.value, all[from + 2].listed.value + last.listed.value)))
      else if calls == 5 then last == SetOpen(false)
      else
        || last == Show(None) || last == Wait(false) || last.TryClaim?
        || (last.AppendNote? && ReadsAll(all, reader, from + 5, bound))
  }

  lemma AfterClearAnswers(world: World, reader: Reader, log: seq<Call>, bound: nat, from: nat)
    requires bound > 0 && from <= |log| && Answered(world, log, from)
    ensures var run := AfterClear(world, reader, log, bound);
      log <= run.log && |run.log| > |log| && Answered(world, run.log, from) && ResultTells(run.log, run.result)
  {
    ReadBackStops(world, reader.isOpen, log, 1, bound, UNREAD, from);
  }

  lemma AfterClearStops(world: World, reader: Reader, log: seq<Call>, bound: nat, from: nat)
    requires bound > 0 && from <= |log| && Answered(world, log, from)
    ensures var run := AfterClear(world, reader, log, bound);
      var all := run.log;
      && log <= all && |all| > |log| && Answered(world, all, from)
      && (all[|all| - 1] == Show(None) || all[|all| - 1] == Wait(false) || all[|all| - 1].TryClaim?
          || (all[|all| - 1].AppendNote? && ReadsAll(all, reader, |log|, bound)))
      && ResultTells(all, run.result)
  {
    AfterClearAnswers(world, reader, log, bound, from);
    ReadBackStops(world, reader.isOpen, log, 1, bound, UNREAD, from);
    var r := ReadBack(world, reader.isOpen, log, 1, bound, UNREAD);
    if !r.failed && r.account.outcome == Unconfirmed {
      NotedAfterAllReads(world, reader, log, bound);
    }
  }

  lemma NotedAfterAllReads(world: World, reader: Reader, log: seq<Call>, bound: nat)
    requires bound > 0
    requires var r := ReadBack(world, reader.isOpen, log, 1, bound, UNREAD);
      !r.failed && r.account.outcome == Unconfirmed
    ensures ReadsAll(AfterClear(world, reader, log, bound).log, reader, |log|, bound)
  {
    AccountTellsReads(world, reader.isOpen, log, bound);
    var r := ReadBack(world, reader.isOpen, log, 1, bound, UNREAD);
    var all := AfterClear(world, reader, log, bound).log;
    assert all[..|all| - 1] == r.log;
    assert forall k | 0 <= k < |r.log| :: all[k] == r.log[k];
  }

  /** The item is claimed exactly where the last call was a claim the tracker took, and it is the item it gave. */
  ghost predicate ResultTells(all: seq<Call>, result: Result) {
    && |all| > 0
    && var last := all[|all| - 1];
      if last.TryClaim? && last.reply.Taken? then result.Claimed? && result.item == last.reply.item
      else result.NotClaimed?
  }

  /** Every claim, against every tracker, stops for a cause and no sooner, and says whether the item is claimed. */
  lemma ClaimEndsExactly(world: World, reader: Reader, log: seq<Call>, bound: nat)
    requires bound > 0
    ensures var run := ClaimRun(world, reader, log, bound);
      && log <= run.log && Answered(world, run.log, |log|) && StopsForCause(run.log, reader, |log|, bound)
      && ResultTells(run.log, run.result)
  {
    var one := log + [TryClaim(world.claim(|log|))];
    if world.claim(|log|).StaleRefusal? {
      PastStaleBlockEnds(world, reader, one, bound, |log|);
    }
  }

  lemma PastStaleBlockEnds(world: World, reader: Reader, one: seq<Call>, bound: nat, from: nat)
    requires bound > 0 && |one| == from + 1 && Answered(world, one, from)
    ensures var run := PastStaleBlock(world, reader, one, bound);
      && one <= run.log && Answered(world, run.log, from) && StopsForCause(run.log, reader, from, bound)
      && ResultTells(run.log, run.result)
  {
    var shown := world.show(|one|);
    var two := one + [Show(shown)];
    var open := world.list(|two|, OpenItems);
    var three := two + [List(OpenItems, open)];
    var blocked := world.list(|three|, BlockedItems);
    var four := three + [List(BlockedItems, blocked)];
    if shown.Some? && reader.isBlocked(shown.value) && open.Some? && blocked.Some?
       && !reader.waits(shown.value, open.value + blocked.value)
    {
      ClearedEnds(world, reader, four, bound, from);
    }
  }

  lemma ClearedEnds(world: World, reader: Reader, four: seq<Call>, bound: nat, from: nat)
    requires bound > 0 && |four| == from + 4 && Answered(world, four, from)
    ensures var run := Cleared(world, reader, four, bound);
      && four <= run.log && Answered(world, run.log, from) && StopsForCause(run.log, reader, from, bound)
      && ResultTells(run.log, run.result)
  {
    if world.write(|four|) {
      AfterClearStops(world, reader, four + [SetOpen(true)], bound, from);
      AfterClearAnswers(world, reader, four + [SetOpen(true)], bound, from);
    }
  }

  /** The bound a client works by: what was set, or five reads where nothing was. */
  lemma BoundExactly(bound: int)
    ensures Settled(bound) == if bound > 0 then bound else 5
  {
  }

  // ---- The queue and the claim read one snapshot alike ----

  /** A blocked item the queue calls ready is never refused here for waiting, when both read the same tracker. */
  lemma ReadyIsNeverRefusedForWaiting(items: seq<WorkItem>, i: nat, pullable: set<string>, held: Holds,
                                      buildsOn: BuildsOn)
    requires i < |items| && items[i].status == BLOCKED
    requires Building(items, pullable, held, buildsOn)(items[i], 0).ready
    ensures var open := Kept(items, (item: WorkItem) => item.status == OPEN);
      var blocked := Kept(items, (item: WorkItem) => item.status == BLOCKED);
      !TRACKER.waits(items[i], open + blocked)
  {
    var open := Kept(items, (item: WorkItem) => item.status == OPEN);
    var blocked := Kept(items, (item: WorkItem) => item.status == BLOCKED);
    forall id ensures id in Ids(open + blocked) <==> id in Ids(Admitted(items)) {
      ListedIds(items, id);
      UnfinishedIds(items, id);
    }
    assert Ids(open + blocked) == Ids(Admitted(items));
  }

  lemma ListedIds(items: seq<WorkItem>, id: string)
    ensures var open := Kept(items, (item: WorkItem) => item.status == OPEN);
      var blocked := Kept(items, (item: WorkItem) => item.status == BLOCKED);
      id in Ids(open + blocked) <==> exists i | 0 <= i < |items| :: Unfinished(items[i]) && items[i].id == id
  {
    var isOpen, isBlocked := (item: WorkItem) => item.status == OPEN, (item: WorkItem) => item.status == BLOCKED;
    var open, blocked := Kept(items, isOpen), Kept(items, isBlocked);
    var all: seq<WorkItem> := open + blocked;
    if id in Ids(all) {
      var k :| 0 <= k < |all| && all[k].id == id;
      var item := all[k];
      KeptMeans(items, isOpen, item);
      KeptMeans(items, isBlocked, item);
      var i :| 0 <= i < |items| && items[i] == item;
      assert Unfinished(items[i]);
    }
    if i :| 0 <= i < |items| && Unfinished(items[i]) && items[i].id == id {
      KeptMeans(items, isOpen, items[i]);
      KeptMeans(items, isBlocked, items[i]);
      assert items[i] in all;
    }
  }
}
