/** Ending a side conversation: its substance is merged into memory before its record says it ended, and what is merged
    is cut to fit: internal/agentcontext/merge.go. */
module Merge {
  import opened Text
  import opened Bytes

  // ---- Cutting to a number of bytes ----

  /** Where a text longer than its room is cut: at the last start of a character within it. */
  ghost predicate CutAt(s: string, room: int, k: nat) {
    && k <= |s| && (k > 0 ==> ByteLen(s[..k]) <= room)
    && forall j | k < j < |s| :: ByteLen(s[..j]) > room
  }

  lemma {:induction false} BytesGrow(s: string, i: nat, j: nat)
    requires i <= j <= |s|
    ensures ByteLen(s[..i]) <= ByteLen(s[..j])
    decreases j
  {
    if i < j {
      BytesGrow(s, i, j - 1);
      BytesOneMore(s, j - 1);
    }
  }

  /** The loop over character starts; `kept` is the byte index it stops with. */
  method Keep(s: string, room: int) returns (k: nat, kept: nat)
    ensures k <= |s| && kept == ByteLen(s[..k]) && CutAt(s, room, k)
    ensures kept <= ByteLen(s) && Utf8(s)[..kept] == Utf8(s[..k])
  {
    k, kept := 0, 0;
    var index := 0;
    for at := 0 to |s|
      invariant index == ByteLen(s[..at]) && k <= at && kept == ByteLen(s[..k])
      invariant k > 0 ==> kept <= room
      invariant at > 0 ==> k == at - 1
    {
      if index > room {
        forall j | at <= j < |s| ensures ByteLen(s[..j]) > room {
          BytesGrow(s, at, j);
        }
        PrefixBytes(s, k);
        return;
      }
      BytesOneMore(s, at);
      k, kept := at, index;
      index := index + CharBytes(s[at]);
    }
    PrefixBytes(s, k);
  }

  lemma {:induction false} TrimLeftShortens(s: string)
    ensures ByteLen(TrimLeft(s)) <= ByteLen(s)
    decreases |s|
  {
    if s != "" && IsSpace(s[0]) {
      TrimLeftShortens(s[1..]);
    }
  }

  lemma {:induction false} TrimRightShortens(s: string)
    ensures ByteLen(TrimRight(s)) <= ByteLen(s)
    decreases |s|
  {
    if s != "" && IsSpace(s[|s| - 1]) {
      TrimRightShortens(s[..|s| - 1]);
      BytesOneMore(s, |s| - 1);
      assert s[..|s|] == s;
    }
  }

  lemma TrimShortens(s: string)
    ensures ByteLen(TrimSpace(s)) <= ByteLen(s)
  {
    TrimLeftShortens(s);
    TrimRightShortens(TrimLeft(s));
  }

  /** A text held to a limit: itself where it fits, and otherwise cut on a character and closed with a note. */
  method Bounded(text: string, limit: nat, note: string) returns (held: string)
    ensures ByteLen(text) <= limit ==> held == text
    ensures ByteLen(text) > limit ==>
      exists k: nat :: CutAt(text, limit - ByteLen(note), k) && held == TrimSpace(text[..k]) + note
    ensures ByteLen(held) <= limit <==> ByteLen(text) <= limit || ByteLen(note) <= limit
  {
    if ByteLen(text) <= limit {
      return text;
    }
    var k, kept := Keep(text, limit - ByteLen(note));
    held := TrimSpace(text[..k]) + note;
    TrimShortens(text[..k]);
    ByteLenConcat(TrimSpace(text[..k]), note);
    assert CutAt(text, limit - ByteLen(note), k);
  }

  const MAX_SUBSTANCE_BYTES := 4096
  const MAX_SUBJECT_BYTES := 200
  const ELLIPSIS := "..."

  function CutNote(streamId: string): string {
    "\n\n[The thread's answer was longer than a merge carries and is cut here; the whole of it is in side stream "
    + streamId + "'s own log.]"
  }

  method BoundedSubstance(substance: string, streamId: string) returns (held: string)
    ensures ByteLen(held) <= 4096
       <==> ByteLen(TrimSpace(substance)) <= 4096 || ByteLen(CutNote(streamId)) <= 4096
    ensures ByteLen(TrimSpace(substance)) <= 4096 ==> held == TrimSpace(substance)
    ensures ByteLen(TrimSpace(substance)) > 4096 ==>
      exists k: nat :: CutAt(TrimSpace(substance), 4096 - ByteLen(CutNote(streamId)), k)
                  && held == TrimSpace(TrimSpace(substance)[..k]) + CutNote(streamId)
  {
    var text, note := TrimSpace(substance), CutNote(streamId);
    held := Bounded(text, MAX_SUBSTANCE_BYTES, note);
  }

  /** `line` is the topic on one line. */
  method SubjectOf(line: string) returns (subject: string)
    ensures ByteLen(subject) <= 200
    ensures ByteLen(line) <= 200 ==> subject == line
    ensures ByteLen(line) > 200 ==> exists k: nat :: CutAt(line, 197, k) && subject == TrimSpace(line[..k]) + "..."
  {
    assert ByteLen(ELLIPSIS) == 3 by {
      assert ELLIPSIS == "." + ".." && ".." == "." + ".";
      ByteLenConcat(".", "..");
      ByteLenConcat(".", ".");
    }
    subject := Bounded(line, MAX_SUBJECT_BYTES, ELLIPSIS);
  }

  // ---- Merge before save ----

  /** What identifies a side stream, and a memory. */
  type Id(==,!new)

  datatype Stream = Stream(id: Id, ended: bool)

  /** One stored revision of a memory: the memory it is of, and the stream it came from. */
  datatype Revision = Revision(memory: Id, source: Id)

  /** How saving the stream's record went. A save can be reported failed after it has landed. */
  datatype Save = Saved | FailedBefore | FailedAfter

  /** One attempt at concluding the stream as its record stands, by whoever holds its lease. `asked` is that the outcome
      and the moment are ones a stream can end with, `bounded` that what it would merge is within its bounds. */
  datatype Attempt = Attempt(id: Id, asked: bool, bounded: bool, stored: bool, save: Save)

  datatype Answer = Concluded | Refused | MergeFailed | SaveFailed

  class Side {
    var streams: map<Id, Stream>
    var memory: seq<Revision>

    /** `Conclude`, on the record as it stands. */
    method Conclude(a: Attempt) returns (answer: Answer)
      modifies this
      ensures State(streams, memory) == After(State(old(streams), old(memory)), a)
      ensures answer == Concluded ==> a.id in streams && streams[a.id].ended
    {
      if a.id !in streams || !a.asked || streams[a.id].ended {
        return Refused;
      }
      var concluded := streams[a.id].(ended := true);
      if !a.bounded || !a.stored {
        return MergeFailed;
      }
      memory := memory + [Revision(concluded.id, concluded.id)];
      match a.save {
        case FailedBefore => return SaveFailed;
        case FailedAfter =>
          streams := streams[a.id := concluded];
          return SaveFailed;
        case Saved =>
          streams := streams[a.id := concluded];
          return Concluded;
      }
    }
  }

  datatype State = State(streams: map<Id, Stream>, memory: seq<Revision>)

  function After(s: State, a: Attempt): State {
    if a.id !in s.streams || !a.asked || s.streams[a.id].ended || !a.bounded || !a.stored then s else
      var concluded := s.streams[a.id].(ended := true);
      State(if a.save == FailedBefore then s.streams else s.streams[a.id := concluded],
            s.memory + [Revision(concluded.id, concluded.id)])
  }

  function Run(s: State, attempts: seq<Attempt>): State
    decreases |attempts|
  {
    if attempts == [] then s else After(Run(s, attempts[..|attempts| - 1]), attempts[|attempts| - 1])
  }

  predicate Merged(s: State, id: Id) { exists k | 0 <= k < |s.memory| :: s.memory[k].source == id }

  /** Every record carries its own id; a stream recorded as ended has a stored revision naming it; and every revision
      from a stream is of the memory that bears the stream's name. */
  ghost predicate Kept(s: State) {
    && (forall id | id in s.streams :: s.streams[id].id == id)
    && (forall id | id in s.streams && s.streams[id].ended :: Merged(s, id))
    && (forall k | 0 <= k < |s.memory| :: s.memory[k].memory == s.memory[k].source)
  }

  function Revisions(memory: seq<Revision>, id: Id): seq<Revision> {
    if memory == [] then [] else
      var earlier := Revisions(memory[..|memory| - 1], id);
      if memory[|memory| - 1].source == id then earlier + [memory[|memory| - 1]] else earlier
  }

  lemma StepKeeps(s: State, a: Attempt)
    requires Kept(s)
    ensures Kept(After(s, a))
    ensures forall id | id in s.streams && s.streams[id].ended ::
        id in After(s, a).streams && After(s, a).streams[id].ended
                        && Revisions(After(s, a).memory, id) == Revisions(s.memory, id)
  {
    var t := After(s, a);
    if t != s {
      assert t.memory[..|s.memory|] == s.memory;
      forall id | id in t.streams && t.streams[id].ended ensures Merged(t, id) {
        if id == a.id {
          assert t.memory[|s.memory|].source == id;
        } else {
          var k :| 0 <= k < |s.memory| && s.memory[k].source == id;
          assert t.memory[k].source == id;
        }
      }
    }
  }

  /** In every schedule of attempts, merge failures and save failures: what ended was merged, an ended stream stays
      ended and gains no more revisions, and a stream's revisions are all of one memory. */
  lemma {:induction false} EndedWasMerged(s: State, attempts: seq<Attempt>, id: Id)
    requires Kept(s)
    ensures Kept(Run(s, attempts))
    ensures id in s.streams && s.streams[id].ended ==>
      && id in Run(s, attempts).streams && Run(s, attempts).streams[id].ended
      && Revisions(Run(s, attempts).memory, id) == Revisions(s.memory, id)
    decreases |attempts|
  {
    if attempts != [] {
      var before := attempts[..|attempts| - 1];
      EndedWasMerged(s, before, id);
      StepKeeps(Run(s, before), attempts[|attempts| - 1]);
    }
  }

  /** How many attempts reached the memory and then failed to save, for one stream. */
  function Unsaved(s: State, attempts: seq<Attempt>, id: Id): nat
    decreases |attempts|
  {
    if attempts == [] then 0 else
      var last := attempts[|attempts| - 1];
      var before := Run(s, attempts[..|attempts| - 1]);
      Unsaved(s, attempts[..|attempts| - 1], id)
      + if last.id == id && After(before, last) != before && last.save == FailedBefore then 1 else 0
  }

  /** What it costs: an ended stream has one revision, and one more for each merge whose save did not land. */
  lemma {:induction false} OneRevisionPerMerge(s: State, attempts: seq<Attempt>, id: Id)
    requires Kept(s) && id in s.streams && !s.streams[id].ended && Revisions(s.memory, id) == []
    ensures var t := Run(s, attempts);
      && Kept(t) && id in t.streams
      && |Revisions(t.memory, id)| == Unsaved(s, attempts, id) + if t.streams[id].ended then 1 else 0
    decreases |attempts|
  {
    if attempts != [] {
      var last := attempts[|attempts| - 1];
      var before := attempts[..|attempts| - 1];
      OneRevisionPerMerge(s, before, id);
      var was, now := Run(s, before), Run(s, attempts);
      StepKeeps(was, last);
      if now != was {
        assert now.memory[..|was.memory|] == was.memory;
      }
    }
  }
}
