/** Folding what a provider says into one result: `Observation.Record` in internal/backend/contract.go. */
module Contract {
  import opened Text

  datatype Cause = Unauthenticated | Unreachable

  /** What an observation answers. Kinds, reset times, details and channels are carried, never read. */
  datatype Observation =
    | Served
    | Retrying
    | LimitReached(kind: string, resetsAt: int)
    | Unavailable(detail: string)
    | Interrupted(detail: string)
    | ModelUnavailable(detail: string)
    | ProviderAway(cause: Cause, detail: string, channel: string)
    | Refused

  datatype Limit = Limit(kind: string, resetsAt: int)

  datatype Outage = Outage(cause: Cause, detail: string, channel: string)

  /** The refusals a result can carry. */
  datatype Refusals = Refusals(
    limit: Option<Limit>, overload: Option<string>, transient: Option<string>, model: Option<string>,
      outage: Option<Outage>)

  const NOTHING := Refusals(None, None, None, None, None)

  /** What one observation makes of what a result carries. */
  function Step(was: Refusals, o: Observation): Refusals {
    match o
    case Served => was.(limit := None)
    case Retrying => was
    case LimitReached(kind, resetsAt) => was.(limit := Some(Limit(kind, resetsAt)))
    case Unavailable(detail) => was.(overload := Some(detail), transient := None)
    case Interrupted(detail) => if was.overload.None? then was.(transient := Some(detail)) else was
    case ModelUnavailable(detail) => was.(model := Some(detail), overload := None, transient := None)
    case ProviderAway(cause, detail, channel) =>
      was.(outage := Some(Outage(cause, detail, channel)), overload := None, transient := None)
    case Refused => was.(overload := None, transient := None)
  }

  class RunResult {
    var limit: Option<Limit>
    var overload: Option<string>
    var transient: Option<string>
    var model: Option<string>
    var outage: Option<Outage>

    function Now(): Refusals
      reads this
    {
      Refusals(limit, overload, transient, model, outage)
    }

    constructor ()
      ensures Now() == NOTHING
    {
      limit, overload, transient, model, outage := None, None, None, None, None;
    }

    /** One observation written onto the result. */
    method Record(o: Observation)
      modifies this
      ensures Now() == Step(old(Now()), o)
    {
      match o {
        case Served => limit := None;
        case Retrying =>
        case LimitReached(kind, resetsAt) => limit := Some(Limit(kind, resetsAt));
        case Unavailable(detail) => overload, transient := Some(detail), None;
        case Interrupted(detail) =>
          if overload.None? {
            transient := Some(detail);
          }
        case ModelUnavailable(detail) => model, overload, transient := Some(detail), None, None;
        case ProviderAway(cause, detail, channel) =>
          outage, overload, transient := Some(Outage(cause, detail, channel)), None, None;
        case Refused => overload, transient := None, None;
      }
    }
  }

  // ---- What a result says of the whole history ----

  predicate IsUnavailable(o: Observation) { o.Unavailable? }

  predicate IsInterrupted(o: Observation) { o.Interrupted? }

  /** An answer that ends whatever overload or interruption came before it. */
  predicate Clears(o: Observation) { o.Refused? || o.ProviderAway? || o.ModelUnavailable? }

  /** What followed the last such answer. */
  function Tail(history: seq<Observation>): seq<Observation> {
    if history == [] || Clears(history[|history| - 1]) then []
    else Tail(history[..|history| - 1]) + [history[|history| - 1]]
  }

  /** The last observation of a kind. */
  function Last(history: seq<Observation>, wanted: Observation -> bool): Option<Observation> {
    if history == [] then None
    else if wanted(history[|history| - 1]) then Some(history[|history| - 1])
    else Last(history[..|history| - 1], wanted)
  }

  /** The result a history leaves: the last word on the limit, the model and the outage; and, of what followed the last
      answer that clears, the last overload, or else the last interruption. */
  function After(history: seq<Observation>): Refusals {
    var limit := Last(history, (o: Observation) => o.Served? || o.LimitReached?);
    var overload := Last(Tail(history), IsUnavailable);
    var interrupted := Last(Tail(history), IsInterrupted);
    var model := Last(history, (o: Observation) => o.ModelUnavailable?);
    var outage := Last(history, (o: Observation) => o.ProviderAway?);
    Refusals(
      if limit.Some? && limit.value.LimitReached? then Some(Limit(limit.value.kind, limit.value.resetsAt)) else None,
      if overload.Some? && overload.value.Unavailable? then Some(overload.value.detail) else None,
      if overload.None? && interrupted.Some? && interrupted.value.Interrupted? then Some(interrupted.value.detail)
        else None,
      if model.Some? && model.value.ModelUnavailable? then Some(model.value.detail) else None,
      if outage.Some? && outage.value.ProviderAway? then
        Some(Outage(outage.value.cause, outage.value.detail, outage.value.channel)) else None)
  }

  lemma LastOneMore(history: seq<Observation>, o: Observation, wanted: Observation -> bool)
    ensures Last(history + [o], wanted) == if wanted(o) then Some(o) else Last(history, wanted)
  {
    assert (history + [o])[..|history|] == history;
  }

  lemma TailOneMore(history: seq<Observation>, o: Observation)
    ensures Tail(history + [o]) == if Clears(o) then [] else Tail(history) + [o]
  {
    assert (history + [o])[..|history|] == history;
  }

  lemma {:induction false} LastMeans(history: seq<Observation>, wanted: Observation -> bool)
    ensures match Last(history, wanted)
      case None => forall i | 0 <= i < |history| :: !wanted(history[i])
      case Some(o) => exists i :: IsLast(history, wanted, i) && history[i] == o
    decreases |history|
  {
    if history != [] {
      var n := |history| - 1;
      if wanted(history[n]) {
        assert IsLast(history, wanted, n);
      } else {
        LastMeans(history[..n], wanted);
        assert forall i | 0 <= i < n :: history[..n][i] == history[i];
        if Last(history, wanted).Some? {
          var i :| IsLast(history[..n], wanted, i) && history[..n][i] == Last(history, wanted).value;
          assert IsLast(history, wanted, i);
        }
      }
    }
  }

  ghost predicate IsLast(history: seq<Observation>, wanted: Observation -> bool, i: int) {
    0 <= i < |history| && wanted(history[i]) && forall j | i < j < |history| :: !wanted(history[j])
  }

  /** A wanted observation that no clearing answer has followed. */
  ghost predicate Stands(history: seq<Observation>, wanted: Observation -> bool, i: int) {
    0 <= i < |history| && wanted(history[i]) && forall j | i <= j < |history| :: !Clears(history[j])
  }

  lemma {:induction false} TailMeans(history: seq<Observation>, wanted: Observation -> bool)
    ensures Last(Tail(history), wanted).Some? <==> exists i :: Stands(history, wanted, i)
    decreases |history|
  {
    if history != [] {
      var n := |history| - 1;
      var o := history[n];
      assert history == history[..n] + [o];
      TailMeans(history[..n], wanted);
      if !Clears(o) {
        LastOneMore(Tail(history[..n]), o, wanted);
        if wanted(o) {
          assert Stands(history, wanted, n);
        }
        forall i | Stands(history[..n], wanted, i) ensures Stands(history, wanted, i) {
        }
        forall i | Stands(history, wanted, i) && i < n ensures Stands(history[..n], wanted, i) {
        }
      }
    }
  }

  /** Which refusals stand: a limit no serving has followed; an overload nothing has cleared since; and an interruption
      nothing has cleared since, only where no such overload stands, however the two are interleaved. */
  lemma WhatStands(history: seq<Observation>)
    ensures var r := After(history);
      && (r.limit.Some? <==> exists i | 0 <= i < |history| ::
            history[i].LimitReached? && forall j | i < j < |history| :: !history[j].Served?)
      && (r.overload.Some? <==> exists i :: Stands(history, IsUnavailable, i))
      && (r.transient.Some? <==> && (exists i :: Stands(history, IsInterrupted, i))
                                 && !exists i :: Stands(history, IsUnavailable, i))
  {
    var limits := (o: Observation) => o.Served? || o.LimitReached?;
    LastMeans(history, limits);
    TailMeans(history, IsUnavailable);
    TailMeans(history, IsInterrupted);
    LastWanted(Tail(history), IsUnavailable);
    LastWanted(Tail(history), IsInterrupted);
    if exists i | 0 <= i < |history| ::
      history[i].LimitReached? && forall j | i < j < |history| :: !history[j].Served?
    {
      var i :| 0 <= i < |history| && history[i].LimitReached? && forall j | i < j < |history| :: !history[j].Served?;
      assert limits(history[i]);
      var k :| IsLast(history, limits, k) && history[k] == Last(history, limits).value;
      assert IsLast(history, limits, k);
      assert i <= k;
    }
    if After(history).limit.Some? {
      var k :| IsLast(history, limits, k) && history[k] == Last(history, limits).value;
      assert IsLast(history, limits, k);
      assert forall j | k < j < |history| :: !limits(history[j]);
    }
  }

  /** The in-place update and the history's own account of itself stay equal. */
  lemma AfterOneMore(history: seq<Observation>, o: Observation)
    ensures After(history + [o]) == Step(After(history), o)
  {
    TailOneMore(history, o);
    LastOneMore(history, o, (x: Observation) => x.Served? || x.LimitReached?);
    LastOneMore(history, o, (x: Observation) => x.ModelUnavailable?);
    LastOneMore(history, o, (x: Observation) => x.ProviderAway?);
    if !Clears(o) {
      LastOneMore(Tail(history), o, IsUnavailable);
      LastOneMore(Tail(history), o, IsInterrupted);
    }
    LastWanted(Tail(history), IsUnavailable);
    LastWanted(Tail(history), IsInterrupted);
  }

  lemma LastWanted(history: seq<Observation>, wanted: Observation -> bool)
    ensures Last(history, wanted).Some? ==> wanted(Last(history, wanted).value)
  {
    LastMeans(history, wanted);
  }

  /** Recording any history leaves its closed form. */
  method RecordAll(history: seq<Observation>) returns (result: RunResult)
    ensures fresh(result) && result.Now() == After(history)
  {
    result := new RunResult();
    for i := 0 to |history|
      invariant fresh(result) && result.Now() == After(history[..i])
    {
      assert history[..i + 1] == history[..i] + [history[i]];
      AfterOneMore(history[..i], history[i]);
      result.Record(history[i]);
    }
    assert history[..|history|] == history;
  }

  /** An overload is never also a death to relaunch on. */
  lemma OverloadNeverTransient(history: seq<Observation>)
    ensures After(history).overload.None? || After(history).transient.None?
  {
    LastWanted(Tail(history), IsUnavailable);
  }

  predicate Fleeting(o: Observation) { o.Unavailable? || o.Interrupted? }

  /** An outage stands beside an overload or an interruption exactly when one of those came after every answer that
      clears, an outage among them. So the two are not kept apart by the fold itself. */
  lemma OutageBesideFleeting(history: seq<Observation>)
    ensures var r := After(history);
      (r.outage.Some? && (r.overload.Some? || r.transient.Some?))
      <==> (exists i | 0 <= i < |history| :: history[i].ProviderAway?) && exists i :: Stands(history, Fleeting, i)
  {
    var away := (o: Observation) => o.ProviderAway?;
    WhatStands(history);
    LastMeans(history, away);
    LastWanted(history, away);
    forall i | Stands(history, Fleeting, i)
      ensures Stands(history, IsUnavailable, i) || Stands(history, IsInterrupted, i)
    {
    }
    forall i | Stands(history, IsUnavailable, i) || Stands(history, IsInterrupted, i)
      ensures Stands(history, Fleeting, i)
    {
    }
    if Last(history, away).Some? {
      var i :| IsLast(history, away, i) && history[i] == Last(history, away).value;
      assert IsLast(history, away, i);
      assert away(history[i]);
    } else {
      assert forall i | 0 <= i < |history| :: !away(history[i]);
    }
  }

  /** The shortest history that leaves both: the result's own documentation says no result carries both. */
  lemma OutageThenOverload(cause: Cause, detail: string, channel: string)
    ensures var r := After([ProviderAway(cause, detail, channel), Unavailable(detail)]);
      r.outage.Some? && r.overload.Some?
  {
    var history := [ProviderAway(cause, detail, channel), Unavailable(detail)];
    assert Stands(history, Fleeting, 1);
    OutageBesideFleeting(history);
    AfterOneMore([ProviderAway(cause, detail, channel)], Unavailable(detail));
    assert history == [ProviderAway(cause, detail, channel)] + [Unavailable(detail)];
  }
}
