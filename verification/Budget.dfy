/** The provider session a conversation's turns resume, its measure in bytes, and its compaction before it outgrows its
    budget: internal/chat/compact.go, internal/chat/rebuild.go, and `takeTurn` in internal/chat/chat.go. */
module Budget {
  import opened Text

  type Provider(==,!new)

  const MAX_TURN_INPUT_BYTES := 3 * 0x10_0000
  const SESSION_BUDGET_BYTES := 8 * 0x10_0000

  /** A session a provider named: who named it, what it has really been sent and said since it began, and how much of
      that the measure was never shown. */
  datatype Issued = Issued(from: Provider, carried: nat, unseen: nat)

  /** What the record says of the session: which there is, on which provider, and what it measures. */
  datatype Conversation = Conversation(session: Option<Issued>, backend: Option<Provider>, bytes: nat, turns: nat)

  datatype Options = Options(own: Provider, failover: Option<Provider>, budget: int)

  function SessionBudget(o: Options): nat { if o.budget > 0 then o.budget else SESSION_BUDGET_BYTES }

  predicate Crosses(o: Options) { o.failover.Some? && o.failover.value != o.own }

  function Start(o: Options): Conversation { Conversation(None, Some(o.own), 0, 0) }

  function ResumableSession(o: Options, s: Conversation, compacting: bool): Option<Issued> {
    if compacting then None
    else if s.backend.Some? && s.backend.value != o.own then None
    else s.session
  }

  function AlternateSession(o: Options, s: Conversation, compacting: bool): Option<Issued> {
    if compacting || o.failover.None? || s.backend != o.failover then None else s.session
  }

  datatype Why = Unmeasured | OverBudget

  function CompactionDue(o: Options, s: Conversation, system: nat, prompt: nat): Option<Why> {
    if ResumableSession(o, s, false).None? && AlternateSession(o, s, false).None? then None
    else if s.bytes == 0 then Some(Unmeasured)
    else if s.bytes + system + prompt > SessionBudget(o) then Some(OverBudget)
    else None
  }

  /** A request: the session it resumes, its prompt's bytes, and whether the record has been rebuilt in front of it. */
  datatype Request = Request(session: Option<Issued>, prompt: nat, rebuilt: bool)

  /** `rebuiltPrompt`, for what the record has to say: nothing where it cannot be made. */
  function Rebuilt(system: nat, r: Request, record: Option<nat>): Option<Request> {
    if r.rebuilt then Some(r)
    else if record.None? then None
    else if record.value == 0 then Some(r)
    else if record.value + system + r.prompt > MAX_TURN_INPUT_BYTES then None
    else Some(Request(r.session, record.value + r.prompt, true))
  }

  function RebuiltOr(system: nat, r: Request, record: Option<nat>): Request {
    var rebuilt := Rebuilt(system, r, record);
    if rebuilt.Some? then rebuilt.value else r
  }

  /** Where the failover takes one attempt: it stays, is moved because a window is closed, or is moved on being
      refused. */
  datatype Route = Stays | Moves | MovesWhenRefused

  datatype Outcome = Served(named: bool, reply: nat) | TooLong | Waits | Fails

  datatype Attempt = Attempt(route: Route, outcome: Outcome)

  /** One turn: what it says, what each rebuild of the record would put in front of it, and how its attempts went. */
  datatype Turn = Turn(system: nat, prompt: nat, elsewhere: bool, noted: bool, compacted: Option<nat>, own: Option<nat>,
                       alternate: Option<nat>, aside: Option<nat>, smaller: Option<nat>, attempts: seq<Attempt>)

  /** One request as it was sent, and what the session measured then. */
  datatype Sent = Sent(to: Provider, request: Request, measured: nat)

  /** The alternate's request, where the attempt reaches it. */
  function Moved(o: Options, s: Conversation, compacting: bool, t: Turn, r: Request, route: Route): Option<Request> {
    if route.Stays? || !Crosses(o) then None else
      var held := AlternateSession(o, s, compacting);
      var rebuilt := if held.Some? then Some(r) else Rebuilt(t.system, r, t.alternate);
      if rebuilt.Some? then Some(rebuilt.value.(session := held)) else None
  }

  function SendsOf(o: Options, s: Conversation, compacting: bool, t: Turn, r: Request, route: Route): seq<Sent> {
    var moved := Moved(o, s, compacting, t, r, route);
    if moved.None? then [Sent(o.own, r, s.bytes)]
    else (if route.Moves? then [] else [Sent(o.own, r, s.bytes)]) + [Sent(o.failover.value, moved.value, s.bytes)]
  }

  /** The request the answer was to. */
  function Answered(o: Options, s: Conversation, compacting: bool, t: Turn, r: Request, route: Route): Sent {
    var moved := Moved(o, s, compacting, t, r, route);
    if moved.None? then Sent(o.own, r, s.bytes) else Sent(o.failover.value, moved.value, s.bytes)
  }

  predicate ResumedOn(o: Options, s: Conversation, compacting: bool, serving: Provider) {
    !compacting && (if serving == o.own then ResumableSession(o, s, compacting).Some?
      else AlternateSession(o, s, compacting).Some?)
  }

  /** `measureSession`. */
  function Measured(bytes: nat, resumed: bool, prompt: nat, reply: nat): nat {
    if resumed then bytes + (prompt + reply) else prompt + reply
  }

  /** What the session really holds once it has answered. */
  function Grown(sent: Sent, prompt: nat, reply: nat): Issued {
    match sent.request.session
    case Some(held) => Issued(sent.to, held.carried + sent.request.prompt + reply, held.unseen)
    case None =>
      Issued(sent.to, sent.request.prompt + reply,
             if sent.request.prompt > prompt then sent.request.prompt - prompt else 0)
  }

  /** The record after a served turn. */
  function AfterServed(o: Options, s: Conversation, compacting: bool, sent: Sent, prompt: nat, named: bool,
                       reply: nat): Conversation {
    var resumed := ResumedOn(o, s, compacting, sent.to);
    var session :=
      if named then Some(Grown(sent, prompt, reply))
      else if compacting then None
      else if sent.request.session.Some? then Some(Grown(sent, prompt, reply))
      else s.session;
    Conversation(session, Some(sent.to), Measured(s.bytes, resumed, prompt, reply), s.turns + 1)
  }

  /** The attempt that served a turn: the record it found, the request as the turn had it and as it was sent, and
      the answer. */
  datatype Landing = Landing(was: Conversation, compacting: bool, request: Request, sent: Sent, named: bool, reply: nat)

  datatype Account = Account(state: Conversation, sent: seq<Sent>, served: Option<Landing>)

  /** What it leaves on the record. */
  function Landed(o: Options, l: Landing): Conversation {
    AfterServed(o, l.was, l.compacting, l.sent, l.request.prompt, l.named, l.reply)
  }

  function Prepared(o: Options, s: Conversation, compacting: bool, t: Turn): Request {
    var base := if compacting then RebuiltOr(t.system, Request(None, t.prompt, false), t.compacted)
                else Request(ResumableSession(o, s, false), t.prompt, false);
    if s.turns > 0 && base.session.None? && !t.elsewhere then RebuiltOr(t.system, base, t.own) else base
  }

  /** The session the refused attempt resumed, read off where it went. */
  function RefusedSession(o: Options, s: Conversation, compacting: bool, r: Request, to: Provider): Option<Issued> {
    if Crosses(o) && to == o.failover.value && AlternateSession(o, s, compacting).Some?
      then AlternateSession(o, s, compacting)
    else r.session
  }

  /** `shrinkRebuild`: the turn's own prompt behind a rebuild of half the size. */
  function Shrunk(t: Turn, r: Request): Option<Request> {
    if !r.rebuilt then None else Rebuilt(t.system, Request(r.session, t.prompt, false), t.smaller)
  }

  /** The attempts from one on, with what has been set aside and what has been halved. */
  function Tried(o: Options, s: Conversation, compacting: bool, t: Turn, r: Request, replaced: bool, shrunk: bool,
                 at: nat, sent: seq<Sent>): Account
    decreases |t.attempts| - at
  {
    if at >= |t.attempts| then Account(s, sent, None) else
      var attempt := t.attempts[at];
      var answered := Answered(o, s, compacting, t, r, attempt.route);
      var sends := sent + SendsOf(o, s, compacting, t, r, attempt.route);
      match attempt.outcome
      case Served(named, reply) =>
        var landing := Landing(s, compacting, r, answered, named, reply);
        Account(Landed(o, landing), sends, Some(landing))
      case TooLong =>
        if RefusedSession(o, s, compacting, r, answered.to).Some? && !replaced then
          Tried(o, s.(session := None), compacting, t, RebuiltOr(t.system, r.(session := None), t.aside), true,
            shrunk, at + 1, sends)
        else if RefusedSession(o, s, compacting, r, answered.to).None? && !shrunk && Shrunk(t, r).Some? then
          Tried(o, s, compacting, t, Shrunk(t, r).value, replaced, true, at + 1, sends)
        else Account(s, sends, None)
      case Waits => Tried(o, s, compacting, t, r, replaced, shrunk, at + 1, sends)
      case Fails => Account(s, sends, None)
  }

  /** `takeTurn`. */
  function Took(o: Options, s: Conversation, t: Turn): Account {
    if t.system + t.prompt > MAX_TURN_INPUT_BYTES then Account(s, [], None)
    else if CompactionDue(o, s, t.system, t.prompt).None? then
      Tried(o, s, false, t, Prepared(o, s, false, t), false, false, 0, [])
    else if Rebuilt(t.system, Request(None, t.prompt, false), t.compacted).None? || !t.noted then Account(s, [], None)
    else Tried(o, s, true, t, Prepared(o, s, true, t), false, false, 0, [])
  }

  class Session {
    const options: Options
    var state: Conversation
    var compacting: bool

    /** A new conversation, or the one that was recorded, under the options of this process. */
    constructor (options: Options, recorded: Option<Conversation>)
      ensures this.options == options && !compacting
      ensures state == if recorded.Some? then recorded.value else Start(options)
    {
      this.options, compacting := options, false;
      state := if recorded.Some? then recorded.value else Start(options);
    }

    method Compact(t: Turn) returns (prompt: Option<Request>)
      modifies this`compacting
      ensures prompt == if t.noted then Rebuilt(t.system, Request(None, t.prompt, false), t.compacted) else None
      ensures compacting <==> prompt.Some?
    {
      compacting := true;
      prompt := Rebuilt(t.system, Request(None, t.prompt, false), t.compacted);
      if prompt.None? || !t.noted {
        compacting := false;
        prompt := None;
      }
    }

    method MeasureSession(resumed: bool, prompt: nat, reply: nat)
      modifies this`state
      ensures state == old(state).(bytes := Measured(old(state).bytes, resumed, prompt, reply))
    {
      var added := prompt + reply;
      if resumed {
        state := state.(bytes := state.bytes + added);
      } else {
        state := state.(bytes := added);
      }
    }

    /** What a served attempt leaves on the record. */
    method Land(sent: Sent, prompt: nat, named: bool, reply: nat)
      modifies this`state
      ensures state == AfterServed(options, old(state), compacting, sent, prompt, named, reply)
    {
      var resumed := ResumedOn(options, state, compacting, sent.to);
      if named || (!compacting && sent.request.session.Some?) {
        state := state.(session := Some(Grown(sent, prompt, reply)));
      } else if compacting {
        state := state.(session := None);
      }
      MeasureSession(resumed, prompt, reply);
      state := state.(backend := Some(sent.to), turns := state.turns + 1);
    }

    method TakeTurn(t: Turn) returns (sent: seq<Sent>, served: Option<Landing>)
      modifies this
      ensures Account(state, sent, served) == Took(options, old(state), t) && !compacting
    {
      sent, served, compacting := [], None, false;
      if t.system + t.prompt > MAX_TURN_INPUT_BYTES {
        return;
      }
      if CompactionDue(options, state, t.system, t.prompt).Some? {
        var compacted := Compact(t);
        if compacted.None? {
          return;
        }
      }
      sent, served := Ask(t, Prepared(options, state, compacting, t));
      compacting := false;
    }

    /** The loop an invocation is taken in. */
    method Ask(t: Turn, prepared: Request) returns (sent: seq<Sent>, served: Option<Landing>)
      modifies this`state
      ensures Account(state, sent, served) == Tried(options, old(state), compacting, t, prepared, false, false, 0, [])
    {
      var request, replaced, shrunk, at := prepared, false, false, 0;
      sent, served := [], None;
      while at < |t.attempts|
        invariant at <= |t.attempts| && served.None?
        invariant Tried(options, state, compacting, t, request, replaced, shrunk, at, sent)
               == Tried(options, old(state), compacting, t, prepared, false, false, 0, [])
        decreases |t.attempts| - at
      {
        var attempt := t.attempts[at];
        var answered := Answered(options, state, compacting, t, request, attempt.route);
        sent := sent + SendsOf(options, state, compacting, t, request, attempt.route);
        match attempt.outcome {
        case Served(named, reply) =>
          served := Some(Landing(state, compacting, request, answered, named, reply));
          Land(answered, request.prompt, named, reply);
          return;
        case TooLong =>
          var resumed := RefusedSession(options, state, compacting, request, answered.to);
          if resumed.Some? && !replaced {
            replaced := true;
            state := state.(session := None);
            request := RebuiltOr(t.system, request.(session := None), t.aside);
          } else if resumed.None? && !shrunk && Shrunk(t, request).Some? {
            shrunk := true;
            request := Shrunk(t, request).value;
          } else {
            return;
          }
        case Waits =>
        case Fails => return;
        }
        at := at + 1;
      }
    }
  }

  // ---- When a session is resumed ----

  predicate OwnHolds(o: Options, s: Conversation) {
    s.session.Some? && (s.backend.None? || s.backend == Some(o.own))
  }

  predicate AlternateHolds(o: Options, s: Conversation) {
    s.session.Some? && s.backend.Some? && o.failover.Some? && s.backend.value == o.failover.value
  }

  /** A turn is within what one may carry: three mebibytes. */
  predicate Carries(system: nat, prompt: nat) { system + prompt <= 3 * 1024 * 1024 }

  /** The session has measured something, and has room for the turn: within eight mebibytes, unless another budget is
      set. */
  predicate HasRoom(o: Options, s: Conversation, system: nat, prompt: nat) {
    s.bytes > 0 && s.bytes + system + prompt <= if o.budget > 0 then o.budget else 8 * 1024 * 1024
  }

  /** A turn that carries too much is not sent, and changes nothing. */
  lemma TooMuchIsNotSent(o: Options, s: Conversation, t: Turn)
    requires !Carries(t.system, t.prompt)
    ensures Took(o, s, t) == Account(s, [], None)
  {
  }

  lemma {:induction false} SentStays(o: Options, s: Conversation, compacting: bool, t: Turn, r: Request, replaced: bool,
                                     shrunk: bool, at: nat, sent: seq<Sent>)
    ensures sent <= Tried(o, s, compacting, t, r, replaced, shrunk, at, sent).sent
    decreases |t.attempts| - at
  {
    if at < |t.attempts| {
      var attempt := t.attempts[at];
      var sends := sent + SendsOf(o, s, compacting, t, r, attempt.route);
      match attempt.outcome
      case TooLong =>
        if RefusedSession(o, s, compacting, r, Answered(o, s, compacting, t, r, attempt.route).to).Some? && !replaced {
          SentStays(o, s.(session := None), compacting, t, RebuiltOr(t.system, r.(session := None), t.aside), true,
            shrunk, at + 1, sends);
        } else if !shrunk && Shrunk(t, r).Some? {
          SentStays(o, s, compacting, t, Shrunk(t, r).value, replaced, true, at + 1, sends);
        }
      case Waits => SentStays(o, s, compacting, t, r, replaced, shrunk, at + 1, sends);
      case _ =>
    }
  }

  /** What the first attempt of a turn is sent is what the turn sends first. */
  lemma FirstIsSent(o: Options, s: Conversation, compacting: bool, t: Turn, r: Request)
    requires t.attempts != []
    ensures SendsOf(o, s, compacting, t, r, t.attempts[0].route)
         <= Tried(o, s, compacting, t, r, false, false, 0, []).sent
  {
    var attempt := t.attempts[0];
    var sends := SendsOf(o, s, compacting, t, r, attempt.route);
    assert [] + sends == sends;
    match attempt.outcome
    case TooLong =>
      if RefusedSession(o, s, compacting, r, Answered(o, s, compacting, t, r, attempt.route).to).Some? {
        SentStays(o, s.(session := None), compacting, t, RebuiltOr(t.system, r.(session := None), t.aside), true, false,
          1, sends);
      } else if Shrunk(t, r).Some? {
        SentStays(o, s, compacting, t, Shrunk(t, r).value, false, true, 1, sends);
      }
    case Waits => SentStays(o, s, compacting, t, r, false, false, 1, sends);
    case _ =>
  }

  /** Where the conversation's own provider holds a session, the first request to it carries that session, and the
      turn's own prompt, exactly when the session has room for it; and otherwise no session. */
  lemma OwnResumesExactly(o: Options, s: Conversation, t: Turn)
    requires Carries(t.system, t.prompt) && OwnHolds(o, s)
    requires t.attempts != [] && !t.attempts[0].route.Moves?
    ensures var sent := Took(o, s, t).sent;
      && (HasRoom(o, s, t.system, t.prompt) <==>
            |sent| > 0 && sent[0] == Sent(o.own, Request(s.session, t.prompt, false), s.bytes))
      && (!HasRoom(o, s, t.system, t.prompt) && |sent| > 0 ==> sent[0].to == o.own && sent[0].request.session.None?)
  {
    var compacting := CompactionDue(o, s, t.system, t.prompt).Some?;
    FirstIsSent(o, s, compacting, t, Prepared(o, s, compacting, t));
  }

  /** And the alternate's twin: moved there at once, the first request to it carries the session it holds exactly when
      there is room for the turn's own prompt; that prompt alone, but for what was rebuilt for the other provider. */
  lemma AlternateResumesExactly(o: Options, s: Conversation, t: Turn)
    requires Carries(t.system, t.prompt) && AlternateHolds(o, s) && Crosses(o)
    requires t.attempts != [] && t.attempts[0].route.Moves?
    ensures var sent := Took(o, s, t).sent;
      var alone := s.turns == 0 || t.elsewhere;
      var prompt := if alone then t.prompt else Rebuild(t).prompt;
      && (HasRoom(o, s, t.system, t.prompt) <==>
            |sent| > 0 && sent[0].to == o.failover.value && sent[0].request.session == s.session)
      && (HasRoom(o, s, t.system, t.prompt) ==> sent[0].request.prompt == prompt)
  {
    var compacting := CompactionDue(o, s, t.system, t.prompt).Some?;
    FirstIsSent(o, s, compacting, t, Prepared(o, s, compacting, t));
  }

  /** A rebuild goes in front of a prompt exactly where it was made, says something, and fits beside it in what one turn
      may carry; where it does not fit, or was not made, there is no such request. */
  lemma RebuiltExactly(system: nat, session: Option<Issued>, prompt: nat, record: Option<nat>)
    ensures Rebuilt(system, Request(session, prompt, false), record) ==
      if record.None? || (record.value > 0 && !Carries(system, record.value + prompt)) then None
      else Some(Request(session, record.value + prompt, record.value > 0))
  {
  }

  /** The prompt behind a rebuild of the record, where there is one to put in front of it. */
  function Behind(system: nat, prompt: nat, record: Option<nat>): Request {
    if record.Some? && record.value > 0 && Carries(system, record.value + prompt)
      then Request(None, record.value + prompt, true)
    else Request(None, prompt, false)
  }

  /** A session with no room for the turn is left: where the record can be rebuilt and the change noted, the turn begins
      a new one with the rebuild in front of it, and where it cannot, nothing is sent and the session stays. */
  lemma CompactsExactly(o: Options, s: Conversation, t: Turn)
    requires Carries(t.system, t.prompt) && OwnHolds(o, s) && !HasRoom(o, s, t.system, t.prompt)
    requires t.attempts != [] && !t.attempts[0].route.Moves?
    ensures var made :=
        t.compacted.Some? && (t.compacted.value > 0 ==> Carries(t.system, t.compacted.value + t.prompt));
      if made && t.noted then
        && Took(o, s, t).sent != []
        && (t.compacted.value > 0 || s.turns == 0 || t.elsewhere ==>
              Took(o, s, t).sent[0] == Sent(o.own, Behind(t.system, t.prompt, t.compacted), s.bytes))
      else Took(o, s, t) == Account(s, [], None)
  {
    FirstIsSent(o, s, true, t, Prepared(o, s, true, t));
  }

  /** A fresh conversation's first turn goes as it is. */
  lemma FirstTurnGoesAlone(o: Options, t: Turn)
    requires Carries(t.system, t.prompt) && t.attempts != [] && !t.attempts[0].route.Moves?
    ensures var sent := Took(o, Start(o), t).sent;
      sent != [] && sent[0] == Sent(o.own, Request(None, t.prompt, false), 0)
  {
    FirstIsSent(o, Start(o), false, t, Prepared(o, Start(o), false, t));
  }

  /** Refused as too long, a session the own provider holds is set aside, and the turn is sent again behind a rebuild;
      and the record no longer has the session. */
  lemma SetsAsideExactly(o: Options, s: Conversation, t: Turn)
    requires Carries(t.system, t.prompt) && OwnHolds(o, s) && HasRoom(o, s, t.system, t.prompt)
    requires t.attempts == [Attempt(Stays, TooLong), Attempt(Stays, Fails)]
    ensures Took(o, s, t) == Account(s.(session := None),
      [Sent(o.own, Request(s.session, t.prompt, false), s.bytes),
       Sent(o.own, Behind(t.system, t.prompt, t.aside), s.bytes)],
      None)
  {
    AsideIsSent(o, s, t, Request(s.session, t.prompt, false));
  }

  /** The attempt after a session is set aside, and the last. */
  lemma AsideIsSent(o: Options, s: Conversation, t: Turn, r: Request)
    requires |t.attempts| == 2 && t.attempts[0].outcome == TooLong && t.attempts[1] == Attempt(Stays, Fails)
    requires r.prompt == t.prompt && !r.rebuilt
    requires var to := Answered(o, s, false, t, r, t.attempts[0].route).to; RefusedSession(o, s, false, r, to).Some?
    ensures Tried(o, s, false, t, r, false, false, 0, []) == Account(s.(session := None),
      SendsOf(o, s, false, t, r, t.attempts[0].route) + [Sent(o.own, Behind(t.system, t.prompt, t.aside), s.bytes)],
      None)
  {
    var sends := SendsOf(o, s, false, t, r, t.attempts[0].route);
    var next := RebuiltOr(t.system, r.(session := None), t.aside);
    assert next == Behind(t.system, t.prompt, t.aside);
    assert [] + sends == sends;
    assert SendsOf(o, s.(session := None), false, t, next, Stays) == [Sent(o.own, next, s.bytes)];
    assert Tried(o, s, false, t, r, false, false, 0, [])
        == Tried(o, s.(session := None), false, t, next, true, false, 1, sends);
  }

  /** So is one the alternate holds, refused there. */
  lemma AlternateSetsAsideExactly(o: Options, s: Conversation, t: Turn)
    requires Carries(t.system, t.prompt) && AlternateHolds(o, s) && Crosses(o) && HasRoom(o, s, t.system, t.prompt)
    requires s.turns == 0 || t.elsewhere
    requires t.attempts == [Attempt(Moves, TooLong), Attempt(Stays, Fails)]
    ensures Took(o, s, t) == Account(s.(session := None),
      [Sent(o.failover.value, Request(s.session, t.prompt, false), s.bytes),
       Sent(o.own, Behind(t.system, t.prompt, t.aside), s.bytes)],
      None)
  {
    AsideIsSent(o, s, t, Request(None, t.prompt, false));
  }

  /** And refused with no session to set aside, a rebuild is halved, once. */
  lemma ShrinksExactly(o: Options, s: Conversation, t: Turn)
    requires Carries(t.system, t.prompt) && s.session.None? && s.turns > 0 && !t.elsewhere
    requires Behind(t.system, t.prompt, t.own).rebuilt && t.smaller.Some? && t.smaller.value > 0
    requires Carries(t.system, t.smaller.value + t.prompt)
    requires t.attempts == [Attempt(Stays, TooLong), Attempt(Stays, TooLong), Attempt(Stays, Fails)]
    ensures Took(o, s, t) == Account(s,
      [Sent(o.own, Behind(t.system, t.prompt, t.own), s.bytes),
       Sent(o.own, Behind(t.system, t.prompt, t.smaller), s.bytes)],
      None)
  {
    var one, two := Behind(t.system, t.prompt, t.own), Behind(t.system, t.prompt, t.smaller);
    var first := [Sent(o.own, one, s.bytes)];
    assert Prepared(o, s, false, t) == one && Shrunk(t, one) == Some(two);
    assert [] + first == first;
    assert SendsOf(o, s, false, t, one, Stays) == first;
    assert SendsOf(o, s, false, t, two, Stays) == [Sent(o.own, two, s.bytes)];
    assert Tried(o, s, false, t, one, false, false, 0, []) == Tried(o, s, false, t, two, false, true, 1, first);
    assert Tried(o, s, false, t, two, false, true, 1, first)
        == Account(s, first + [Sent(o.own, two, s.bytes)], None);
  }

  // ---- What a resumed session is sent ----

  /** What was judged: the turn fits beside the session as it was measured. */
  ghost predicate Judged(o: Options, s: Conversation, t: Turn) {
    s.bytes > 0 && s.bytes + t.system + t.prompt <= SessionBudget(o)
  }

  /** A resumed session is sent the prompt that was judged, or, on the alternate, that prompt behind a rebuild that was
      made for the conversation's own provider. */
  ghost predicate AsJudged(o: Options, s: Conversation, t: Turn, sent: Sent) {
    sent.request.session.Some? ==>
      && Judged(o, s, t) && sent.measured == s.bytes && sent.request.session == s.session
      && (sent.request.prompt == t.prompt
          || (Crosses(o) && s.backend == o.failover && sent.to == o.failover.value && sent.request.rebuilt))
  }

  ghost predicate Fits(t: Turn, r: Request) { t.system + r.prompt <= MAX_TURN_INPUT_BYTES }

  /** What the loop keeps of the record and the request, `s` being the record the turn began with. */
  ghost predicate Ready(o: Options, s: Conversation, now: Conversation, compacting: bool, t: Turn, r: Request) {
    && (now == s || now == s.(session := None))
    && r.session == ResumableSession(o, now, compacting)
    && (r.rebuilt || r.prompt == t.prompt) && r.prompt >= t.prompt && Fits(t, r)
    && (r.session.Some? ==> !r.rebuilt)
    && (compacting || now.session.None? || Judged(o, s, t)
        || (ResumableSession(o, s, false).None? && AlternateSession(o, s, false).None?))
  }

  lemma RebuiltReady(t: Turn, r: Request, record: Option<nat>)
    requires Fits(t, r) && (r.rebuilt || r.prompt == t.prompt) && r.prompt >= t.prompt
    ensures var b := RebuiltOr(t.system, r, record);
      Fits(t, b) && b.session == r.session && (b.rebuilt || b.prompt == t.prompt) && b.prompt >= t.prompt
  {
  }

  lemma PreparedReady(o: Options, s: Conversation, compacting: bool, t: Turn)
    requires t.system + t.prompt <= MAX_TURN_INPUT_BYTES
    requires compacting <==> CompactionDue(o, s, t.system, t.prompt).Some?
    ensures Ready(o, s, s, compacting, t, Prepared(o, s, compacting, t))
  {
    RebuiltReady(t, Request(None, t.prompt, false), t.compacted);
    RebuiltReady(t, RebuiltOr(t.system, Request(None, t.prompt, false), t.compacted), t.own);
    RebuiltReady(t, Request(None, t.prompt, false), t.own);
  }

  lemma SendsJudged(o: Options, s: Conversation, now: Conversation, compacting: bool, t: Turn, r: Request, route: Route)
    requires Ready(o, s, now, compacting, t, r)
    ensures forall k: nat | k < |SendsOf(o, now, compacting, t, r, route)| ::
      AsJudged(o, s, t, SendsOf(o, now, compacting, t, r, route)[k])
        && Fits(t, SendsOf(o, now, compacting, t, r, route)[k].request)
  {
  }

  ghost predicate AllJudged(o: Options, s: Conversation, t: Turn, sent: seq<Sent>) {
    forall k: nat | k < |sent| :: AsJudged(o, s, t, sent[k]) && Fits(t, sent[k].request)
  }

  lemma MoreJudged(o: Options, s: Conversation, t: Turn, sent: seq<Sent>, more: seq<Sent>)
    requires AllJudged(o, s, t, sent) && AllJudged(o, s, t, more)
    ensures AllJudged(o, s, t, sent + more)
  {
  }

  lemma {:induction false} TriedJudged(o: Options, s: Conversation, now: Conversation, compacting: bool, t: Turn,
                                       r: Request, replaced: bool, shrunk: bool, at: nat, sent: seq<Sent>)
    requires Ready(o, s, now, compacting, t, r) && AllJudged(o, s, t, sent)
    ensures AllJudged(o, s, t, Tried(o, now, compacting, t, r, replaced, shrunk, at, sent).sent)
    decreases |t.attempts| - at
  {
    if at < |t.attempts| {
      var attempt := t.attempts[at];
      var sends := SendsOf(o, now, compacting, t, r, attempt.route);
      SendsJudged(o, s, now, compacting, t, r, attempt.route);
      MoreJudged(o, s, t, sent, sends);
      match attempt.outcome
      case TooLong =>
        var to := Answered(o, now, compacting, t, r, attempt.route).to;
        if RefusedSession(o, now, compacting, r, to).Some? && !replaced {
          RebuiltReady(t, r.(session := None), t.aside);
          TriedJudged(o, s, now.(session := None), compacting, t, RebuiltOr(t.system, r.(session := None), t.aside),
            true, shrunk, at + 1, sent + sends);
        } else if RefusedSession(o, now, compacting, r, to).None? && !shrunk && Shrunk(t, r).Some? {
          TriedJudged(o, s, now, compacting, t, Shrunk(t, r).value, replaced, true, at + 1, sent + sends);
        }
      case Waits => TriedJudged(o, s, now, compacting, t, r, replaced, shrunk, at + 1, sent + sends);
      case _ =>
    }
  }

  /** However its attempts go, every request a turn sends on a resumed session was judged beside what that session
      measured, and fits the budget with the prompt it was judged by; and never passes it by more than a turn may
      carry. */
  lemma BudgetHolds(o: Options, s: Conversation, t: Turn, k: nat)
    requires k < |Took(o, s, t).sent| && Took(o, s, t).sent[k].request.session.Some?
    ensures var sent := Took(o, s, t).sent[k];
      && sent.measured == s.bytes > 0 && s.bytes + t.system + t.prompt <= SessionBudget(o)
      && (sent.request.prompt != t.prompt ==>
            Crosses(o) && s.backend == o.failover && sent.to == o.failover.value && sent.request.rebuilt)
      && sent.measured + t.system + sent.request.prompt <= SessionBudget(o) + MAX_TURN_INPUT_BYTES
  {
    var compacting := CompactionDue(o, s, t.system, t.prompt).Some?;
    PreparedReady(o, s, compacting, t);
    TriedJudged(o, s, s, compacting, t, Prepared(o, s, compacting, t), false, false, 0, []);
    assert AsJudged(o, s, t, Took(o, s, t).sent[k]);
  }

  // ---- When every resumed send fits ----

  predicate Roomy(o: Options, s: Conversation, t: Turn, prompt: nat) {
    s.bytes + t.system + prompt <= SessionBudget(o)
  }

  ghost predicate SendsFit(o: Options, s: Conversation, t: Turn) {
    forall k: nat | k < |Took(o, s, t).sent| && Took(o, s, t).sent[k].request.session.Some? ::
      Took(o, s, t).sent[k].measured + t.system + Took(o, s, t).sent[k].request.prompt <= SessionBudget(o)
  }

  /** The turn as it is prepared for the conversation's own provider when that holds no session. */
  function Rebuild(t: Turn): Request { RebuiltOr(t.system, Request(None, t.prompt, false), t.own) }

  /** What can be told before the turn is taken: the alternate holds the session, the turn is to be tried on the
      conversation's own provider first, and what is rebuilt for it, or for a second try at half the size, is more than
      the session has room for. */
  predicate AtRisk(o: Options, s: Conversation, t: Turn) {
    && Carries(t.system, t.prompt) && HasRoom(o, s, t.system, t.prompt)
    && Crosses(o) && AlternateHolds(o, s) && s.turns > 0 && !t.elsewhere
    && (!Roomy(o, s, t, Rebuild(t).prompt)
        || (Shrunk(t, Rebuild(t)).Some? && !Roomy(o, s, t, Shrunk(t, Rebuild(t)).value.prompt)))
  }

  /** Where nothing is at risk, whatever is asked of a session that is held has room in it. */
  ghost predicate RoomLeft(o: Options, s: Conversation, now: Conversation, compacting: bool, t: Turn, r: Request,
                           shrunk: bool) {
    !compacting && now.session.Some? ==>
      && (ResumableSession(o, now, false).Some? ==> Roomy(o, s, t, r.prompt))
      && (Crosses(o) && AlternateSession(o, now, false).Some? ==>
            Roomy(o, s, t, r.prompt) && (!shrunk && Shrunk(t, r).Some? ==> Roomy(o, s, t, Shrunk(t, r).value.prompt)))
  }

  lemma PreparedLeavesRoom(o: Options, s: Conversation, t: Turn)
    requires t.system + t.prompt <= MAX_TURN_INPUT_BYTES && !AtRisk(o, s, t)
    ensures var compacting := CompactionDue(o, s, t.system, t.prompt).Some?;
      RoomLeft(o, s, s, compacting, t, Prepared(o, s, compacting, t), false)
  {
    if CompactionDue(o, s, t.system, t.prompt).None? && Crosses(o) && s.backend == o.failover && s.session.Some? {
      assert Prepared(o, s, false, t) == if s.turns > 0 && !t.elsewhere then Rebuild(t)
          else Request(None, t.prompt, false);
    }
  }

  lemma SendsHaveRoom(o: Options, s: Conversation, now: Conversation, compacting: bool, t: Turn, r: Request,
                      shrunk: bool, route: Route)
    requires Ready(o, s, now, compacting, t, r) && RoomLeft(o, s, now, compacting, t, r, shrunk)
    ensures AllFit(o, t, SendsOf(o, now, compacting, t, r, route))
  {
  }

  ghost predicate AllFit(o: Options, t: Turn, sent: seq<Sent>) {
    forall k: nat | k < |sent| && sent[k].request.session.Some? ::
      sent[k].measured + t.system + sent[k].request.prompt <= SessionBudget(o)
  }

  lemma MoreFit(o: Options, t: Turn, sent: seq<Sent>, more: seq<Sent>)
    requires AllFit(o, t, sent) && AllFit(o, t, more)
    ensures AllFit(o, t, sent + more)
  {
  }

  lemma {:induction false} TriedFits(o: Options, s: Conversation, now: Conversation, compacting: bool, t: Turn,
                                     r: Request, replaced: bool, shrunk: bool, at: nat, sent: seq<Sent>)
    requires Ready(o, s, now, compacting, t, r) && RoomLeft(o, s, now, compacting, t, r, shrunk) && AllFit(o, t, sent)
    ensures AllFit(o, t, Tried(o, now, compacting, t, r, replaced, shrunk, at, sent).sent)
    decreases |t.attempts| - at
  {
    if at < |t.attempts| {
      var attempt := t.attempts[at];
      var sends := SendsOf(o, now, compacting, t, r, attempt.route);
      SendsHaveRoom(o, s, now, compacting, t, r, shrunk, attempt.route);
      MoreFit(o, t, sent, sends);
      match attempt.outcome
      case TooLong =>
        var to := Answered(o, now, compacting, t, r, attempt.route).to;
        if RefusedSession(o, now, compacting, r, to).Some? && !replaced {
          RebuiltReady(t, r.(session := None), t.aside);
          TriedFits(o, s, now.(session := None), compacting, t, RebuiltOr(t.system, r.(session := None), t.aside), true,
            shrunk, at + 1, sent + sends);
        } else if RefusedSession(o, now, compacting, r, to).None? && !shrunk && Shrunk(t, r).Some? {
          TriedFits(o, s, now, compacting, t, Shrunk(t, r).value, replaced, true, at + 1, sent + sends);
        }
      case Waits => TriedFits(o, s, now, compacting, t, r, replaced, shrunk, at + 1, sent + sends);
      case _ =>
    }
  }

  lemma FitsUnlessAtRisk(o: Options, s: Conversation, t: Turn)
    requires !AtRisk(o, s, t)
    ensures SendsFit(o, s, t)
  {
    if t.system + t.prompt <= MAX_TURN_INPUT_BYTES {
      var compacting := CompactionDue(o, s, t.system, t.prompt).Some?;
      PreparedReady(o, s, compacting, t);
      PreparedLeavesRoom(o, s, t);
      TriedFits(o, s, s, compacting, t, Prepared(o, s, compacting, t), false, false, 0, []);
    }
  }

  /** Refused by the conversation's own provider, the turn goes with its rebuild to the session that already holds
      what it rebuilds. */
  lemma CrossingBackOvershoots(o: Options, s: Conversation, t: Turn)
    requires AtRisk(o, s, t) && !Roomy(o, s, t, Rebuild(t).prompt) && t.attempts == [Attempt(MovesWhenRefused, Fails)]
    ensures |Took(o, s, t).sent| == 2 && Took(o, s, t).sent[1].request == Rebuild(t).(session := s.session)
    ensures !SendsFit(o, s, t)
  {
    assert Took(o, s, t).sent[1].measured == s.bytes;
  }

  lemma SecondTryOvershoots(o: Options, s: Conversation, t: Turn)
    requires AtRisk(o, s, t) && Roomy(o, s, t, Rebuild(t).prompt)
    requires t.attempts == [Attempt(Stays, TooLong), Attempt(Moves, Fails)]
    ensures |Took(o, s, t).sent| == 2
        && Took(o, s, t).sent[1].request == Shrunk(t, Rebuild(t)).value.(session := s.session)
    ensures !SendsFit(o, s, t)
  {
    var r := Rebuild(t);
    var first := [Sent(o.own, r, s.bytes)];
    assert Prepared(o, s, false, t) == r;
    assert Tried(o, s, false, t, r, false, false, 0, [])
        == Tried(o, s, false, t, Shrunk(t, r).value, false, true, 1, [] + first);
    assert Took(o, s, t).sent[1].measured == s.bytes;
  }

  /** Every request a turn sends on a resumed session fits the budget, however its attempts may go, exactly when
      nothing is at risk beforehand. */
  lemma FitsExactly(o: Options, s: Conversation, t: Turn)
    ensures (forall attempts :: SendsFit(o, s, t.(attempts := attempts))) <==> !AtRisk(o, s, t)
  {
    if !AtRisk(o, s, t) {
      forall attempts ensures SendsFit(o, s, t.(attempts := attempts)) {
        FitsUnlessAtRisk(o, s, t.(attempts := attempts));
      }
    } else if Roomy(o, s, t, Rebuild(t).prompt) {
      SecondTryOvershoots(o, s, t.(attempts := [Attempt(Stays, TooLong), Attempt(Moves, Fails)]));
    } else {
      CrossingBackOvershoots(o, s, t.(attempts := [Attempt(MovesWhenRefused, Fails)]));
    }
  }

  // ---- What the measure says ----

  /** The session is the one of the provider the record names, and measures what it carries less what was not shown. */
  ghost predicate Accounted(s: Conversation) {
    s.session.Some? ==>
      var held := s.session.value;
      s.backend == Some(held.from) && s.bytes > 0 && held.carried == s.bytes + held.unseen
  }

  /** A served turn that began a session and did not name it, while the record held another's. */
  predicate Misleads(l: Landing) {
    !l.named && l.sent.request.session.None? && !l.compacting && l.was.session.Some?
  }

  /** The failover put a rebuild in front of a turn that began a session. */
  predicate RebuiltInFront(o: Options, t: Turn, l: Landing) {
    && l.sent.request.session.None? && Crosses(o) && l.sent.to == o.failover.value
    && !l.request.rebuilt && t.alternate.Some? && t.alternate.value > 0
  }

  /** What it is of the session that the measure was never shown. */
  function UnseenBy(o: Options, t: Turn, l: Landing): nat {
    if l.sent.request.session.Some? then l.sent.request.session.value.unseen
    else if RebuiltInFront(o, t, l) then t.alternate.value
    else 0
  }

  ghost predicate LandsWell(o: Options, s: Conversation, t: Turn, l: Landing) {
    && (Accounted(Landed(o, l)) <==> !Misleads(l))
    && (!Misleads(l) && Landed(o, l).session.Some? ==> Landed(o, l).session.value.unseen == UnseenBy(o, t, l))
    && (Misleads(l) ==> Landed(o, l).session == s.session && Landed(o, l).backend != Some(s.session.value.from))
  }

  lemma LandsAccounted(o: Options, s: Conversation, now: Conversation, compacting: bool, t: Turn, r: Request,
                       route: Route, named: bool, reply: nat)
    requires Accounted(s) && Ready(o, s, now, compacting, t, r) && t.prompt > 0
    ensures var l := Landing(now, compacting, r, Answered(o, now, compacting, t, r, route), named, reply);
      LandsWell(o, s, t, l)
  {
  }

  ghost predicate AccountedFor(o: Options, s: Conversation, t: Turn, account: Account) {
    match account.served
    case None => Accounted(account.state)
    case Some(l) => account.state == Landed(o, l) && LandsWell(o, s, t, l)
  }

  lemma {:induction false} TriedAccounted(o: Options, s: Conversation, now: Conversation, compacting: bool, t: Turn,
                                          r: Request, replaced: bool, shrunk: bool, at: nat, sent: seq<Sent>)
    requires Accounted(s) && Ready(o, s, now, compacting, t, r) && t.prompt > 0
    ensures AccountedFor(o, s, t, Tried(o, now, compacting, t, r, replaced, shrunk, at, sent))
    decreases |t.attempts| - at
  {
    if at < |t.attempts| {
      var attempt := t.attempts[at];
      var sends := SendsOf(o, now, compacting, t, r, attempt.route);
      match attempt.outcome
      case Served(named, reply) => LandsAccounted(o, s, now, compacting, t, r, attempt.route, named, reply);
      case TooLong =>
        var to := Answered(o, now, compacting, t, r, attempt.route).to;
        if RefusedSession(o, now, compacting, r, to).Some? && !replaced {
          RebuiltReady(t, r.(session := None), t.aside);
          TriedAccounted(o, s, now.(session := None), compacting, t, RebuiltOr(t.system, r.(session := None), t.aside),
            true, shrunk, at + 1, sent + sends);
        } else if RefusedSession(o, now, compacting, r, to).None? && !shrunk && Shrunk(t, r).Some? {
          TriedAccounted(o, s, now, compacting, t, Shrunk(t, r).value, replaced, true, at + 1, sent + sends);
        }
      case Waits => TriedAccounted(o, s, now, compacting, t, r, replaced, shrunk, at + 1, sent + sends);
      case Fails =>
    }
  }

  /** One turn, from a record that accounts for its session: the record still does exactly unless the turn was served by
      a provider that began a session without naming it while another's was held; then the record has that other session
      under the wrong provider's name. And of what the session then holds, the measure was not shown exactly the rebuild
      the failover put in front of the turn that began it. */
  lemma TurnAccounted(o: Options, s: Conversation, t: Turn)
    requires Accounted(s) && t.prompt > 0
    ensures AccountedFor(o, s, t, Took(o, s, t))
    ensures Accounted(Took(o, s, t).state) <==> !(Took(o, s, t).served.Some? && Misleads(Took(o, s, t).served.value))
  {
    if t.system + t.prompt <= MAX_TURN_INPUT_BYTES {
      var compacting := CompactionDue(o, s, t.system, t.prompt).Some?;
      PreparedReady(o, s, compacting, t);
      TriedAccounted(o, s, s, compacting, t, Prepared(o, s, compacting, t), false, false, 0, []);
    }
  }

  /** So after a turn that began a session and named it, the measure is exact exactly when nothing was put in front
      of it. */
  lemma BegunExactly(o: Options, s: Conversation, t: Turn)
    requires Accounted(s) && t.prompt > 0
    requires Took(o, s, t).served.Some? && Took(o, s, t).served.value.named
    requires Took(o, s, t).served.value.sent.request.session.None?
    ensures var after := Took(o, s, t).state;
      after.session.Some? && (after.session.value.carried == after.bytes
        <==> !RebuiltInFront(o, t, Took(o, s, t).served.value))
  {
    TurnAccounted(o, s, t);
  }

  // ---- When a turn can mislead the record ----

  /** How a turn leaves the record, its attempts going so. */
  ghost predicate StaysAccounted(o: Options, s: Conversation, t: Turn, attempts: seq<Attempt>) {
    Accounted(Took(o, s, t.(attempts := attempts)).state)
  }

  /** What can be told before the turn is taken: it fits, it will not be compacted, a session is held, and a provider
      it may be tried on does not hold it: the conversation's own, or else the alternate, where what would be rebuilt
      for it can be made. */
  predicate MayMislead(o: Options, s: Conversation, t: Turn) {
    && Carries(t.system, t.prompt) && s.session.Some?
    && (OwnHolds(o, s) || AlternateHolds(o, s) ==> HasRoom(o, s, t.system, t.prompt))
    && (!OwnHolds(o, s) || (Crosses(o) && Rebuilt(t.system, Request(None, t.prompt, false), t.alternate).Some?))
  }

  lemma LandsUnmisled(o: Options, s: Conversation, now: Conversation, compacting: bool, t: Turn, r: Request,
                      route: Route, named: bool, reply: nat)
    requires Ready(o, s, now, compacting, t, r)
    requires compacting || now.session.None? || !MayMislead(o, s, t)
    requires t.system + t.prompt <= MAX_TURN_INPUT_BYTES
    requires !compacting ==> CompactionDue(o, s, t.system, t.prompt).None?
    ensures !Misleads(Landing(now, compacting, r, Answered(o, now, compacting, t, r, route), named, reply))
  {
  }

  lemma {:induction false} TriedUnmisled(o: Options, s: Conversation, now: Conversation, compacting: bool, t: Turn,
                                         r: Request, replaced: bool, shrunk: bool, at: nat, sent: seq<Sent>)
    requires Ready(o, s, now, compacting, t, r) && !MayMislead(o, s, t)
    requires t.system + t.prompt <= MAX_TURN_INPUT_BYTES
    requires !compacting ==> CompactionDue(o, s, t.system, t.prompt).None?
    ensures var served := Tried(o, now, compacting, t, r, replaced, shrunk, at, sent).served;
      served.Some? ==> !Misleads(served.value)
    decreases |t.attempts| - at
  {
    if at < |t.attempts| {
      var attempt := t.attempts[at];
      var sends := SendsOf(o, now, compacting, t, r, attempt.route);
      match attempt.outcome
      case Served(named, reply) => LandsUnmisled(o, s, now, compacting, t, r, attempt.route, named, reply);
      case TooLong =>
        var to := Answered(o, now, compacting, t, r, attempt.route).to;
        if RefusedSession(o, now, compacting, r, to).Some? && !replaced {
          RebuiltReady(t, r.(session := None), t.aside);
          TriedUnmisled(o, s, now.(session := None), compacting, t, RebuiltOr(t.system, r.(session := None), t.aside),
            true, shrunk, at + 1, sent + sends);
        } else if RefusedSession(o, now, compacting, r, to).None? && !shrunk && Shrunk(t, r).Some? {
          TriedUnmisled(o, s, now, compacting, t, Shrunk(t, r).value, replaced, true, at + 1, sent + sends);
        }
      case Waits => TriedUnmisled(o, s, now, compacting, t, r, replaced, shrunk, at + 1, sent + sends);
      case Fails =>
    }
  }

  lemma UnmisledUnlessMay(o: Options, s: Conversation, t: Turn)
    requires !MayMislead(o, s, t)
    ensures Took(o, s, t).served.Some? ==> !Misleads(Took(o, s, t).served.value)
  {
    if t.system + t.prompt <= MAX_TURN_INPUT_BYTES {
      var compacting := CompactionDue(o, s, t.system, t.prompt).Some?;
      PreparedReady(o, s, compacting, t);
      TriedUnmisled(o, s, s, compacting, t, Prepared(o, s, compacting, t), false, false, 0, []);
    }
  }

  /** One attempt is enough: on the provider that does not hold the session, which answers and names none. */
  lemma UnnamedMisleads(o: Options, s: Conversation, t: Turn)
    requires MayMislead(o, s, t)
    requires t.attempts
          == [Attempt(if ResumableSession(o, s, false).None? then Stays else Moves, Served(false, 0))]
    ensures Took(o, s, t).served.Some? && Misleads(Took(o, s, t).served.value)
  {
    PreparedReady(o, s, false, t);
  }

  /** The record goes on accounting for its session after a turn, however the turn's attempts may go, exactly when
      beforehand none of them can mislead it. */
  lemma AccountedExactly(o: Options, s: Conversation, t: Turn)
    requires Accounted(s) && t.prompt > 0
    ensures (forall attempts :: StaysAccounted(o, s, t, attempts)) <==> !MayMislead(o, s, t)
  {
    if !MayMislead(o, s, t) {
      forall attempts ensures StaysAccounted(o, s, t, attempts) {
        UnmisledUnlessMay(o, s, t.(attempts := attempts));
        TurnAccounted(o, s, t.(attempts := attempts));
      }
    } else {
      var attempts := [Attempt(if ResumableSession(o, s, false).None? then Stays else Moves, Served(false, 0))];
      UnnamedMisleads(o, s, t.(attempts := attempts));
      TurnAccounted(o, s, t.(attempts := attempts));
      assert !StaysAccounted(o, s, t, attempts);
    }
  }

  // ---- Every run ----

  /** A turn, under the options of the process that takes it. */
  datatype Visit = Visit(options: Options, turn: Turn)

  function Visited(s: Conversation, v: Visit): Account { Took(v.options, s, v.turn) }

  function Run(s: Conversation, visits: seq<Visit>): Conversation
    decreases |visits|
  {
    if visits == [] then s else Visited(Run(s, visits[..|visits| - 1]), visits[|visits| - 1]).state
  }

  /** No turn of a run is served by a provider that begins a session without naming it while another's is held. */
  ghost predicate NoneMisleads(s: Conversation, visits: seq<Visit>) {
    forall k: nat | k < |visits| ::
      var took := Visited(Run(s, visits[..k]), visits[k]);
      took.served.Some? ==> !Misleads(took.served.value)
  }

  /** Over every run of such turns, by processes with whatever options, refusals, crossings, replacements and
      compactions included, the measure is exactly the prompts and replies of the session it measures, but for what
      the failover put in front of the turn that began it; no session is resumed on a provider that did not name it;
      and none that was measured is compacted as unmeasured. */
  lemma {:induction false} MeasureIsExact(o: Options, visits: seq<Visit>)
    requires NoneMisleads(Start(o), visits) && forall k: nat | k < |visits| :: visits[k].turn.prompt > 0
    ensures Accounted(Run(Start(o), visits))
    ensures forall later: Options, system: nat, prompt: nat ::
        CompactionDue(later, Run(Start(o), visits), system, prompt) != Some(Unmeasured)
    decreases |visits|
  {
    if visits != [] {
      var before, n := visits[..|visits| - 1], |visits| - 1;
      forall k: nat | k < n
        ensures var took := Visited(Run(Start(o), before[..k]), before[k]);
          took.served.Some? ==> !Misleads(took.served.value)
      {
        assert before[..k] == visits[..k] && before[k] == visits[k];
      }
      MeasureIsExact(o, before);
      TurnAccounted(visits[n].options, Run(Start(o), before), visits[n].turn);
    }
  }

  /** A session begun by a turn that said nothing and was told nothing is the one kind that measures as unmeasured. */
  lemma OnlySilenceIsUnmeasured(o: Options, s: Conversation, t: Turn, reply: nat)
    requires s.session.None? && s.turns == 0 && t.system + t.prompt <= MAX_TURN_INPUT_BYTES
    requires t.attempts == [Attempt(Stays, Served(true, reply))]
    ensures CompactionDue(o, Took(o, s, t).state, t.system, t.prompt) == Some(Unmeasured)
        <==> t.prompt == 0 && reply == 0
  {
  }
}
