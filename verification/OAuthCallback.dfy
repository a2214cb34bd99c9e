/** The end of a browser login (internal/auth/callback.go, flow.go): callback requests and pasted
    redirect URLs that race for one authorization code. */
module OAuthCallback {
  import opened Wrappers

  datatype Endpoint = NoEndpoint | Untrusted | Trusted

  /** What the checks see of a callback or of a pasted URL. `instanceOk` is looked at only after
      the exchange. */
  datatype Input = Input(stateMatches: bool, cancelled: bool, denied: bool, hasCode: bool, endpoint: Endpoint,
                         instanceOk: bool)

  datatype Rejection = StateMismatch | BrowserCancelled | Denied | NoCode | EndpointMissing | EndpointInvalid
                     | ExchangeClaimed | ExchangeFailed | InstanceInvalid
  {
    /** Nothing was spent: the wait goes on. */
    predicate Retryable() {
      NoCode? || EndpointMissing? || EndpointInvalid?
    }
  }

  /** The checks before the claim, in their order. */
  function Check(q: Input): Option<Rejection> {
    if !q.stateMatches then Some(StateMismatch)
    else if q.cancelled then Some(BrowserCancelled)
    else if q.denied then Some(Denied)
    else if !q.hasCode then Some(NoCode)
    else match q.endpoint
      case NoEndpoint => Some(EndpointMissing)
      case Untrusted => Some(EndpointInvalid)
      case Trusted => None
  }

  /** The guard that lets one route exchange the code. */
  class ExchangeGuard {
    var taken: bool

    constructor ()
      ensures !taken
    {
      taken := false;
    }

    /** One compare-and-swap. */
    method Claim() returns (granted: bool)
      modifies this
      ensures taken && granted == !old(taken)
    {
      granted := !taken;
      taken := true;
    }
  }

  // ---------------------------------------------------------------------------
  // Interleavings
  // ---------------------------------------------------------------------------

  /** How far handleCallbackParams is for one input. */
  datatype Pc = Checking | Claiming | Exchanging | Verdict(rejection: Option<Rejection>)

  /** A callback request: waiting for the mutex, being handled, or answered. */
  datatype Request = Unknown | Queued(q: Input) | Handled(q: Input, pc: Pc) | Answered(page: Page)

  datatype Page = Ignored | Gone | Success | Completed | Incomplete | Failure

  datatype End = LoggedIn | FailedWith | ContextDone

  /** The terminal side: waiting in select, handling a pasted URL, or returned. */
  datatype Terminal = Selecting | Pasting(q: Input, pc: Pc) | Returned(end: End)

  /** What became of the claim: still free, being exchanged, delivered, or spent for nothing. */
  datatype ClaimState = Free | Running | Won | Wasted

  datatype State = State(claim: ClaimState, claimant: Option<Input>, consumed: bool, mutex: Option<nat>,
                         requests: map<nat, Request>, terminal: Terminal, results: nat, errors: nat, sent: nat,
                         exchanges: nat)

  datatype Event = Arrive(r: nat, get: bool, q: Input)
                 | Enter(r: nat)
                 | Advance(r: nat, exchanged: bool)
                 | Answer(r: nat)
                 | Paste(q: Input)
                 | AdvancePaste(exchanged: bool)
                 | EndPaste
                 | TakeResult
                 | TakeError
                 | ServerFails
                 | ContextEnds

  const START := State(Free, None, false, None, map[], Selecting, 0, 0, 0, 0)

  function At(s: State, r: nat): Request {
    if r in s.requests then s.requests[r] else Unknown
  }

  /** One step of handleCallbackParams; `exchanged` is the answer of the token endpoint. */
  function Proceed(s: State, q: Input, pc: Pc, exchanged: bool): Option<(State, Pc)> {
    match pc
    case Checking =>
      (match Check(q)
       case Some(rejection) => Some((s, Verdict(Some(rejection))))
       case None => Some((s, Claiming)))
    case Claiming =>
      if s.claim.Free? then Some((s.(claim := Running, claimant := Some(q)), Exchanging))
      else Some((s, Verdict(Some(ExchangeClaimed))))
    case Exchanging =>
      var t := s.(exchanges := s.exchanges + 1);
      if !exchanged then Some((t.(claim := Wasted), Verdict(Some(ExchangeFailed))))
      else if !q.instanceOk then Some((t.(claim := Wasted), Verdict(Some(InstanceInvalid))))
      else Some((t.(claim := Won), Verdict(None)))
    case Verdict(_) => None
  }

  /** The handler's answer: the page, and whether the request ends the login. */
  function AnswerOf(verdict: Option<Rejection>): (Page, bool) {
    match verdict
    case None => (Success, true)
    case Some(rejection) =>
      if rejection.ExchangeClaimed? then (Completed, true)
      else if rejection.Retryable() then (Incomplete, false)
      else (Failure, true)
  }

  function Next(s: State, e: Event): Option<State> {
    match e
    case Arrive(r, get, q) =>
      if !At(s, r).Unknown? then None
      else if !get || !q.stateMatches then Some(s.(requests := s.requests[r := Answered(Ignored)]))
      else Some(s.(requests := s.requests[r := Queued(q)]))
    case Enter(r) =>
      if !At(s, r).Queued? || s.mutex.Some? then None
      else if s.consumed then Some(s.(requests := s.requests[r := Answered(Gone)]))
      else Some(s.(mutex := Some(r), requests := s.requests[r := Handled(At(s, r).q, Checking)]))
    case Advance(r, exchanged) =>
      if !At(s, r).Handled? then None
      else (match Proceed(s, At(s, r).q, At(s, r).pc, exchanged)
        case None => None
        case Some((t, pc)) => Some(t.(requests := s.requests[r := Handled(At(s, r).q, pc)])))
    case Answer(r) =>
      if !At(s, r).Handled? || !At(s, r).pc.Verdict? then None
      else
        var verdict := At(s, r).pc.rejection;
        var (page, ends) := AnswerOf(verdict);
        var t := s.(requests := s.requests[r := Answered(page)], mutex := None, consumed := ends);
        if verdict.None? then Some(t.(results := s.results + 1, sent := s.sent + 1))
        else if page.Failure? then Some(t.(errors := s.errors + 1, sent := s.sent + 1))
        else Some(t)
    case Paste(q) =>
      if s.terminal.Selecting? then Some(s.(terminal := Pasting(q, Checking))) else None
    case AdvancePaste(exchanged) =>
      if !s.terminal.Pasting? then None
      else (match Proceed(s, s.terminal.q, s.terminal.pc, exchanged)
        case None => None
        case Some((t, pc)) => Some(t.(terminal := Pasting(s.terminal.q, pc))))
    case EndPaste =>
      if !s.terminal.Pasting? || !s.terminal.pc.Verdict? then None
      else (match s.terminal.pc.rejection
        case None => Some(s.(terminal := Returned(LoggedIn)))
        case Some(BrowserCancelled) => Some(s.(terminal := Returned(FailedWith)))
        case Some(_) => Some(s.(terminal := Selecting)))
    case TakeResult =>
      if s.terminal.Selecting? && s.results > 0 then
        Some(s.(terminal := Returned(LoggedIn), results := s.results - 1))
      else None
    case TakeError =>
      if s.terminal.Selecting? && s.errors > 0 then
        Some(s.(terminal := Returned(FailedWith), errors := s.errors - 1))
      else None
    case ServerFails => Some(s.(errors := s.errors + 1))
    case ContextEnds => if s.terminal.Selecting? then Some(s.(terminal := Returned(ContextDone))) else None
  }

  /** How a route's point relates to the claim. */
  predicate PcOk(s: State, q: Input, pc: Pc) {
    match pc
    case Checking => true
    case Claiming => Check(q).None?
    case Exchanging => s.claim.Running? && s.claimant == Some(q)
    case Verdict(None) => s.claim.Won?
    case Verdict(Some(ExchangeClaimed)) => !s.claim.Free?
    case Verdict(Some(_)) => true
  }

  /** The request being handled, as far as it is. */
  function Handler(s: State): Option<(Input, Pc)> {
    if s.mutex.Some? && At(s, s.mutex.value).Handled? then Some((At(s, s.mutex.value).q, At(s, s.mutex.value).pc))
    else None
  }

  predicate PasteAt(s: State, pc: Pc) {
    s.terminal.Pasting? && s.terminal.pc == pc
  }

  /** The claim is the terminal's own: its exchange is under way, or has logged it in. */
  predicate TerminalOwns(s: State) {
    || (s.claim.Running? && PasteAt(s, Exchanging))
    || (s.claim.Won? && (PasteAt(s, Verdict(None)) || s.terminal == Returned(LoggedIn)))
  }

  predicate IsAt(h: Option<(Input, Pc)>, pc: Pc) {
    h.Some? && h.value.1 == pc
  }

  /** What holds of the claim, the messages and the two routes; h is the request being handled. */
  predicate Core(s: State, h: Option<(Input, Pc)>) {
    && (h.Some? ==> !s.consumed && PcOk(s, h.value.0, h.value.1))
    && (s.terminal.Pasting? ==> PcOk(s, s.terminal.q, s.terminal.pc))
    && !(PasteAt(s, Exchanging) && IsAt(h, Exchanging))
    && (s.claim.Free? <==> s.claimant.None?)
    && (s.claimant.Some? ==> Check(s.claimant.value).None?)
    && s.exchanges == (if s.claim.Free? || s.claim.Running? then 0 else 1)
    && s.results <= s.sent <= 1 && (s.sent > 0 ==> s.consumed)
    && (s.results > 0 || s.terminal == Returned(LoggedIn) ==> s.claim.Won?)
    && (s.claim.Running? ==> PasteAt(s, Exchanging) || IsAt(h, Exchanging))
    // A login that succeeded is on its way to the terminal, or the terminal has returned.
    && (s.claim.Won? ==> s.results > 0 || s.terminal.Returned? || PasteAt(s, Verdict(None)) || IsAt(h, Verdict(None)))
    && (s.results > 0 || IsAt(h, Verdict(None)) ==> s.terminal != Returned(LoggedIn) && !PasteAt(s, Verdict(None)))
    // Before a request has ended the login, only the terminal or the request being handled has the claim.
    && (!s.consumed && !IsAt(h, Exchanging) && !IsAt(h, Verdict(None)) ==>
          s.claim.Free? || s.claim.Wasted? || TerminalOwns(s))
  }

  /** What holds of the requests. */
  ghost predicate Requests(s: State) {
    && (forall r :: r in s.requests && s.requests[r].Handled? ==> s.mutex == Some(r))
    && (s.mutex.Some? ==> At(s, s.mutex.value).Handled?)
    && (forall r :: r in s.requests && (s.requests[r] == Answered(Success) || s.requests[r] == Answered(Failure)) ==>
          s.sent == 1)
    && (forall r :: r in s.requests && s.requests[r] == Answered(Completed) ==> s.claim.Wasted? || TerminalOwns(s))
  }

  ghost predicate Inv(s: State) {
    Requests(s) && Core(s, Handler(s))
  }

  lemma HandlerProceeds(s: State, q: Input, pc: Pc, exchanged: bool)
    requires Core(s, Some((q, pc))) && Proceed(s, q, pc, exchanged).Some?
    ensures var (t, pc') := Proceed(s, q, pc, exchanged).value;
            && Core(t, Some((q, pc')))
            && t == s.(claim := t.claim, claimant := t.claimant, exchanges := t.exchanges)
            && (s.claim.Wasted? ==> t.claim.Wasted?) && (TerminalOwns(s) ==> TerminalOwns(t))
  {
  }

  lemma PasteProceeds(s: State, h: Option<(Input, Pc)>, exchanged: bool)
    requires Core(s, h) && s.terminal.Pasting? && Proceed(s, s.terminal.q, s.terminal.pc, exchanged).Some?
    ensures var (u, pc) := Proceed(s, s.terminal.q, s.terminal.pc, exchanged).value;
            var t := u.(terminal := Pasting(s.terminal.q, pc));
            && Core(t, h)
            && u == s.(claim := u.claim, claimant := u.claimant, exchanges := u.exchanges)
            && (s.claim.Wasted? ==> t.claim.Wasted?) && (TerminalOwns(s) ==> TerminalOwns(t) || t.claim.Wasted?)
  {
  }

  /** Requests other than r stay as they are. */
  lemma RequestsKept(s: State, t: State, r: nat)
    requires Requests(s) && (forall d :: d != r ==> (d in t.requests <==> d in s.requests))
    requires forall d :: d != r && d in s.requests ==> t.requests[d] == s.requests[d]
    requires r in t.requests && (t.requests[r].Handled? ==> t.mutex == Some(r))
    requires s.mutex.None? || s.mutex == Some(r) || t.mutex == s.mutex
    requires t.mutex.None? || t.mutex == s.mutex || t.mutex == Some(r)
    requires t.mutex == Some(r) ==> t.requests[r].Handled?
    requires s.sent == 1 ==> t.sent == 1
    requires t.requests[r] == Answered(Success) || t.requests[r] == Answered(Failure) ==> t.sent == 1
    requires s.claim.Wasted? || TerminalOwns(s) ==> t.claim.Wasted? || TerminalOwns(t)
    requires t.requests[r] == Answered(Completed) ==> t.claim.Wasted? || TerminalOwns(t)
    ensures Requests(t)
  {
    hide TerminalOwns;
  }

  lemma AdvanceKeeps(s: State, r: nat, exchanged: bool)
    requires Inv(s) && Next(s, Advance(r, exchanged)).Some?
    ensures Inv(Next(s, Advance(r, exchanged)).value)
    ensures s.claim.Wasted? ==> Next(s, Advance(r, exchanged)).value.claim.Wasted?
  {
    var t := Next(s, Advance(r, exchanged)).value;
    assert Handler(s) == Some((At(s, r).q, At(s, r).pc));
    HandlerProceeds(s, At(s, r).q, At(s, r).pc, exchanged);
    hide Proceed, Core, TerminalOwns;
    RequestsKept(s, t, r);
    assert Handler(t) == Some((At(t, r).q, At(t, r).pc));
    CoreIgnoresRequests(Proceed(s, At(s, r).q, At(s, r).pc, exchanged).value.0, t, Handler(t));
  }

  lemma CoreIgnoresRequests(s: State, t: State, h: Option<(Input, Pc)>)
    requires t == s.(requests := t.requests)
    ensures Core(t, h) == Core(s, h) && TerminalOwns(t) == TerminalOwns(s)
  {
  }

  lemma AdvancePasteKeeps(s: State, exchanged: bool)
    requires Inv(s) && Next(s, AdvancePaste(exchanged)).Some?
    ensures Inv(Next(s, AdvancePaste(exchanged)).value)
    ensures s.claim.Wasted? ==> Next(s, AdvancePaste(exchanged)).value.claim.Wasted?
  {
    PasteProceeds(s, Handler(s), exchanged);
    hide Proceed, Core, TerminalOwns;
  }

  lemma ArriveKeeps(s: State, e: Event)
    requires Inv(s) && Next(s, e).Some? && e.Arrive?
    ensures Inv(Next(s, e).value) && Next(s, e).value.claim == s.claim
  {
    var t := Next(s, e).value;
    CoreIgnoresRequests(s, t, Handler(s));
    hide Proceed, Core, TerminalOwns;
    assert Handler(t) == Handler(s);
    RequestsKept(s, t, e.r);
  }

  lemma EnterKeeps(s: State, r: nat)
    requires Inv(s) && Next(s, Enter(r)).Some?
    ensures Inv(Next(s, Enter(r)).value) && Next(s, Enter(r)).value.claim == s.claim
  {
    var t := Next(s, Enter(r)).value;
    assert Handler(s).None? && Core(t, Handler(t)) by { hide Check, Proceed; }
    hide Proceed, Core;
    RequestsKept(s, t, r);
  }

  lemma AnswerKeeps(s: State, r: nat)
    requires Inv(s) && Next(s, Answer(r)).Some?
    ensures Inv(Next(s, Answer(r)).value) && Next(s, Answer(r)).value.claim == s.claim
    ensures At(Next(s, Answer(r)).value, r) == Answered(Completed) ==> s.claim.Wasted? || TerminalOwns(s)
  {
    var t := Next(s, Answer(r)).value;
    assert Handler(s) == Some((At(s, r).q, At(s, r).pc)) && s.sent == 0 && Handler(t).None?;
    assert Core(t, None) by { hide Check, Proceed; }
    assert t.requests[r] == Answered(Completed) ==> s.claim.Wasted? || TerminalOwns(s);
    hide Proceed, Core;
    RequestsKept(s, t, r);
  }

  lemma TerminalKeeps(s: State, e: Event)
    requires Inv(s) && Next(s, e).Some?
    requires e.Paste? || e.EndPaste? || e.TakeResult? || e.TakeError? || e.ServerFails? || e.ContextEnds?
    ensures Inv(Next(s, e).value) && Next(s, e).value.claim == s.claim
  {
    var t := Next(s, e).value;
    TerminalCore(s, e, Handler(s));
    hide Core, TerminalOwns, Next;
  }

  lemma TerminalCore(s: State, e: Event, h: Option<(Input, Pc)>)
    requires Core(s, h) && Next(s, e).Some?
    requires e.Paste? || e.EndPaste? || e.TakeResult? || e.TakeError? || e.ServerFails? || e.ContextEnds?
    ensures var t := Next(s, e).value;
            && Core(t, h) && t.claim == s.claim && t.requests == s.requests && t.mutex == s.mutex && t.sent == s.sent
            && (TerminalOwns(s) ==> TerminalOwns(t))
  {
    hide Check, Proceed;
  }

  lemma NextKeeps(s: State, e: Event)
    requires Inv(s) && Next(s, e).Some?
    ensures Inv(Next(s, e).value)
    ensures s.claim.Wasted? ==> Next(s, e).value.claim.Wasted?
  {
    hide Inv, Next;
    match e
    case Advance(r, exchanged) => AdvanceKeeps(s, r, exchanged);
    case AdvancePaste(exchanged) => AdvancePasteKeeps(s, exchanged);
    case Answer(r) => AnswerKeeps(s, r);
    case Arrive(_, _, _) => ArriveKeeps(s, e);
    case Enter(r) => EnterKeeps(s, r);
    case _ => TerminalKeeps(s, e);
  }

  function Run(s: State, events: seq<Event>): Option<State>
    decreases |events|
  {
    if events == [] then Some(s)
    else match Next(s, events[0])
      case None => None
      case Some(t) => Run(t, events[1..])
  }

  lemma {:induction false} RunKeeps(s: State, events: seq<Event>)
    requires Inv(s) && Run(s, events).Some?
    ensures Inv(Run(s, events).value)
    ensures s.claim.Wasted? ==> Run(s, events).value.claim.Wasted?
    decreases |events|
  {
    hide Inv, Next;
    if events != [] {
      NextKeeps(s, events[0]);
      RunKeeps(Next(s, events[0]).value, events[1..]);
    }
  }

  /** In every interleaving the code is exchanged at most once, and the handlers send at most one
      message, a result only for a delivered claim. */
  lemma ExchangedOnce(events: seq<Event>)
    requires Run(START, events).Some?
    ensures var s := Run(START, events).value;
            s.exchanges <= 1 && s.sent <= 1 && s.results <= s.sent && (s.results > 0 ==> s.claim.Won?)
  {
    RunKeeps(START, events);
  }

  /** A login that succeeded is not lost: once no request is being handled, a terminal that still
      waits can take it. */
  lemma SuccessArrives(events: seq<Event>)
    requires Run(START, events).Some?
    ensures var s := Run(START, events).value;
            s.claim.Won? && s.mutex.None? && s.terminal.Selecting? ==>
              Next(s, TakeResult).Some? && Next(s, TakeResult).value.terminal == Returned(LoggedIn)
  {
    RunKeeps(START, events);
  }

  /** A request whose page says that the login succeeded or failed has sent its message, and the
      login takes no further request. */
  lemma EndIsReported(events: seq<Event>, r: nat)
    requires Run(START, events).Some?
    requires At(Run(START, events).value, r) == Answered(Success)
             || At(Run(START, events).value, r) == Answered(Failure)
    ensures Run(START, events).value.sent == 1 && Run(START, events).value.consumed
  {
    RunKeeps(START, events);
  }

  /** What takes the claim has the right state, was neither cancelled nor denied, and carries a code
      and an endpoint that is trusted. */
  lemma OnlyCheckedInputsClaim(events: seq<Event>, e: Event)
    requires Run(START, events).Some? && Next(Run(START, events).value, e).Some?
    requires Run(START, events).value.claim.Free? && !Next(Run(START, events).value, e).value.claim.Free?
    ensures var t := Next(Run(START, events).value, e).value;
            t.claimant.Some?
            && var q := t.claimant.value;
               q.stateMatches && !q.cancelled && !q.denied && q.hasCode && q.endpoint.Trusted?
    ensures var s := Run(START, events).value;
            (e.Advance? && At(s, e.r).q == Next(s, e).value.claimant.value)
            || (e.AdvancePaste? && s.terminal.q == Next(s, e).value.claimant.value)
  {
    RunKeeps(START, events);
    NextKeeps(Run(START, events).value, e);
  }

  /** How far an input can have come, and with which verdict: the verdict names the first check
      that it fails, and what passes them all can only lose the claim or fail afterwards. */
  predicate Explained(q: Input, pc: Pc) {
    match pc
    case Checking => true
    case Verdict(Some(StateMismatch)) => !q.stateMatches
    case Verdict(Some(BrowserCancelled)) => q.stateMatches && q.cancelled
    case Verdict(Some(Denied)) => q.stateMatches && !q.cancelled && q.denied
    case Verdict(Some(NoCode)) => q.stateMatches && !q.cancelled && !q.denied && !q.hasCode
    case Verdict(Some(EndpointMissing)) =>
      q.stateMatches && !q.cancelled && !q.denied && q.hasCode && q.endpoint.NoEndpoint?
    case Verdict(Some(EndpointInvalid)) =>
      q.stateMatches && !q.cancelled && !q.denied && q.hasCode && q.endpoint.Untrusted?
    case Verdict(rejection) =>
      && q.stateMatches && !q.cancelled && !q.denied && q.hasCode && q.endpoint.Trusted?
      && (rejection.None? ==> q.instanceOk) && (rejection == Some(InstanceInvalid) ==> !q.instanceOk)
    case _ => q.stateMatches && !q.cancelled && !q.denied && q.hasCode && q.endpoint.Trusted?
  }

  ghost predicate AllExplained(s: State) {
    && (forall r :: r in s.requests && s.requests[r].Handled? ==> Explained(s.requests[r].q, s.requests[r].pc))
    && (s.terminal.Pasting? ==> Explained(s.terminal.q, s.terminal.pc))
  }

  /** In every run each verdict is the one that the input deserves: an input that passes all five
      checks is never rejected by one, and any other gets the verdict of the first it fails. */
  lemma {:induction false} VerdictsExplained(s: State, events: seq<Event>)
    requires AllExplained(s) && Run(s, events).Some?
    ensures AllExplained(Run(s, events).value)
    decreases |events|
  {
    if events != [] {
      hide AllExplained, Next;
      StepExplained(s, events[0]);
      VerdictsExplained(Next(s, events[0]).value, events[1..]);
    }
  }

  lemma StepExplained(s: State, e: Event)
    requires AllExplained(s) && Next(s, e).Some?
    ensures AllExplained(Next(s, e).value)
  {
    hide Explained;
    assert forall q :: Explained(q, Checking) by { forall q { NothingToExplain(q); } }
    if e.Advance? {
      ProceedExplained(s, At(s, e.r).q, At(s, e.r).pc, e.exchanged);
    } else if e.AdvancePaste? {
      ProceedExplained(s, s.terminal.q, s.terminal.pc, e.exchanged);
    }
    hide Proceed;
  }

  lemma NothingToExplain(q: Input)
    ensures Explained(q, Checking)
  {
  }

  lemma ProceedExplained(s: State, q: Input, pc: Pc, exchanged: bool)
    requires Explained(q, pc) && Proceed(s, q, pc, exchanged).Some?
    ensures var (t, pc') := Proceed(s, q, pc, exchanged).value;
            Explained(q, pc') && t.requests == s.requests && t.terminal == s.terminal
  {
  }

  /** A callback that passes the five checks goes on to the claim, takes it when it is free, and is
      told that the login completed when it is not. */
  lemma CheckedInputClaims(s: State, r: nat, q: Input, first: bool, second: bool)
    requires At(s, r) == Handled(q, Checking)
    requires q.stateMatches && !q.cancelled && !q.denied && q.hasCode && q.endpoint.Trusted?
    ensures Run(s, [Advance(r, first), Advance(r, second)]).Some?
    ensures var t := Run(s, [Advance(r, first), Advance(r, second)]).value;
            if s.claim.Free? then
              t.claim.Running? && t.claimant == Some(q) && At(t, r) == Handled(q, Exchanging)
            else t.claim == s.claim && At(t, r) == Handled(q, Verdict(Some(ExchangeClaimed)))
  {
    var e1, e2 := Advance(r, first), Advance(r, second);
    var t := Next(s, e1).value;
    assert At(t, r) == Handled(q, Claiming) && t.claim == s.claim;
    assert [e1, e2][1..] == [e2] && [e2][1..] == [];
    assert Run(t, [e2]) == Run(Next(t, e2).value, []);
  }

  /** And so does such a pasted URL. */
  lemma CheckedPasteClaims(s: State, q: Input, first: bool, second: bool)
    requires s.terminal == Pasting(q, Checking)
    requires q.stateMatches && !q.cancelled && !q.denied && q.hasCode && q.endpoint.Trusted?
    ensures Run(s, [AdvancePaste(first), AdvancePaste(second)]).Some?
    ensures var t := Run(s, [AdvancePaste(first), AdvancePaste(second)]).value;
            if s.claim.Free? then
              t.claim.Running? && t.claimant == Some(q) && t.terminal == Pasting(q, Exchanging)
            else t.claim == s.claim && t.terminal == Pasting(q, Verdict(Some(ExchangeClaimed)))
  {
    var e1, e2 := AdvancePaste(first), AdvancePaste(second);
    var t := Next(s, e1).value;
    assert t.terminal == Pasting(q, Claiming) && t.claim == s.claim;
    assert [e1, e2][1..] == [e2] && [e2][1..] == [];
    assert Run(t, [e2]) == Run(Next(t, e2).value, []);
  }

  /** Which requests are not handled: what is no GET or has another state is turned away at once,
      and what comes after the end of the login is told so. */
  lemma TurnedAway(s: State, r: nat, get: bool, q: Input)
    ensures At(s, r).Unknown? ==>
              Next(s, Arrive(r, get, q)) == Some(s.(requests := s.requests[r :=
                if get && q.stateMatches then Queued(q) else Answered(Ignored)]))
    ensures At(s, r) == Queued(q) && s.mutex.None? ==>
              Next(s, Enter(r)) == Some(
                if s.consumed then s.(requests := s.requests[r := Answered(Gone)])
                else s.(requests := s.requests[r := Handled(q, Checking)], mutex := Some(r)))
    ensures s.mutex.Some? ==> Next(s, Enter(r)).None?
    ensures Next(s, ContextEnds).Some? <==> s.terminal.Selecting?
  {
  }

  /** How a verdict is answered: a request that lacks a code or a good endpoint leaves the login
      open, every other one ends it; a login and a failure are each sent to the terminal once. */
  lemma AnswerExactly(s: State, r: nat, verdict: Option<Rejection>)
    requires At(s, r).Handled? && At(s, r).pc == Verdict(verdict)
    ensures Next(s, Answer(r)).Some?
    ensures var t := Next(s, Answer(r)).value;
            && t.mutex.None? && t.claim == s.claim && t.terminal == s.terminal
            && (t.consumed <==> verdict !in {Some(NoCode), Some(EndpointMissing), Some(EndpointInvalid)})
            && t.requests == s.requests[r := Answered(
                 if verdict.None? then Success
                 else if verdict == Some(ExchangeClaimed) then Completed
                 else if t.consumed then Failure else Incomplete)]
            && t.results == s.results + (if verdict.None? then 1 else 0)
            && t.errors == s.errors
                 + (if t.consumed && verdict.Some? && verdict != Some(ExchangeClaimed) then 1 else 0)
            && t.sent - s.sent == (t.results - s.results) + (t.errors - s.errors)
  {
  }

  /** When the exchange fails after the claim, no continuation logs in: nothing gives the claim
      back. */
  lemma WastedClaimNeverLogsIn(events: seq<Event>, more: seq<Event>)
    requires Run(START, events).Some? && Run(START, events).value.claim.Wasted?
    requires Run(Run(START, events).value, more).Some?
    ensures var s := Run(Run(START, events).value, more).value;
            s.terminal != Returned(LoggedIn) && s.results == 0
  {
    RunKeeps(START, events);
    RunKeeps(Run(START, events).value, more);
  }

  /** A callback page that says "login completed in the terminal" is about the terminal's own
      exchange, or about a claim that was wasted. So in every run it is true, or becomes true, just
      when the claim is not wasted: the login is won exactly when the terminal has logged in or is
      about to return it, and while it is undecided the terminal's exchange is under way. */
  lemma CompletedPage(events: seq<Event>, r: nat)
    requires Run(START, events).Some? && At(Run(START, events).value, r) == Answered(Completed)
    ensures var s := Run(START, events).value;
            && (s.claim.Won? <==> s.terminal == Returned(LoggedIn) || PasteAt(s, Verdict(None)))
            && (s.claim.Running? <==> PasteAt(s, Exchanging))
            && !s.claim.Free? && s.results == 0
            && (s.claim.Wasted? ==> s.terminal != Returned(LoggedIn))
  {
    RunKeeps(START, events);
    hide Run, Check, Proceed;
  }

  /** The request being handled will answer with a failure. */
  predicate Failing(h: Option<(Input, Pc)>) {
    h.Some? && h.value.1.Verdict? && AnswerOf(h.value.1.rejection).0.Failure?
  }

  /** A message waits for the terminal, or the request being handled is going to send one. */
  predicate OnItsWay(s: State) {
    var h := Handler(s);
    s.results > 0 || s.errors > 0 || IsAt(h, Exchanging) || IsAt(h, Verdict(None)) || Failing(h)
  }

  /** A callback has taken the claim: its outcome reaches the terminal, or has. */
  predicate CallbackAnswers(s: State) {
    !s.claim.Free? && (s.terminal.Returned? || OnItsWay(s))
  }

  /** The request being handled takes a step or answers. */
  lemma HandlerStillAnswers(s: State, e: Event)
    requires Inv(s) && CallbackAnswers(s) && Next(s, e).Some? && (e.Advance? || e.Answer?)
    ensures CallbackAnswers(Next(s, e).value)
  {
    hide Check, PcOk, Core;
    var t := Next(s, e).value;
    assert Handler(s) == Some((At(s, e.r).q, At(s, e.r).pc));
    if e.Advance? {
      assert Handler(t) == Some((At(t, e.r).q, At(t, e.r).pc));
    }
  }

  lemma CallbackStillAnswers(s: State, e: Event)
    requires Inv(s) && CallbackAnswers(s) && Next(s, e).Some?
    ensures CallbackAnswers(Next(s, e).value)
  {
    if e.Advance? || e.Answer? {
      HandlerStillAnswers(s, e);
    } else {
      hide Check, PcOk, Core, Failing;
      assert e.Enter? ==> Handler(s).None?;
      assert !e.Enter? ==> Handler(Next(s, e).value) == Handler(s);
      hide Handler, Requests;
    }
  }

  lemma {:induction false} CallbackAlwaysAnswers(s: State, events: seq<Event>)
    requires Inv(s) && CallbackAnswers(s) && Run(s, events).Some?
    ensures CallbackAnswers(Run(s, events).value)
    decreases |events|
  {
    hide Inv, Next, CallbackAnswers;
    if events != [] {
      NextKeeps(s, events[0]);
      CallbackStillAnswers(s, events[0]);
      CallbackAlwaysAnswers(Next(s, events[0]).value, events[1..]);
    }
  }

  lemma {:induction false} TerminalOwnsOrWasted(s: State, events: seq<Event>)
    requires Inv(s) && (TerminalOwns(s) || s.claim.Wasted?) && Run(s, events).Some?
    ensures TerminalOwns(Run(s, events).value) || Run(s, events).value.claim.Wasted?
    decreases |events|
  {
    hide Inv, Next, TerminalOwns;
    if events != [] {
      NextKeeps(s, events[0]);
      TerminalOwnsOrWastes(s, events[0]);
      TerminalOwnsOrWasted(Next(s, events[0]).value, events[1..]);
    }
  }

  lemma TerminalOwnsOrWastes(s: State, e: Event)
    requires Inv(s) && (TerminalOwns(s) || s.claim.Wasted?) && Next(s, e).Some?
    ensures TerminalOwns(Next(s, e).value) || Next(s, e).value.claim.Wasted?
  {
    match e {
      case Advance(r, exchanged) =>
        assert Handler(s) == Some((At(s, r).q, At(s, r).pc));
        HandlerProceeds(s, At(s, r).q, At(s, r).pc, exchanged);
        hide Core, Check, Proceed;
      case AdvancePaste(exchanged) =>
        PasteProceeds(s, Handler(s), exchanged);
        hide Core, Check, Proceed;
      case _ =>
        hide Core, Check, Proceed, Requests;
    }
  }

  /** A paste that is told that the exchange is claimed already: the callback server has won the
      race, and its outcome is on its way, or an earlier paste has taken the claim, and then its
      exchange has failed. A message is on its way exactly in the first case, or when something
      else has failed. */
  lemma ClaimedPaste(before: seq<Event>, e: Event, after: seq<Event>)
    requires Run(START, before).Some? && Next(Run(START, before).value, e).Some?
    requires Run(START, before).value.claim.Free? && !Next(Run(START, before).value, e).value.claim.Free?
    requires Run(Next(Run(START, before).value, e).value, after).Some?
    requires PasteAt(Run(Next(Run(START, before).value, e).value, after).value, Verdict(Some(ExchangeClaimed)))
    ensures e.Advance? || e.AdvancePaste?
    ensures var s := Run(Next(Run(START, before).value, e).value, after).value;
            && (OnItsWay(s) <==> e.Advance? || s.errors > 0 || Failing(Handler(s)))
            && (e.AdvancePaste? ==> s.claim.Wasted?)
  {
    RunKeeps(START, before);
    var s0 := Run(START, before).value;
    var s1 := Next(s0, e).value;
    NextKeeps(s0, e);
    RunKeeps(s1, after);
    var s := Run(s1, after).value;
    ClaimTaken(s0, e);
    if e.Advance? {
      CallbackAlwaysAnswers(s1, after);
    } else {
      TerminalOwnsOrWasted(s1, after);
    }
    hide Run, Next, Check, Requests;
  }

  /** Who takes the claim. */
  lemma ClaimTaken(s: State, e: Event)
    requires Inv(s) && Next(s, e).Some? && s.claim.Free? && !Next(s, e).value.claim.Free?
    ensures e.Advance? || e.AdvancePaste?
    ensures e.Advance? ==> CallbackAnswers(Next(s, e).value)
    ensures e.AdvancePaste? ==> TerminalOwns(Next(s, e).value)
  {
    hide Check;
    if e.Advance? {
      var t := Next(s, e).value;
      assert Handler(t) == Some((At(t, e.r).q, At(t, e.r).pc));
    }
  }

  /** And that happens: after a paste whose exchange has failed, a second one. */
  lemma SecondPasteIsTold(q: Input)
    requires Check(q).None?
    ensures exists events :: Run(START, events).Some?
              && var s := Run(START, events).value;
                 PasteAt(s, Verdict(Some(ExchangeClaimed))) && !OnItsWay(s)
  {
    var s1 := START.(terminal := Pasting(q, Checking));
    var s2 := START.(terminal := Pasting(q, Claiming));
    var s3 := START.(terminal := Pasting(q, Exchanging), claim := Running, claimant := Some(q));
    var s4 := s3.(terminal := Pasting(q, Verdict(Some(ExchangeFailed))), claim := Wasted, exchanges := 1);
    var s5 := s4.(terminal := Selecting);
    var s6 := s4.(terminal := Pasting(q, Checking));
    var s7 := s4.(terminal := Pasting(q, Claiming));
    var s8 := s4.(terminal := Pasting(q, Verdict(Some(ExchangeClaimed))));
    FirstSteps(q, s1, s2, s3, s4, s5);
    assert Next(s5, Paste(q)) == Some(s6) && Next(s6, AdvancePaste(false)) == Some(s7);
    assert Next(s7, AdvancePaste(false)) == Some(s8) && !OnItsWay(s8);
    hide Run, Next, Check, OnItsWay;
    assert Run(s8, []) == Some(s8) by { NoEvents(s8); }
    var events := Prepend(s7, AdvancePaste(false), s8, []);
    events := Prepend(s6, AdvancePaste(false), s7, events);
    events := Prepend(s5, Paste(q), s6, events);
    events := Prepend(s4, EndPaste, s5, events);
    events := Prepend(s3, AdvancePaste(false), s4, events);
    events := Prepend(s2, AdvancePaste(false), s3, events);
    events := Prepend(s1, AdvancePaste(false), s2, events);
    events := Prepend(START, Paste(q), s1, events);
  }

  /** The terminal waits although no message can come any more, and a callback page has said that
      the login completed. */
  predicate Stuck(s: State, r: nat) {
    && s.claim.Wasted? && s.consumed && s.mutex.None? && s.terminal.Selecting?
    && s.results == 0 && s.errors == 0 && At(s, r) == Answered(Completed)
  }

  /** That state is reached: a pasted URL takes the claim, its exchange fails, and the browser's
      own callback arrives afterwards. */
  lemma ReachesStuck(q: Input)
    requires Check(q).None?
    ensures exists events :: Run(START, events).Some? && Stuck(Run(START, events).value, 1)
  {
    var s1 := START.(terminal := Pasting(q, Checking));
    var s2 := START.(terminal := Pasting(q, Claiming));
    var s3 := START.(terminal := Pasting(q, Exchanging), claim := Running, claimant := Some(q));
    var s4 := s3.(terminal := Pasting(q, Verdict(Some(ExchangeFailed))), claim := Wasted, exchanges := 1);
    var s5 := s4.(terminal := Selecting);
    var s6 := s5.(requests := map[1 := Queued(q)]);
    var s7 := s6.(mutex := Some(1), requests := map[1 := Handled(q, Checking)]);
    var s8 := s7.(requests := map[1 := Handled(q, Claiming)]);
    var s9 := s8.(requests := map[1 := Handled(q, Verdict(Some(ExchangeClaimed)))]);
    var s10 := s9.(requests := map[1 := Answered(Completed)], mutex := None, consumed := true);
    FirstSteps(q, s1, s2, s3, s4, s5);
    LastSteps(q, s5, s6, s7, s8, s9, s10);
    hide Run, Next, Check;
    assert Run(s10, []) == Some(s10) by { NoEvents(s10); }
    var events := Prepend(s9, Answer(1), s10, []);
    events := Prepend(s8, Advance(1, false), s9, events);
    events := Prepend(s7, Advance(1, false), s8, events);
    events := Prepend(s6, Enter(1), s7, events);
    events := Prepend(s5, Arrive(1, true, q), s6, events);
    events := Prepend(s4, EndPaste, s5, events);
    events := Prepend(s3, AdvancePaste(false), s4, events);
    events := Prepend(s2, AdvancePaste(false), s3, events);
    events := Prepend(s1, AdvancePaste(false), s2, events);
    events := Prepend(START, Paste(q), s1, events);
  }

  lemma FirstSteps(q: Input, s1: State, s2: State, s3: State, s4: State, s5: State)
    requires Check(q).None?
    requires s1 == START.(terminal := Pasting(q, Checking)) && s2 == START.(terminal := Pasting(q, Claiming))
    requires s3 == START.(terminal := Pasting(q, Exchanging), claim := Running, claimant := Some(q))
    requires s4 == s3.(terminal := Pasting(q, Verdict(Some(ExchangeFailed))), claim := Wasted, exchanges := 1)
    requires s5 == s4.(terminal := Selecting)
    ensures Next(START, Paste(q)) == Some(s1) && Next(s1, AdvancePaste(false)) == Some(s2)
    ensures Next(s2, AdvancePaste(false)) == Some(s3) && Next(s3, AdvancePaste(false)) == Some(s4)
    ensures Next(s4, EndPaste) == Some(s5)
  {
  }

  lemma LastSteps(q: Input, s5: State, s6: State, s7: State, s8: State, s9: State, s10: State)
    requires Check(q).None? && s5.claim.Wasted? && s5.requests == map[] && s5.mutex.None? && !s5.consumed
    requires s6 == s5.(requests := map[1 := Queued(q)])
    requires s7 == s6.(mutex := Some(1), requests := map[1 := Handled(q, Checking)])
    requires s8 == s7.(requests := map[1 := Handled(q, Claiming)])
    requires s9 == s8.(requests := map[1 := Handled(q, Verdict(Some(ExchangeClaimed)))])
    requires s10 == s9.(requests := map[1 := Answered(Completed)], mutex := None, consumed := true)
    ensures Next(s5, Arrive(1, true, q)) == Some(s6) && Next(s6, Enter(1)) == Some(s7)
    ensures Next(s7, Advance(1, false)) == Some(s8) && Next(s8, Advance(1, false)) == Some(s9)
    ensures Next(s9, Answer(1)) == Some(s10)
  {
    assert s6.requests[1 := Handled(q, Checking)] == s7.requests;
    assert s7.requests[1 := Handled(q, Claiming)] == s8.requests;
    assert s8.requests[1 := Handled(q, Verdict(Some(ExchangeClaimed)))] == s9.requests;
    assert s9.requests[1 := Answered(Completed)] == s10.requests;
  }

  /** And it lasts: whatever callbacks arrive and whatever is pasted, short of a cancelled consent
      page, a failing server or the end of the context, the terminal goes on waiting. */
  lemma {:induction false} StuckLasts(s: State, events: seq<Event>, r: nat)
    requires Inv(s) && WaitsForNothing(s) && At(s, r) == Answered(Completed) && Run(s, events).Some?
    requires forall e :: e in events ==>
               !e.ServerFails? && !e.ContextEnds? && (e.Paste? ==> Check(e.q) != Some(BrowserCancelled))
    ensures WaitsForNothing(Run(s, events).value) && At(Run(s, events).value, r) == Answered(Completed)
    decreases |events|
  {
    hide Inv, Run;
    assert Run(s, []) == Some(s) by { NoEvents(s); }
    if events != [] {
      RunStep(s, events);
      NextKeeps(s, events[0]);
      StillWaits(s, events[0], r);
      StuckLasts(Next(s, events[0]).value, events[1..], r);
    }
  }

  predicate WaitsForNothing(s: State) {
    && s.claim.Wasted? && s.consumed && s.results == 0 && s.errors == 0
    && match s.terminal
       case Selecting => true
       case Pasting(q, pc) =>
         Check(q) != Some(BrowserCancelled)
         && (pc.Verdict? ==> pc.rejection.Some? && pc.rejection != Some(BrowserCancelled))
       case Returned(_) => false
  }

  lemma StillWaits(s: State, e: Event, r: nat)
    requires Inv(s) && WaitsForNothing(s) && At(s, r) == Answered(Completed) && Next(s, e).Some?
    requires !e.ServerFails? && !e.ContextEnds? && (e.Paste? ==> Check(e.q) != Some(BrowserCancelled))
    ensures WaitsForNothing(Next(s, e).value) && At(Next(s, e).value, r) == Answered(Completed)
  {
  }

  /** The three ways such a terminal does return. */
  lemma StuckCanEnd(s: State, q: Input)
    requires WaitsForNothing(s) && s.terminal.Selecting? && Check(q) == Some(BrowserCancelled)
    ensures exists t :: Run(s, [ContextEnds]) == Some(t) && t.terminal == Returned(ContextDone)
    ensures exists t :: Run(s, [ServerFails, TakeError]) == Some(t) && t.terminal == Returned(FailedWith)
    ensures exists t ::
              Run(s, [Paste(q), AdvancePaste(false), EndPaste]) == Some(t) && t.terminal == Returned(FailedWith)
  {
    var ended := s.(terminal := Returned(ContextDone));
    var failed := s.(errors := 1);
    var took := s.(terminal := Returned(FailedWith));
    var pasted := s.(terminal := Pasting(q, Checking));
    var judged := s.(terminal := Pasting(q, Verdict(Some(BrowserCancelled))));
    assert Next(s, ContextEnds) == Some(ended);
    assert Next(s, ServerFails) == Some(failed) && Next(failed, TakeError) == Some(took);
    assert Next(s, Paste(q)) == Some(pasted) && Next(pasted, AdvancePaste(false)) == Some(judged);
    assert Next(judged, EndPaste) == Some(took);
    hide Run, Next, Check, WaitsForNothing;
    NoEvents(ended);
    NoEvents(took);
    var one := Prepend(s, ContextEnds, ended, []);
    var two := Prepend(failed, TakeError, took, []);
    two := Prepend(s, ServerFails, failed, two);
    var three := Prepend(judged, EndPaste, took, []);
    three := Prepend(pasted, AdvancePaste(false), judged, three);
    three := Prepend(s, Paste(q), pasted, three);
    assert one == [ContextEnds] && two == [ServerFails, TakeError]
           && three == [Paste(q), AdvancePaste(false), EndPaste];
  }

  // ---------------------------------------------------------------------------
  // When a login can still succeed
  // ---------------------------------------------------------------------------

  /** The claim is not spent, nor being spent on a callback whose instance will be refused. */
  predicate Promising(s: State) {
    !s.claim.Wasted? && (s.claim.Running? ==> s.claimant.Some? && s.claimant.value.instanceOk)
  }

  lemma DoomedStays(s: State, e: Event)
    requires Inv(s) && !Promising(s) && Next(s, e).Some?
    ensures !Promising(Next(s, e).value)
  {
    NextKeeps(s, e);
    hide Check;
    if e.Advance? {
      assert PcOk(s, At(s, e.r).q, At(s, e.r).pc);
    }
  }

  lemma {:induction false} DoomedForGood(s: State, events: seq<Event>)
    requires Inv(s) && !Promising(s) && Run(s, events).Some?
    ensures Inv(Run(s, events).value) && !Promising(Run(s, events).value)
    decreases |events|
  {
    hide Inv, Next, Promising;
    if events != [] {
      NextKeeps(s, events[0]);
      DoomedStays(s, events[0]);
      DoomedForGood(Next(s, events[0]).value, events[1..]);
    }
  }

  /** From every state a run reaches, a terminal that waits can still log in exactly when the
      claim is not wasted, nor about to be. */
  lemma CanStillLogIn(before: seq<Event>)
    requires Run(START, before).Some? && Run(START, before).value.terminal.Selecting?
    ensures var s := Run(START, before).value;
            (exists events :: Run(s, events).Some? && Run(s, events).value.terminal == Returned(LoggedIn))
              <==> Promising(s)
  {
    RunKeeps(START, before);
    var s := Run(START, before).value;
    forall events | Run(s, events).Some? && !Promising(s) ensures Run(s, events).value.terminal != Returned(LoggedIn) {
      DoomedForGood(s, events);
      WonIsPromising(Run(s, events).value);
    }
    hide Run;
    if Promising(s) {
      var events := LogIn(s);
    }
  }

  lemma WonIsPromising(s: State)
    requires Inv(s)
    ensures s.terminal == Returned(LoggedIn) ==> Promising(s)
  {
    hide Check, Requests;
  }

  lemma LogIn(s: State) returns (events: seq<Event>)
    requires Inv(s) && Promising(s) && s.terminal.Selecting?
    ensures Run(s, events).Some? && Run(s, events).value.terminal == Returned(LoggedIn)
  {
    hide Run;
    if s.claim.Free? {
      events := PasteIn(s);
    } else if s.results > 0 {
      events := TakeIt(s);
    } else {
      var r, q := s.mutex.value, At(s, s.mutex.value).q;
      if s.claim.Running? {
        var t := s.(claim := Won, exchanges := s.exchanges + 1, requests := s.requests[r := Handled(q, Verdict(None))]);
        assert Next(s, Advance(r, true)) == Some(t);
        var rest := AnswerIt(t, r, q);
        events := Prepend(s, Advance(r, true), t, rest);
      } else {
        events := AnswerIt(s, r, q);
      }
    }
  }

  lemma TakeIt(s: State) returns (events: seq<Event>)
    requires s.terminal.Selecting? && s.results > 0
    ensures Run(s, events).Some? && Run(s, events).value.terminal == Returned(LoggedIn)
  {
    var t := s.(terminal := Returned(LoggedIn), results := s.results - 1);
    assert Next(s, TakeResult) == Some(t);
    NoEvents(t);
    hide Run, Next;
    events := Prepend(s, TakeResult, t, []);
  }

  lemma AnswerIt(s: State, r: nat, q: Input) returns (events: seq<Event>)
    requires s.terminal.Selecting? && At(s, r) == Handled(q, Verdict(None))
    ensures Run(s, events).Some? && Run(s, events).value.terminal == Returned(LoggedIn)
  {
    var t := s.(requests := s.requests[r := Answered(Success)], mutex := None, consumed := true,
                results := s.results + 1, sent := s.sent + 1);
    assert Next(s, Answer(r)) == Some(t);
    hide Run, Next;
    var rest := TakeIt(t);
    events := Prepend(s, Answer(r), t, rest);
  }

  lemma PasteIn(s: State) returns (events: seq<Event>)
    requires s.terminal.Selecting? && s.claim.Free?
    ensures Run(s, events).Some? && Run(s, events).value.terminal == Returned(LoggedIn)
  {
    var q := Input(true, false, false, true, Trusted, true);
    var s1 := s.(terminal := Pasting(q, Checking));
    var s2 := s.(terminal := Pasting(q, Claiming));
    var s3 := s.(terminal := Pasting(q, Exchanging), claim := Running, claimant := Some(q));
    var s4 := s3.(terminal := Pasting(q, Verdict(None)), claim := Won, exchanges := s.exchanges + 1);
    var s5 := s4.(terminal := Returned(LoggedIn));
    assert Next(s, Paste(q)) == Some(s1) && Next(s1, AdvancePaste(true)) == Some(s2);
    assert Next(s2, AdvancePaste(true)) == Some(s3) && Next(s3, AdvancePaste(true)) == Some(s4);
    assert Next(s4, EndPaste) == Some(s5);
    NoEvents(s5);
    hide Run, Next;
    events := Prepend(s4, EndPaste, s5, []);
    events := Prepend(s3, AdvancePaste(true), s4, events);
    events := Prepend(s2, AdvancePaste(true), s3, events);
    events := Prepend(s1, AdvancePaste(true), s2, events);
    events := Prepend(s, Paste(q), s1, events);
  }

  lemma RunStep(s: State, events: seq<Event>)
    requires events != [] && Run(s, events).Some?
    ensures Next(s, events[0]).Some? && Run(s, events) == Run(Next(s, events[0]).value, events[1..])
  {
    hide Next;
  }

  lemma NoEvents(s: State)
    ensures Run(s, []) == Some(s)
  {
  }

  lemma Prepend(s: State, e: Event, t: State, rest: seq<Event>) returns (events: seq<Event>)
    requires Next(s, e) == Some(t)
    ensures events == [e] + rest && Run(s, events) == Run(t, rest)
  {
    hide Next;
    events := [e] + rest;
    assert events[1..] == rest;
  }
}
