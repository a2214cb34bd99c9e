/** The refreshing transport (internal/auth/transport.go): its fields, the stretches of code that
    run under its mutex as functions of those fields, and the flight that strings them together. */
module RefreshRegions {
  import opened Wrappers

  /** A rotated generation that has not been persisted; `previous` is the one presented for it,
      and `invalid` says the response was otherwise malformed. */
  datatype Pending = Pending(previous: nat, token: Option<nat>, refresh: nat, invalid: bool)

  /** The fields guarded by the mutex. None stands for an empty token. */
  datatype View = View(token: Option<nat>, refresh: Option<nat>, pending: Option<Pending>, blocked: bool,
                       inflight: Option<nat>)

  datatype RefreshError = Blocked | RefreshMissing | RefreshExpired | Cancelled | LockFailed | ReloadFailed
                        | PreflightFailed | NetworkFailed | InvalidResponse | Superseded | NotPersisted

  type Outcome = Option<RefreshError>

  datatype Stored = Stored(token: Option<nat>, refresh: Option<nat>)

  datatype ReloadResult = ReloadError | NothingStored | Loaded(stored: Stored, usable: bool)

  datatype Response = NoResponse | Unreadable | Reply(token: Option<nat>, refresh: Option<nat>, datesValid: bool)

  datatype PersistResult = Persisted | GenerationChanged | PersistError

  // ---------------------------------------------------------------------------
  // The stretches under the mutex
  // ---------------------------------------------------------------------------

  datatype Entry = Return(outcome: Outcome) | Join(flight: nat) | Lead

  /** The head of maybeRefresh. `usable`: the access token is not near its expiry. */
  function Enter(v: View, usable: bool, expired: bool, cancelled: bool): Entry {
    if v.blocked then Return(Some(Blocked))
    else if v.pending.None? && v.token.Some? && usable then Return(None)
    else if v.pending.None? && v.refresh.None? then Return(Some(RefreshMissing))
    else if v.pending.None? && expired then Return(Some(RefreshExpired))
    else if v.pending.None? && cancelled then Return(Some(Cancelled))
    else if v.inflight.Some? then Join(v.inflight.value)
    else Lead
  }

  /** adoptFreshStoredTokens: the new fields, and whether no network refresh is needed. */
  function Adopt(v: View, stored: Stored, usable: bool): (View, bool) {
    if stored.refresh.None? || (stored.refresh == v.refresh && stored.token == v.token) then (v, false)
    else (v.(token := stored.token, refresh := stored.refresh), stored.token.Some? && usable)
  }

  /** blockConsumedGeneration. */
  function Block(v: View): View {
    v.(token := None, refresh := None, blocked := true)
  }

  /** Taking over a response with a replacement refresh token. */
  function Install(v: View, previous: nat, token: Option<nat>, refresh: nat, datesValid: bool, wired: bool): View {
    var invalid := token.None? || !datesValid;
    var kept := if token.None? then v.token else token;
    v.(token := kept, refresh := Some(refresh),
       pending := if wired then Some(Pending(previous, kept, refresh, invalid)) else v.pending,
       blocked := v.blocked || (!wired && invalid))
  }

  /** The end of persistPendingRefresh. */
  function Settle(v: View, p: Pending, result: PersistResult): View {
    if v.pending != Some(p) then v
    else match result
      case Persisted => v.(pending := None, blocked := v.blocked || p.invalid)
      case GenerationChanged => v.(pending := None, token := None)
      case PersistError => v
  }

  function SettleOutcome(p: Pending, result: PersistResult): Outcome {
    match result
    case Persisted => if p.invalid then Some(InvalidResponse) else None
    case GenerationChanged => Some(Superseded)
    case PersistError => Some(NotPersisted)
  }

  // ---------------------------------------------------------------------------
  // The flight: refreshAndPersist as a program over those stretches
  // ---------------------------------------------------------------------------

  /** How far a flight has come. From Held to Releasing it holds the cross-process lock. */
  datatype Pc = Opened | WantLock(retry: bool) | Held(retry: bool) | Reloaded(adopted: bool) | Ready
              | Chosen(generation: nat) | Sending(generation: nat) | Persisting(p: Pending)
              | Releasing(outcome: Outcome) | Returning(outcome: Outcome)
  {
    predicate Locked() {
      Held? || Reloaded? || Ready? || Chosen? || Sending? || Persisting? || Releasing?
    }
  }

  /** A step of a flight: a stretch under the mutex or a call out of the process. */
  datatype Action = Look | TakeLock(ok: bool) | Retry | Cancel | Reload(result: ReloadResult) | Finish
                  | Preflight(ok: bool) | Choose(expired: bool) | Send | Receive(response: Response)
                  | Persist(persisted: PersistResult) | Release

  /** The step a flight takes, or None when it is not at that point. `wired`: persistence
      callbacks are set. */
  function Step(v: View, pc: Pc, a: Action, wired: bool): Option<(View, Pc)> {
    match pc
    case Opened =>
      if a == Look then Some((v, WantLock(v.pending.Some?))) else None
    case WantLock(retry) =>
      if a.TakeLock? then Some((v, if a.ok then Held(retry) else Returning(Some(LockFailed)))) else None
    case Held(true) =>
      if a != Retry then None
      else Some((v, if v.pending.Some? then Persisting(v.pending.value) else Releasing(None)))
    case Held(false) =>
      if a == Cancel then Some((v, Releasing(Some(Cancelled))))
      else if !a.Reload? then None
      else (match a.result
        case ReloadError => Some((v, Releasing(Some(ReloadFailed))))
        case NothingStored => Some((v, Reloaded(false)))
        case Loaded(stored, usable) => Some((Adopt(v, stored, usable).0, Reloaded(Adopt(v, stored, usable).1))))
    case Reloaded(adopted) =>
      if a == Cancel then Some((v, Releasing(Some(Cancelled))))
      else if adopted then (if a == Finish then Some((v, Releasing(None))) else None)
      else if a.Preflight? then Some((v, if a.ok then Ready else Releasing(Some(PreflightFailed))))
      else None
    case Ready =>
      if !a.Choose? then None
      else if v.refresh.None? then Some((v, Releasing(Some(RefreshMissing))))
      else if a.expired then Some((v, Releasing(Some(RefreshExpired))))
      else Some((v, Chosen(v.refresh.value)))
    case Chosen(generation) =>
      if a == Cancel then Some((v, Releasing(Some(Cancelled))))
      else if a == Send then Some((v, Sending(generation)))
      else None
    case Sending(generation) =>
      if !a.Receive? then None
      else (match a.response
        case NoResponse => Some((v, Releasing(Some(NetworkFailed))))
        case Unreadable => Some((Block(v), Releasing(Some(InvalidResponse))))
        case Reply(_, None, _) => Some((Block(v), Releasing(Some(InvalidResponse))))
        case Reply(token, Some(refresh), datesValid) =>
          var v' := Install(v, generation, token, refresh, datesValid, wired);
          Some((v', if v'.pending.Some? then Persisting(v'.pending.value)
                    else Releasing(if token.None? || !datesValid then Some(InvalidResponse) else None))))
    case Persisting(p) =>
      if a.Persist? then Some((Settle(v, p, a.persisted), Releasing(SettleOutcome(p, a.persisted)))) else None
    case Releasing(outcome) =>
      if a == Release then Some((v, Returning(outcome))) else None
    case Returning(_) => None
  }

  /** What holds of the fields wherever a flight is. */
  predicate AtPc(v: View, pc: Pc) {
    match pc
    case Opened => !v.blocked
    case WantLock(retry) => !v.blocked && retry == v.pending.Some?
    case Held(retry) => !v.blocked && retry == v.pending.Some?
    case Reloaded(_) => !v.blocked && v.pending.None?
    case Ready => !v.blocked && v.pending.None?
    case Chosen(_) => !v.blocked && v.pending.None?
    case Sending(_) => !v.blocked && v.pending.None?
    case Persisting(p) => !v.blocked && v.pending == Some(p)
    case Releasing(outcome) => outcome.None? ==> !v.blocked && v.pending.None?
    case Returning(outcome) => outcome.None? ==> !v.blocked && v.pending.None?
  }

  /** A pending generation is the one in use, and nothing is pending once blocked. */
  predicate ViewOk(v: View) {
    && (v.pending.Some? ==> v.token == v.pending.value.token && v.refresh == Some(v.pending.value.refresh))
    && (v.blocked ==> v.pending.None?)
  }

  lemma StepKeeps(v: View, pc: Pc, a: Action, wired: bool)
    requires ViewOk(v) && AtPc(v, pc) && Step(v, pc, a, wired).Some?
    ensures var (v', pc') := Step(v, pc, a, wired).value;
            ViewOk(v') && AtPc(v', pc') && v'.inflight == v.inflight && (v.blocked ==> v'.blocked)
  {
  }

  /** A flight's steps in order. */
  function Steps(v: View, pc: Pc, trace: seq<Action>, wired: bool): Option<(View, Pc)>
    decreases |trace|
  {
    if trace == [] then Some((v, pc))
    else match Step(v, pc, trace[0], wired)
      case None => None
      case Some((v', pc')) => Steps(v', pc', trace[1..], wired)
  }

  lemma {:induction false} StepsThen(v: View, pc: Pc, trace: seq<Action>, a: Action, wired: bool)
    requires Steps(v, pc, trace, wired).Some?
    ensures var (v', pc') := Steps(v, pc, trace, wired).value;
            Steps(v, pc, trace + [a], wired) == Step(v', pc', a, wired)
    decreases |trace|
  {
    if trace == [] {
      var one := trace + [a];
      assert one == [a] && one[1..] == [];
      match Step(v, pc, a, wired)
      case None =>
      case Some((v', pc')) => assert Steps(v', pc', one[1..], wired) == Some((v', pc'));
    } else {
      var (v', pc') := Step(v, pc, trace[0], wired).value;
      StepsThen(v', pc', trace[1..], a, wired);
      assert (trace + [a])[1..] == trace[1..] + [a];
    }
  }

  lemma {:induction false} StepsKeep(v: View, pc: Pc, trace: seq<Action>, wired: bool)
    requires ViewOk(v) && AtPc(v, pc) && Steps(v, pc, trace, wired).Some?
    ensures var (v', pc') := Steps(v, pc, trace, wired).value;
            ViewOk(v') && AtPc(v', pc') && v'.inflight == v.inflight && (v.blocked ==> v'.blocked)
    decreases |trace|
  {
    if trace != [] {
      StepKeeps(v, pc, trace[0], wired);
      var (v', pc') := Step(v, pc, trace[0], wired).value;
      StepsKeep(v', pc', trace[1..], wired);
    }
  }

  /** A flight that starts with a pending generation only retries its persistence. */
  lemma {:induction false} RetryNeverSends(v: View, pc: Pc, trace: seq<Action>, wired: bool)
    requires ViewOk(v) && AtPc(v, pc) && Steps(v, pc, trace, wired).Some?
    requires (pc.Opened? && v.pending.Some?) || (pc.WantLock? && pc.retry) || (pc.Held? && pc.retry)
             || pc.Persisting? || pc.Releasing? || pc.Returning?
    ensures Send !in trace
    decreases |trace|
  {
    if trace != [] {
      StepKeeps(v, pc, trace[0], wired);
      var (v', pc') := Step(v, pc, trace[0], wired).value;
      RetryNeverSends(v', pc', trace[1..], wired);
      assert trace == [trace[0]] + trace[1..];
    }
  }

  /** When another generation has won, the obsolete access token is not served again: the next
      call leads or joins a flight, or has no refresh token to do so with. */
  lemma ObsoleteIsReloaded(v: View, p: Pending, usable: bool, expired: bool, cancelled: bool)
    requires ViewOk(v) && v.pending == Some(p)
    ensures var v' := Settle(v, p, GenerationChanged);
            && v'.pending.None? && v'.refresh == v.refresh && ViewOk(v')
            && Enter(v', usable, expired, cancelled) != Return(None)
            && (!expired && !cancelled ==>
                  Enter(v', usable, expired, cancelled).Lead? || Enter(v', usable, expired, cancelled).Join?)
  {
  }

  /** A response without a replacement consumes the generation: nothing of it can be served or
      presented again. */
  lemma ConsumedIsGone(v: View, g: nat, response: Response, wired: bool, usable: bool)
    requires ViewOk(v) && AtPc(v, Sending(g))
    requires response.Unreadable? || (response.Reply? && response.refresh.None?)
    ensures var (v', pc) := Step(v, Sending(g), Receive(response), wired).value;
            && v'.token.None? && v'.refresh.None? && v'.blocked && pc == Releasing(Some(InvalidResponse))
            && Enter(v', usable, false, false) == Return(Some(Blocked))
  {
  }

  /** A malformed response that does carry a replacement: the replacement is offered for
      persistence against the generation presented, and once it is persisted the process blocks. */
  lemma MalformedIsKeptThenBlocks(v: View, g: nat, token: Option<nat>, refresh: nat, datesValid: bool)
    requires ViewOk(v) && AtPc(v, Sending(g)) && (token.None? || !datesValid)
    ensures var (v1, pc1) := Step(v, Sending(g), Receive(Reply(token, Some(refresh), datesValid)), true).value;
            && pc1.Persisting? && pc1.p.previous == g && pc1.p.refresh == refresh
            && pc1.p.token == (if token.Some? then token else v.token)
            && var (v2, pc2) := Step(v1, pc1, Persist(Persisted), true).value;
               v2.blocked && v2.pending.None? && v2.refresh == Some(refresh) && pc2 == Releasing(Some(InvalidResponse))
  {
  }

  // ---------------------------------------------------------------------------
  // Whole flights
  // ---------------------------------------------------------------------------

  /** When a call is served at once, fails at once, waits for a flight or opens one. */
  lemma EnterExactly(v: View, usable: bool, expired: bool, cancelled: bool)
    ensures var e, idle := Enter(v, usable, expired, cancelled), !v.blocked && v.pending.None?;
            var needy := idle && !(v.token.Some? && usable);
            && (e == Return(None) <==> idle && v.token.Some? && usable)
            && (e == Return(Some(Blocked)) <==> v.blocked)
            && (e == Return(Some(RefreshMissing)) <==> needy && v.refresh.None?)
            && (e == Return(Some(RefreshExpired)) <==> needy && v.refresh.Some? && expired)
            && (e == Return(Some(Cancelled)) <==> needy && v.refresh.Some? && !expired && cancelled)
            && (e.Join? ==> v.inflight == Some(e.flight)) && (e.Lead? ==> v.inflight.None?)
  {
  }

  lemma FromReleasing(v: View, o: Outcome, trace: seq<Action>, wired: bool, v': View, r: Outcome)
    requires Steps(v, Releasing(o), trace, wired) == Some((v', Returning(r)))
    ensures trace == [Release] && v' == v && r == o
  {
    assert trace != [] && Steps(v, Returning(o), trace[1..], wired) == Some((v', Returning(r)));
    assert trace[1..] == [] && trace == [trace[0]] + trace[1..];
  }

  lemma FromPersisting(v: View, p: Pending, trace: seq<Action>, wired: bool, v': View)
    requires v.pending == Some(p) && Steps(v, Persisting(p), trace, wired) == Some((v', Returning(None)))
    ensures trace == [Persist(Persisted), Release] && !p.invalid && v' == v.(pending := None)
  {
    var (v1, pc1) := Step(v, Persisting(p), trace[0], wired).value;
    FromReleasing(v1, pc1.outcome, trace[1..], wired, v', None);
    assert trace == [trace[0]] + trace[1..];
  }

  /** The steps that follow a good answer. */
  function Answered(wired: bool): seq<Action> {
    if wired then [Persist(Persisted), Release] else [Release]
  }

  /** How a flight can close without an error. */
  datatype Way = Retried | Adopted(stored: Stored) | Refreshed(result: ReloadResult, token: nat, refresh: nat)

  lemma FromSending(v: View, g: nat, trace: seq<Action>, wired: bool, v': View) returns (token: nat, refresh: nat)
    requires v.pending.None? && !v.blocked && Steps(v, Sending(g), trace, wired) == Some((v', Returning(None)))
    ensures trace == [Receive(Reply(Some(token), Some(refresh), true))] + Answered(wired)
    ensures v' == v.(token := Some(token), refresh := Some(refresh))
  {
    var (v1, pc1) := Step(v, Sending(g), trace[0], wired).value;
    assert trace == [trace[0]] + trace[1..];
    if pc1.Persisting? {
      FromPersisting(v1, pc1.p, trace[1..], wired, v');
    } else {
      FromReleasing(v1, pc1.outcome, trace[1..], wired, v', None);
    }
    token, refresh := trace[0].response.token.value, trace[0].response.refresh.value;
  }

  lemma FromReady(v: View, trace: seq<Action>, wired: bool, v': View) returns (token: nat, refresh: nat)
    requires v.pending.None? && !v.blocked && Steps(v, Ready, trace, wired) == Some((v', Returning(None)))
    ensures trace == [Choose(false), Send, Receive(Reply(Some(token), Some(refresh), true))] + Answered(wired)
    ensures v' == v.(token := Some(token), refresh := Some(refresh))
  {
    var (v1, pc1) := Step(v, Ready, trace[0], wired).value;
    if pc1.Releasing? {
      FromReleasing(v1, pc1.outcome, trace[1..], wired, v', None);
    }
    var rest := trace[1..];
    var (v2, pc2) := Step(v1, pc1, rest[0], wired).value;
    if pc2.Releasing? {
      FromReleasing(v2, pc2.outcome, rest[1..], wired, v', None);
    }
    token, refresh := FromSending(v2, pc2.generation, rest[1..], wired, v');
    assert trace == [trace[0], rest[0]] + rest[1..];
  }

  /** From the reload on: tokens that another process has stored are adopted, and then either they
      are usable and the flight ends, or the newest refresh token is presented. */
  lemma FromHeld(v: View, trace: seq<Action>, wired: bool, v': View) returns (way: Way)
    requires v.pending.None? && !v.blocked && Steps(v, Held(false), trace, wired) == Some((v', Returning(None)))
    ensures match way
            case Retried => false
            case Adopted(stored) =>
              && trace == [Reload(Loaded(stored, true)), Finish, Release]
              && stored.token.Some? && stored.refresh.Some?
              && (stored.token != v.token || stored.refresh != v.refresh)
              && v' == v.(token := stored.token, refresh := stored.refresh)
            case Refreshed(result, token, refresh) =>
              && trace == [Reload(result), Preflight(true), Choose(false), Send,
                           Receive(Reply(Some(token), Some(refresh), true))] + Answered(wired)
              && v' == v.(token := Some(token), refresh := Some(refresh)) && result != ReloadError
              && !(result.Loaded? && result.usable && result.stored.token.Some? && result.stored.refresh.Some?
                   && (result.stored.token != v.token || result.stored.refresh != v.refresh))
  {
    var (v1, pc1) := Step(v, Held(false), trace[0], wired).value;
    var rest := trace[1..];
    if pc1.Releasing? {
      FromReleasing(v1, pc1.outcome, rest, wired, v', None);
    }
    var (v2, pc2) := Step(v1, pc1, rest[0], wired).value;
    assert trace == [trace[0], rest[0]] + rest[1..];
    if pc2.Releasing? {
      FromReleasing(v2, pc2.outcome, rest[1..], wired, v', None);
      way := Adopted(trace[0].result.stored);
    } else {
      var token, refresh := FromReady(v2, rest[1..], wired, v');
      way := Refreshed(trace[0].result, token, refresh);
    }
  }

  /** What is presented is the stored refresh token when the reload found one, and the one in memory
      otherwise; the access token in memory is by then the stored one likewise. */
  lemma PresentsNewest(v: View, trace: seq<Action>, result: ReloadResult, wired: bool)
    requires v.pending.None? && trace == [Reload(result), Preflight(true), Choose(false), Send]
    requires Steps(v, Held(false), trace, wired).Some?
    ensures var newest := if result.Loaded? && result.stored.refresh.Some? then result.stored
                          else Stored(v.token, v.refresh);
            newest.refresh.Some?
            && Steps(v, Held(false), trace, wired)
               == Some((v.(token := newest.token, refresh := newest.refresh), Sending(newest.refresh.value)))
  {
    var newest := if result.Loaded? && result.stored.refresh.Some? then result.stored else Stored(v.token, v.refresh);
    var (v1, pc1) := Step(v, Held(false), trace[0], wired).value;
    var t1, t2, t3 := trace[1..], trace[1..][1..], trace[1..][1..][1..];
    assert t1[0] == Preflight(true) && t2[0] == Choose(false) && t3[0] == Send && t3[1..] == [];
    assert v1 == v.(token := newest.token, refresh := newest.refresh) && pc1 == Reloaded(false);
    assert Steps(v1, Ready, t2, wired).Some?;
    var pc3 := Step(v1, Ready, t2[0], wired).value.1;
    assert Steps(v1, pc3, t3, wired).Some? && pc3.Chosen?;
    assert Steps(v1, pc3, t3, wired) == Steps(v1, Sending(pc3.generation), t3[1..], wired);
  }

  /** A flight that closes without an error has done one of three things, step by step: it has
      persisted the generation that was pending; it has adopted stored tokens that are usable and
      not those in memory; or it has presented a refresh token and installed, and if callbacks are
      set persisted, an answer with both tokens and valid dates. */
  lemma CleanFlight(v: View, trace: seq<Action>, wired: bool, v': View) returns (way: Way)
    requires ViewOk(v) && !v.blocked && Steps(v, Opened, trace, wired) == Some((v', Returning(None)))
    ensures way.Retried? <==> v.pending.Some?
    ensures match way
            case Retried =>
              && trace == [Look, TakeLock(true), Retry, Persist(Persisted), Release]
              && !v.pending.value.invalid && v' == v.(pending := None)
            case Adopted(stored) =>
              && trace == [Look, TakeLock(true), Reload(Loaded(stored, true)), Finish, Release]
              && stored.token.Some? && stored.refresh.Some?
              && (stored.token != v.token || stored.refresh != v.refresh)
              && v' == v.(token := stored.token, refresh := stored.refresh)
            case Refreshed(result, token, refresh) =>
              && trace == [Look, TakeLock(true), Reload(result), Preflight(true), Choose(false), Send,
                           Receive(Reply(Some(token), Some(refresh), true))] + Answered(wired)
              && v' == v.(token := Some(token), refresh := Some(refresh)) && result != ReloadError
              && !(result.Loaded? && result.usable && result.stored.token.Some? && result.stored.refresh.Some?
                   && (result.stored.token != v.token || result.stored.refresh != v.refresh))
  {
    var retry, rest := v.pending.Some?, trace[1..];
    assert trace[0] == Look && Steps(v, WantLock(retry), rest, wired) == Some((v', Returning(None)));
    var tail := rest[1..];
    LockTaken(v, retry, rest, wired, v');
    assert trace == [Look, TakeLock(true)] + tail;
    if retry {
      var p := v.pending.value;
      assert tail[0] == Retry && Steps(v, Persisting(p), tail[1..], wired) == Some((v', Returning(None)));
      FromPersisting(v, p, tail[1..], wired, v');
      assert tail == [Retry] + tail[1..];
      way := Retried;
    } else {
      way := FromHeld(v, tail, wired, v');
    }
  }

  lemma LockTaken(v: View, retry: bool, trace: seq<Action>, wired: bool, v': View)
    requires Steps(v, WantLock(retry), trace, wired) == Some((v', Returning(None)))
    ensures trace != [] && trace[0] == TakeLock(true)
    ensures Steps(v, Held(retry), trace[1..], wired) == Some((v', Returning(None)))
  {
    var (v1, pc1) := Step(v, WantLock(retry), trace[0], wired).value;
    assert Steps(v1, pc1, trace[1..], wired) == Some((v', Returning(None)));
  }

  /** And each of the three does close without an error. A pending generation that was well formed
      is persisted: */
  lemma RetrySucceeds(v: View, wired: bool)
    requires ViewOk(v) && !v.blocked && v.pending.Some? && !v.pending.value.invalid
    ensures Steps(v, Opened, [Look, TakeLock(true), Retry, Persist(Persisted), Release], wired)
         == Some((v.(pending := None), Returning(None)))
  {
    hide Steps, ViewOk;
    var p, t := v.pending.value, [Look, TakeLock(true)];
    Locked(v, wired);
    Took(v, t, Retry, v, Held(true), v, Persisting(p), wired);
    Took(v, t + [Retry], Persist(Persisted), v, Persisting(p), v.(pending := None), Releasing(None), wired);
    Took(v, t + [Retry] + [Persist(Persisted)], Release, v.(pending := None), Releasing(None), v.(pending := None),
         Returning(None), wired);
    assert t + [Retry] + [Persist(Persisted)] + [Release] == [Look, TakeLock(true), Retry, Persist(Persisted), Release];
  }

  /** Stored tokens that are usable and not those in memory are adopted: */
  lemma AdoptSucceeds(v: View, stored: Stored, wired: bool)
    requires v.pending.None? && !v.blocked && stored.token.Some? && stored.refresh.Some?
    requires stored.token != v.token || stored.refresh != v.refresh
    ensures Steps(v, Opened, [Look, TakeLock(true), Reload(Loaded(stored, true)), Finish, Release], wired)
         == Some((v.(token := stored.token, refresh := stored.refresh), Returning(None)))
  {
    hide Steps;
    var t, v1 := [Look, TakeLock(true)], v.(token := stored.token, refresh := stored.refresh);
    var reload := Reload(Loaded(stored, true));
    Locked(v, wired);
    Took(v, t, reload, v, Held(false), v1, Reloaded(true), wired);
    Took(v, t + [reload], Finish, v1, Reloaded(true), v1, Releasing(None), wired);
    Took(v, t + [reload] + [Finish], Release, v1, Releasing(None), v1, Returning(None), wired);
    assert t + [reload] + [Finish] + [Release] == [Look, TakeLock(true), reload, Finish, Release];
  }

  /** And otherwise, when there is a refresh token to present, a good answer is installed. */
  lemma RefreshSucceeds(v: View, result: ReloadResult, token: nat, refresh: nat, wired: bool)
    requires !v.blocked && v.pending.None? && (result.NothingStored? || result.Loaded?)
    requires !(result.Loaded? && result.usable && result.stored.token.Some? && result.stored.refresh.Some?
               && (result.stored.token != v.token || result.stored.refresh != v.refresh))
    requires (result.Loaded? && result.stored.refresh.Some?) || v.refresh.Some?
    ensures Steps(v, Opened, [Look, TakeLock(true), Reload(result), Preflight(true), Choose(false), Send,
                              Receive(Reply(Some(token), Some(refresh), true))] + Answered(wired), wired)
         == Some((v.(token := Some(token), refresh := Some(refresh)), Returning(None)))
  {
    hide Steps;
    var t := [Look, TakeLock(true)];
    Locked(v, wired);
    var newest := if result.Loaded? && result.stored.refresh.Some? then result.stored else Stored(v.token, v.refresh);
    var v1, g := v.(token := newest.token, refresh := newest.refresh), newest.refresh.value;
    var v3 := v.(token := Some(token), refresh := Some(refresh));
    var reply := Receive(Reply(Some(token), Some(refresh), true));
    Took(v, t, Reload(result), v, Held(false), v1, Reloaded(false), wired);
    var t1 := t + [Reload(result)];
    Took(v, t1, Preflight(true), v1, Reloaded(false), v1, Ready, wired);
    var t2 := t1 + [Preflight(true)];
    Took(v, t2, Choose(false), v1, Ready, v1, Chosen(g), wired);
    var t3 := t2 + [Choose(false)];
    Took(v, t3, Send, v1, Chosen(g), v1, Sending(g), wired);
    var t4 := t3 + [Send];
    var t5 := t4 + [reply];
    assert t5 == [Look, TakeLock(true), Reload(result), Preflight(true), Choose(false), Send, reply];
    if wired {
      var p := Pending(g, Some(token), refresh, false);
      Took(v, t4, reply, v1, Sending(g), v3.(pending := Some(p)), Persisting(p), wired);
      Took(v, t5, Persist(Persisted), v3.(pending := Some(p)), Persisting(p), v3, Releasing(None), wired);
      Took(v, t5 + [Persist(Persisted)], Release, v3, Releasing(None), v3, Returning(None), wired);
      assert t5 + [Persist(Persisted)] + [Release] == t5 + Answered(wired);
    } else {
      Took(v, t4, reply, v1, Sending(g), v3, Releasing(None), wired);
      Took(v, t5, Release, v3, Releasing(None), v3, Returning(None), wired);
    }
  }

  lemma Locked(v: View, wired: bool)
    ensures Steps(v, Opened, [Look, TakeLock(true)], wired) == Some((v, Held(v.pending.Some?)))
  {
    hide Steps;
    Began(v, wired);
    Took(v, [], Look, v, Opened, v, WantLock(v.pending.Some?), wired);
    assert [] + [Look] == [Look] && [Look] + [TakeLock(true)] == [Look, TakeLock(true)];
    Took(v, [Look], TakeLock(true), v, WantLock(v.pending.Some?), v, Held(v.pending.Some?), wired);
  }

  /** What each failure does: it ends the flight with its own error, and changes the fields only
      where another generation has won, or where a malformed response is to be kept. */
  lemma FailuresExactly(v: View, g: nat, token: Option<nat>, refresh: nat, datesValid: bool, wired: bool, flag: bool)
    ensures Step(v, WantLock(flag), TakeLock(false), wired) == Some((v, Returning(Some(LockFailed))))
    ensures forall pc :: pc in {Held(false), Reloaded(flag), Chosen(g)} ==>
              Step(v, pc, Cancel, wired) == Some((v, Releasing(Some(Cancelled))))
    ensures Step(v, Held(false), Reload(ReloadError), wired) == Some((v, Releasing(Some(ReloadFailed))))
    ensures Step(v, Reloaded(false), Preflight(false), wired) == Some((v, Releasing(Some(PreflightFailed))))
    ensures v.refresh.None? ==> Step(v, Ready, Choose(flag), wired) == Some((v, Releasing(Some(RefreshMissing))))
    ensures v.refresh.Some? ==> Step(v, Ready, Choose(true), wired) == Some((v, Releasing(Some(RefreshExpired))))
    ensures Step(v, Sending(g), Receive(NoResponse), wired) == Some((v, Releasing(Some(NetworkFailed))))
    ensures v.pending.None? && (token.None? || !datesValid) ==>
              var kept := if token.Some? then token else v.token;
              Step(v, Sending(g), Receive(Reply(token, Some(refresh), datesValid)), false)
              == Some((v.(token := kept, refresh := Some(refresh), blocked := true), Releasing(Some(InvalidResponse))))
    ensures v.pending.Some? ==>
              var p := v.pending.value;
              && Step(v, Persisting(p), Persist(PersistError), wired) == Some((v, Releasing(Some(NotPersisted))))
              && Step(v, Persisting(p), Persist(GenerationChanged), wired)
                 == Some((v.(pending := None, token := None), Releasing(Some(Superseded))))
              && (p.invalid ==> Step(v, Persisting(p), Persist(Persisted), wired)
                                == Some((v.(pending := None, blocked := true), Releasing(Some(InvalidResponse)))))
  {
  }

  /** No later step of a flight ends it without a network refresh. */
  lemma {:induction false} NoFinish(v: View, pc: Pc, trace: seq<Action>, wired: bool)
    requires Steps(v, pc, trace, wired).Some?
    requires pc == Held(true) || pc == Reloaded(false) || pc.Ready? || pc.Chosen? || pc.Sending? || pc.Persisting?
             || pc.Releasing? || pc.Returning?
    ensures Finish !in trace
    decreases |trace|
  {
    if trace != [] {
      var (v', pc') := Step(v, pc, trace[0], wired).value;
      NoFinish(v', pc', trace[1..], wired);
      assert trace == [trace[0]] + trace[1..];
    }
  }

  lemma AdoptedIsUsable(v: View, stored: Stored, usable: bool)
    requires Adopt(v, stored, usable).1
    ensures usable && stored.token.Some? && stored.refresh.Some?
  {
  }

  lemma FinishAfterReload(v: View, trace: seq<Action>, wired: bool) returns (stored: Stored)
    requires Steps(v, Held(false), trace, wired).Some? && Finish in trace
    ensures |trace| >= 2 && trace[0] == Reload(Loaded(stored, true)) && trace[1] == Finish
    ensures stored.token.Some? && stored.refresh.Some?
  {
    hide Adopt;
    var (v1, pc1) := Step(v, Held(false), trace[0], wired).value;
    var rest := trace[1..];
    assert trace == [trace[0]] + rest && Finish in rest;
    if pc1 != Reloaded(true) {
      NoFinish(v1, pc1, rest, wired);
      assert false;
    } else {
      stored := trace[0].result.stored;
      AdoptedIsUsable(v, stored, trace[0].result.usable);
      if rest[0] == Cancel {
        assert rest == [Cancel] + rest[1..];
        NoFinish(v1, Releasing(Some(Cancelled)), rest[1..], wired);
      }
    }
  }

  /** A flight ends without a network refresh only right after the store has answered with an
      access token that is usable. */
  lemma FinishNeedsUsable(v: View, trace: seq<Action>, wired: bool) returns (stored: Stored)
    requires Steps(v, Opened, trace, wired).Some? && Finish in trace
    ensures stored.token.Some? && stored.refresh.Some?
    ensures |trace| >= 4 && trace[..4] == [Look, TakeLock(true), Reload(Loaded(stored, true)), Finish]
  {
    hide Adopt;
    var (v1, pc1) := Step(v, Opened, trace[0], wired).value;
    var rest := trace[1..];
    assert trace == [trace[0]] + rest && Finish in rest;
    var (v2, pc2) := Step(v1, pc1, rest[0], wired).value;
    var tail := rest[1..];
    assert rest == [rest[0]] + tail && Finish in tail;
    if pc2 != Held(false) {
      NoFinish(v2, pc2, tail, wired);
      assert false;
    } else {
      stored := FinishAfterReload(v2, tail, wired);
      assert trace[..4] == [trace[0], rest[0], tail[0], tail[1]];
    }
  }

  // ---------------------------------------------------------------------------
  // The transport
  // ---------------------------------------------------------------------------

  class RefreshTransport {
    var token: Option<nat>
    var refreshToken: Option<nat>
    var inflight: Option<nat>
    var pending: Option<Pending>
    var blocked: bool
    /** The outcome of each flight, once it is closed. */
    var closed: map<nat, Outcome>
    const wired: bool

    function Fields(): View
      reads this
    {
      View(token, refreshToken, pending, blocked, inflight)
    }

    constructor (storedToken: Option<nat>, storedRefresh: Option<nat>, callbacks: bool)
      ensures Fields() == View(storedToken, storedRefresh, None, false, None) && ViewOk(Fields())
      ensures wired == callbacks && closed == map[]
    {
      token, refreshToken, inflight, pending, blocked, closed, wired :=
        storedToken, storedRefresh, None, None, false, map[], callbacks;
    }

    /** maybeRefresh, as the goroutine that opens the flight runs it: until it closes the flight
        no other goroutine changes the fields. */
    method LeadFlight(flight: nat) returns (outcome: Outcome, ghost trace: seq<Action>)
      requires ViewOk(Fields()) && !blocked && inflight.None? && flight !in closed
      modifies this
      ensures Steps(old(Fields()).(inflight := Some(flight)), Opened, trace, wired)
              == Some((Fields().(inflight := Some(flight)), Returning(outcome)))
      ensures inflight.None? && closed == old(closed)[flight := outcome]
      ensures outcome.None? ==> pending.None? && !blocked
      ensures old(pending).Some? ==> Send !in trace
    {
      inflight := Some(flight);
      ghost var v0 := Fields();
      outcome, trace := RefreshAndPersist();
      StepsKeep(v0, Opened, trace, wired);
      if v0.pending.Some? {
        RetryNeverSends(v0, Opened, trace, wired);
      }
      closed := closed[flight := outcome];
      if inflight == Some(flight) {
        inflight := None;
      }
    }

    /** refreshAndPersist. The lock, the stored tokens, the network, the clock and the caller's
        cancellation may answer anything. */
    method RefreshAndPersist() returns (outcome: Outcome, ghost trace: seq<Action>)
      requires ViewOk(Fields()) && !blocked
      modifies this`token, this`refreshToken, this`pending, this`blocked
      ensures Steps(old(Fields()), Opened, trace, wired) == Some((Fields(), Returning(outcome)))
    {
      hide Steps, AtPc, ViewOk;
      ghost var v0 := Fields();
      var retry := pending.Some?;
      trace := [];
      Began(v0, wired);
      Took(v0, trace, Look, Fields(), Opened, Fields(), WantLock(retry), wired);
      trace := trace + [Look];
      var locked := *;
      Took(v0, trace, TakeLock(locked), Fields(), WantLock(retry), Fields(),
           if locked then Held(retry) else Returning(Some(LockFailed)), wired);
      trace := trace + [TakeLock(locked)];
      if !locked {
        return Some(LockFailed), trace;
      }
      if retry {
        Took(v0, trace, Retry, Fields(), Held(true), Fields(), Persisting(pending.value), wired);
        trace := trace + [Retry];
        outcome, trace := PersistPending(v0, trace);
      } else {
        outcome, trace := Refresh(v0, trace);
      }
      Took(v0, trace, Release, Fields(), Releasing(outcome), Fields(), Returning(outcome), wired);
      trace := trace + [Release];
    }

    /** The part of refreshAndPersist between the lock and the response. */
    method Refresh(ghost v0: View, ghost before: seq<Action>) returns (outcome: Outcome, ghost trace: seq<Action>)
      requires Steps(v0, Opened, before, wired) == Some((Fields(), Held(false))) && pending.None?
      modifies this`token, this`refreshToken, this`pending, this`blocked
      ensures Steps(v0, Opened, trace, wired) == Some((Fields(), Releasing(outcome)))
    {
      hide Steps;
      trace := before;
      var cancelled: bool, result: ReloadResult := *, *;
      if cancelled {
        Took(v0, trace, Cancel, Fields(), Held(false), Fields(), Releasing(Some(Cancelled)), wired);
        return Some(Cancelled), trace + [Cancel];
      }
      if result.ReloadError? {
        Took(v0, trace, Reload(result), Fields(), Held(false), Fields(), Releasing(Some(ReloadFailed)), wired);
        return Some(ReloadFailed), trace + [Reload(result)];
      }
      var adopted := false;
      ghost var was := Fields();
      if result.Loaded? {
        adopted := AdoptStored(result.stored, result.usable);
      }
      Took(v0, trace, Reload(result), was, Held(false), Fields(), Reloaded(adopted), wired);
      trace := trace + [Reload(result)];
      cancelled := *;
      if cancelled {
        Took(v0, trace, Cancel, Fields(), Reloaded(adopted), Fields(), Releasing(Some(Cancelled)), wired);
        return Some(Cancelled), trace + [Cancel];
      }
      if adopted {
        Took(v0, trace, Finish, Fields(), Reloaded(true), Fields(), Releasing(None), wired);
        return None, trace + [Finish];
      }
      var writable := *;
      Took(v0, trace, Preflight(writable), Fields(), Reloaded(false), Fields(),
           if writable then Ready else Releasing(Some(PreflightFailed)), wired);
      trace := trace + [Preflight(writable)];
      if !writable {
        return Some(PreflightFailed), trace;
      }
      outcome, trace := PresentToken(v0, trace);
    }

    method PresentToken(ghost v0: View, ghost before: seq<Action>) returns (outcome: Outcome, ghost trace: seq<Action>)
      requires Steps(v0, Opened, before, wired) == Some((Fields(), Ready)) && pending.None?
      modifies this`token, this`refreshToken, this`pending, this`blocked
      ensures Steps(v0, Opened, trace, wired) == Some((Fields(), Releasing(outcome)))
    {
      hide Steps;
      var expired, cancelled := *, *;
      if refreshToken.None? {
        Took(v0, before, Choose(expired), Fields(), Ready, Fields(), Releasing(Some(RefreshMissing)), wired);
        return Some(RefreshMissing), before + [Choose(expired)];
      }
      if expired {
        Took(v0, before, Choose(true), Fields(), Ready, Fields(), Releasing(Some(RefreshExpired)), wired);
        return Some(RefreshExpired), before + [Choose(true)];
      }
      var generation := refreshToken.value;
      Took(v0, before, Choose(false), Fields(), Ready, Fields(), Chosen(generation), wired);
      trace := before + [Choose(false)];
      if cancelled {
        Took(v0, trace, Cancel, Fields(), Chosen(generation), Fields(), Releasing(Some(Cancelled)), wired);
        return Some(Cancelled), trace + [Cancel];
      }
      Took(v0, trace, Send, Fields(), Chosen(generation), Fields(), Sending(generation), wired);
      trace := trace + [Send];
      var response: Response := *;
      outcome, trace := TakeResponse(v0, trace, generation, response);
    }

    method TakeResponse(ghost v0: View, ghost before: seq<Action>, generation: nat, response: Response)
      returns (outcome: Outcome, ghost trace: seq<Action>)
      requires Steps(v0, Opened, before, wired) == Some((Fields(), Sending(generation))) && pending.None?
      modifies this`token, this`refreshToken, this`pending, this`blocked
      ensures Steps(v0, Opened, trace, wired) == Some((Fields(), Releasing(outcome)))
    {
      hide Steps;
      trace := before + [Receive(response)];
      ghost var was := Fields();
      if response.NoResponse? {
        Took(v0, before, Receive(response), was, Sending(generation), Fields(), Releasing(Some(NetworkFailed)), wired);
        return Some(NetworkFailed), trace;
      }
      if response.Unreadable? || response.refresh.None? {
        token, refreshToken, blocked := None, None, true;
        Took(v0, before, Receive(response), was, Sending(generation), Fields(), Releasing(Some(InvalidResponse)),
             wired);
        return Some(InvalidResponse), trace;
      }
      var invalid := response.token.None? || !response.datesValid;
      if response.token.Some? {
        token := response.token;
      }
      refreshToken := response.refresh;
      if wired {
        pending := Some(Pending(generation, token, response.refresh.value, invalid));
        Took(v0, before, Receive(response), was, Sending(generation), Fields(), Persisting(pending.value), wired);
        outcome, trace := PersistPending(v0, trace);
      } else {
        blocked := blocked || invalid;
        outcome := if invalid then Some(InvalidResponse) else None;
        Took(v0, before, Receive(response), was, Sending(generation), Fields(), Releasing(outcome), wired);
      }
    }

    method AdoptStored(stored: Stored, usable: bool) returns (adopted: bool)
      modifies this`token, this`refreshToken
      ensures (Fields(), adopted) == Adopt(old(Fields()), stored, usable)
    {
      if stored.refresh.None? {
        return false;
      }
      if stored.refresh == refreshToken && stored.token == token {
        return false;
      }
      token, refreshToken := stored.token, stored.refresh;
      return stored.token.Some? && usable;
    }

    /** persistPendingRefresh. */
    method PersistPending(ghost v0: View, ghost before: seq<Action>)
      returns (outcome: Outcome, ghost trace: seq<Action>)
      requires pending.Some? && Steps(v0, Opened, before, wired) == Some((Fields(), Persisting(pending.value)))
      modifies this`token, this`pending, this`blocked
      ensures Steps(v0, Opened, trace, wired) == Some((Fields(), Releasing(outcome)))
    {
      hide Steps;
      var p := pending.value;
      ghost var was := Fields();
      var result: PersistResult := *;
      outcome := SettleOutcome(p, result);
      match result {
        case Persisted =>
          pending := None;
          if p.invalid {
            blocked := true;
          }
        case GenerationChanged =>
          pending, token := None, None;
        case PersistError =>
      }
      Took(v0, before, Persist(result), was, Persisting(p), Fields(), Releasing(outcome), wired);
      trace := before + [Persist(result)];
    }
  }

  lemma Began(v: View, wired: bool)
    ensures Steps(v, Opened, [], wired) == Some((v, Opened))
  {
  }

  lemma Took(v0: View, trace: seq<Action>, a: Action, v: View, pc: Pc, v': View, pc': Pc, wired: bool)
    requires Steps(v0, Opened, trace, wired) == Some((v, pc)) && Step(v, pc, a, wired) == Some((v', pc'))
    ensures Steps(v0, Opened, trace + [a], wired) == Some((v', pc'))
  {
    hide Steps, Step;
    StepsThen(v0, Opened, trace, a, wired);
  }
}
