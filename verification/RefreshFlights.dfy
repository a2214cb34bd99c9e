/** Goroutines of one process sharing a transport: every interleaving of their steps. */
module RefreshFlights {
  import opened Wrappers
  import opened RefreshRegions

  /** A goroutine: not in maybeRefresh; waiting for a flight; leading one; or returned from
      maybeRefresh, having joined a flight or none. */
  datatype Caller = Idle | Waiting(flight: nat) | Leading(flight: nat, pc: Pc)
                  | Returned(outcome: Outcome, joined: Option<nat>)

  /** `closed` maps each closed flight to its outcome; flights from `nextFlight` on do not exist
      yet. `safe` are the access tokens that need no persisting. */
  datatype Process = Process(view: View, callers: map<nat, Caller>, closed: map<nat, Outcome>, nextFlight: nat,
                             safe: set<nat>, wired: bool)

  datatype Event = Call(c: nat, usable: bool, expired: bool, cancelled: bool)
                 | Wake(c: nat)
                 | GiveUp(c: nat)
                 | Act(c: nat, action: Action)
                 | Close(c: nat)

  function At(s: Process, c: nat): Caller {
    if c in s.callers then s.callers[c] else Idle
  }

  function Put(s: Process, c: nat, caller: Caller): Process {
    s.(callers := s.callers[c := caller])
  }

  /** The access tokens that need no persisting after an action. */
  function SafeAfter(s: Process, pc: Pc, a: Action): set<nat> {
    match a
    case Reload(Loaded(stored, _)) => s.safe + (if stored.token.Some? then {stored.token.value} else {})
    case Persist(Persisted) =>
      s.safe + (if pc.Persisting? && pc.p.token.Some? then {pc.p.token.value} else {})
    case Receive(Reply(Some(token), _, _)) => if s.wired then s.safe else s.safe + {token}
    case _ => s.safe
  }

  /** The process after one step, or None when the step cannot happen now. */
  function Next(s: Process, e: Event): Option<Process> {
    match e
    case Call(c, usable, expired, cancelled) =>
      if !(At(s, c).Idle? || At(s, c).Returned?) then None
      else (match Enter(s.view, usable, expired, cancelled)
        case Return(outcome) => Some(Put(s, c, Returned(outcome, None)))
        case Join(f) => Some(Put(s, c, Waiting(f)))
        case Lead =>
          Some(Put(s, c, Leading(s.nextFlight, Opened))
               .(view := s.view.(inflight := Some(s.nextFlight)), nextFlight := s.nextFlight + 1)))
    case Wake(c) =>
      if At(s, c).Waiting? && At(s, c).flight in s.closed then
        Some(Put(s, c, Returned(s.closed[At(s, c).flight], Some(At(s, c).flight))))
      else None
    case GiveUp(c) =>
      if At(s, c).Waiting? then Some(Put(s, c, Returned(Some(Cancelled), Some(At(s, c).flight)))) else None
    case Act(c, a) =>
      if !At(s, c).Leading? then None
      else (match Step(s.view, At(s, c).pc, a, s.wired)
        case None => None
        case Some((view, pc)) =>
          Some(Put(s, c, Leading(At(s, c).flight, pc)).(view := view, safe := SafeAfter(s, At(s, c).pc, a))))
    case Close(c) =>
      if At(s, c).Leading? && At(s, c).pc.Returning? then
        var (f, outcome) := (At(s, c).flight, At(s, c).pc.outcome);
        Some(Put(s, c, Returned(outcome, Some(f)))
             .(closed := s.closed[f := outcome],
               view := if s.view.inflight == Some(f) then s.view.(inflight := None) else s.view))
      else None
  }

  predicate Leads(s: Process, c: nat) {
    At(s, c).Leading?
  }

  /** What every interleaving keeps. */
  ghost predicate Inv(s: Process) {
    && ViewOk(s.view)
    && (forall c :: Leads(s, c) ==> s.view.inflight == Some(At(s, c).flight) && AtPc(s.view, At(s, c).pc))
    && (forall c, d :: Leads(s, c) && Leads(s, d) ==> c == d)
    && (s.view.inflight.Some? ==> (exists c :: Leads(s, c)) && s.view.inflight.value < s.nextFlight
                                  && s.view.inflight.value !in s.closed)
    && (forall f :: f in s.closed ==> f < s.nextFlight)
    && (forall f: nat :: f < s.nextFlight && f !in s.closed ==> s.view.inflight == Some(f))
    && (forall c :: At(s, c).Waiting? ==> At(s, c).flight < s.nextFlight)
    && (forall c :: At(s, c).Returned? && At(s, c).joined.Some? ==>
          At(s, c).outcome == Some(Cancelled)
          || (At(s, c).joined.value in s.closed && s.closed[At(s, c).joined.value] == At(s, c).outcome))
    && Tracked(s.view, s.safe)
  }

  /** The access token in use needs no persisting, or is the pending one. */
  predicate Tracked(v: View, safe: set<nat>) {
    v.token.Some? && v.token.value !in safe ==> v.pending.Some?
  }

  lemma TrackedStep(s: Process, pc: Pc, a: Action)
    requires ViewOk(s.view) && AtPc(s.view, pc) && Step(s.view, pc, a, s.wired).Some? && Tracked(s.view, s.safe)
    ensures Tracked(Step(s.view, pc, a, s.wired).value.0, SafeAfter(s, pc, a))
  {
  }

  predicate Initial(s: Process) {
    && s.callers == map[] && s.closed == map[] && s.nextFlight == 0
    && s.view.pending.None? && !s.view.blocked && s.view.inflight.None?
    && (s.view.token.Some? ==> s.view.token.value in s.safe)
  }

  lemma InitialInv(s: Process)
    requires Initial(s)
    ensures Inv(s)
  {
  }

  lemma CallKeepsInv(s: Process, e: Event)
    requires Inv(s) && e.Call? && Next(s, e).Some?
    ensures Inv(Next(s, e).value)
  {
    hide ViewOk, AtPc, Step, Tracked;
    var t := Next(s, e).value;
    forall c | c != e.c ensures At(t, c) == At(s, c) {
    }
    var entry := Enter(s.view, e.usable, e.expired, e.cancelled);
    match entry
    case Return(_) => SameLeader(s, t, e.c);
    case Join(_) => SameLeader(s, t, e.c);
    case Lead =>
      assert forall c :: !Leads(s, c);
      assert Leads(t, e.c);
      assert AtPc(t.view, Opened) && ViewOk(t.view) && Tracked(t.view, t.safe) by { LeadOk(s.view, t.view, s.safe); }
  }

  lemma LeadOk(v: View, v': View, safe: set<nat>)
    requires ViewOk(v) && Tracked(v, safe) && !v.blocked && v' == v.(inflight := v'.inflight)
    ensures ViewOk(v') && Tracked(v', safe) && AtPc(v', Opened)
  {
  }

  /** A step of a goroutine that leads neither before nor after leaves the flight as it is. */
  lemma SameLeader(s: Process, t: Process, c: nat)
    requires Inv(s) && !Leads(s, c) && !Leads(t, c)
    requires forall d :: d != c ==> At(t, d) == At(s, d)
    ensures forall d :: Leads(t, d) <==> Leads(s, d)
    ensures forall d :: Leads(s, d) ==> At(t, d) == At(s, d)
    ensures s.view.inflight.Some? ==> exists d :: Leads(t, d)
  {
    hide ViewOk, AtPc, Tracked;
    if s.view.inflight.Some? {
      var d :| Leads(s, d);
      assert Leads(t, d);
    }
  }

  lemma WaiterKeepsInv(s: Process, e: Event)
    requires Inv(s) && (e.Wake? || e.GiveUp?) && Next(s, e).Some?
    ensures Inv(Next(s, e).value)
  {
    hide ViewOk, AtPc, Step, Tracked;
    var t := Next(s, e).value;
    forall c | c != e.c ensures At(t, c) == At(s, c) {
    }
    SameLeader(s, t, e.c);
  }

  lemma ActKeepsInv(s: Process, e: Event)
    requires Inv(s) && e.Act? && Next(s, e).Some?
    ensures Inv(Next(s, e).value)
  {
    hide ViewOk, AtPc, Step, Tracked, SafeAfter;
    var t := Next(s, e).value;
    StepKeeps(s.view, At(s, e.c).pc, e.action, s.wired);
    TrackedStep(s, At(s, e.c).pc, e.action);
    assert Leads(s, e.c) && Leads(t, e.c);
    forall c | c != e.c ensures At(t, c) == At(s, c) {
    }
    forall c ensures Leads(t, c) <==> Leads(s, c) {
    }
  }

  lemma CloseKeepsInv(s: Process, e: Event)
    requires Inv(s) && e.Close? && Next(s, e).Some?
    ensures Inv(Next(s, e).value)
  {
    hide AtPc, Step;
    var t := Next(s, e).value;
    assert Leads(s, e.c);
    forall c | c != e.c ensures At(t, c) == At(s, c) {
    }
    forall c ensures !Leads(t, c) {
      assert c == e.c || !Leads(s, c);
    }
  }

  lemma NextKeepsInv(s: Process, e: Event)
    requires Inv(s) && Next(s, e).Some?
    ensures Inv(Next(s, e).value)
    ensures s.view.blocked ==> Next(s, e).value.view.blocked
  {
    hide Inv;
    match e
    case Call(_, _, _, _) => CallKeepsInv(s, e);
    case Wake(_) => WaiterKeepsInv(s, e);
    case GiveUp(_) => WaiterKeepsInv(s, e);
    case Act(c, a) =>
      ActKeepsInv(s, e);
      assert ViewOk(s.view) && AtPc(s.view, At(s, c).pc) by { LeaderOk(s, c); }
      StepKeeps(s.view, At(s, c).pc, a, s.wired);
    case Close(_) => CloseKeepsInv(s, e);
  }

  lemma LeaderOk(s: Process, c: nat)
    requires Inv(s) && Leads(s, c)
    ensures ViewOk(s.view) && AtPc(s.view, At(s, c).pc) && s.view.inflight == Some(At(s, c).flight)
    ensures forall d :: Leads(s, d) ==> d == c
  {
  }

  // ---------------------------------------------------------------------------
  // Whole runs
  // ---------------------------------------------------------------------------

  /** The events happen one after the other. */
  function Run(s: Process, events: seq<Event>): Option<Process>
    decreases |events|
  {
    if events == [] then Some(s)
    else match Next(s, events[0])
      case None => None
      case Some(t) => Run(t, events[1..])
  }

  lemma {:induction false} RunKeepsInv(s: Process, events: seq<Event>)
    requires Inv(s) && Run(s, events).Some?
    ensures Inv(Run(s, events).value)
    ensures s.view.blocked ==> Run(s, events).value.view.blocked
    decreases |events|
  {
    hide Inv, Next;
    if events != [] {
      NextKeepsInv(s, events[0]);
      RunKeepsInv(Next(s, events[0]).value, events[1..]);
    }
  }

  /** In every interleaving at most one flight is open: one goroutine leads, and a flight that is
      not closed is that one. */
  lemma SingleFlight(s0: Process, events: seq<Event>)
    requires Initial(s0) && Run(s0, events).Some?
    ensures var s := Run(s0, events).value;
            && (forall c, d :: Leads(s, c) && Leads(s, d) ==> c == d)
            && (forall f: nat :: f < s.nextFlight && f !in s.closed ==>
                  exists c :: Leads(s, c) && At(s, c).flight == f)
  {
    InitialInv(s0);
    RunKeepsInv(s0, events);
    var s := Run(s0, events).value;
    hide ViewOk, AtPc, Run, Tracked;
    forall f: nat | f < s.nextFlight && f !in s.closed ensures exists c :: Leads(s, c) && At(s, c).flight == f {
      var c :| Leads(s, c);
    }
  }

  /** A flight that closes without an error leaves nothing pending and no block. */
  lemma CleanCloseIsClean(s0: Process, events: seq<Event>, c: nat)
    requires Initial(s0) && Run(s0, events).Some? && Next(Run(s0, events).value, Close(c)).Some?
    ensures var s := Run(s0, events).value;
            var t := Next(s, Close(c)).value;
            At(s, c).pc.outcome.None? ==> t.view.pending.None? && !t.view.blocked
  {
    InitialInv(s0);
    RunKeepsInv(s0, events);
    LeaderOk(Run(s0, events).value, c);
  }

  /** Whoever joined a flight has its outcome, or was cancelled. */
  lemma WaiterOutcome(s0: Process, events: seq<Event>, c: nat)
    requires Initial(s0) && Run(s0, events).Some?
    requires At(Run(s0, events).value, c).Returned? && At(Run(s0, events).value, c).joined.Some?
    ensures var s := Run(s0, events).value;
            var f := At(s, c).joined.value;
            At(s, c).outcome == Some(Cancelled) || (f in s.closed && s.closed[f] == At(s, c).outcome)
  {
    InitialInv(s0);
    RunKeepsInv(s0, events);
  }

  /** While a generation is pending no refresh token is presented. */
  lemma PendingNeedsNoNetwork(s0: Process, events: seq<Event>, c: nat)
    requires Initial(s0) && Run(s0, events).Some? && Run(s0, events).value.view.pending.Some?
    ensures Next(Run(s0, events).value, Act(c, Send)).None?
  {
    InitialInv(s0);
    RunKeepsInv(s0, events);
    var s := Run(s0, events).value;
    if Leads(s, c) {
      LeaderOk(s, c);
    }
  }

  /** Once blocked, a process stays blocked, presents nothing and serves no new call. */
  lemma BlockIsFinal(s0: Process, events: seq<Event>, more: seq<Event>, c: nat, usable: bool, expired: bool,
                     cancelled: bool)
    requires Initial(s0) && Run(s0, events).Some? && Run(s0, events).value.view.blocked
    requires Run(Run(s0, events).value, more).Some?
    ensures var s := Run(Run(s0, events).value, more).value;
            && s.view.blocked && s.view.pending.None?
            && Next(s, Act(c, Send)).None?
            && Enter(s.view, usable, expired, cancelled) == Return(Some(Blocked))
  {
    InitialInv(s0);
    RunKeepsInv(s0, events);
    RunKeepsInv(Run(s0, events).value, more);
    var s := Run(Run(s0, events).value, more).value;
    hide Run;
    if Leads(s, c) {
      LeaderOk(s, c);
    }
  }

  /** What a call does at once: it is served, fails, joins the flight that is open, or opens the next
      one. */
  lemma CallExactly(s: Process, c: nat, usable: bool, expired: bool, cancelled: bool)
    ensures Next(s, Call(c, usable, expired, cancelled)).Some? <==> !(At(s, c).Waiting? || At(s, c).Leading?)
    ensures Next(s, Call(c, usable, expired, cancelled)).Some? ==>
              var t, v := Next(s, Call(c, usable, expired, cancelled)).value, s.view;
              var needy := !v.blocked && v.pending.None? && !(v.token.Some? && usable);
              && (forall d :: d != c ==> At(t, d) == At(s, d))
              && (At(t, c) == Returned(Some(Blocked), None) <==> v.blocked)
              && (At(t, c) == Returned(None, None) <==> !v.blocked && v.pending.None? && v.token.Some? && usable)
              && (At(t, c) == Returned(Some(RefreshMissing), None) <==> needy && v.refresh.None?)
              && (At(t, c) == Returned(Some(RefreshExpired), None) <==> needy && v.refresh.Some? && expired)
              && (At(t, c) == Returned(Some(Cancelled), None) <==> needy && v.refresh.Some? && !expired && cancelled)
              && (At(t, c).Waiting? ==> v.inflight == Some(At(t, c).flight) && t.view == v)
              && (At(t, c).Leading? ==> v.inflight.None? && At(t, c) == Leading(s.nextFlight, Opened)
                                        && t.view == v.(inflight := Some(s.nextFlight)))
              && (At(t, c).Returned? ==> t.view == v)
  {
    hide Step, SafeAfter;
    EnterExactly(s.view, usable, expired, cancelled);
  }

  /** The step that ends a flight soonest, when nothing answers. */
  function Abort(pc: Pc): Action {
    match pc
    case Opened => Look
    case WantLock(_) => TakeLock(false)
    case Held(retry) => if retry then Retry else Cancel
    case Reloaded(_) => Cancel
    case Ready => Choose(true)
    case Chosen(_) => Cancel
    case Sending(_) => Receive(NoResponse)
    case Persisting(_) => Persist(PersistError)
    case _ => Release
  }

  function StepsLeft(pc: Pc): nat {
    match pc
    case Opened => 5
    case WantLock(_) => 4
    case Held(_) => 3
    case Releasing(_) => 1
    case Returning(_) => 0
    case _ => 2
  }

  /** Whatever fails around it, the leader of a flight can close it. */
  lemma {:induction false} LeaderCanClose(s: Process, c: nat) returns (events: seq<Event>)
    requires Inv(s) && At(s, c).Leading?
    ensures Run(s, events).Some?
    ensures var t, f := Run(s, events).value, At(s, c).flight;
            && f in t.closed && At(t, c) == Returned(t.closed[f], Some(f)) && t.view.inflight.None?
            && forall d :: d != c ==> At(t, d) == At(s, d)
    ensures forall e :: e in events ==> e.c == c
    decreases StepsLeft(At(s, c).pc)
  {
    hide Inv, Next, Run, Abort;
    if At(s, c).pc.Returning? {
      var t := LeaderCloses(s, c);
      assert Run(t, []) == Some(t) by { NoEvents(t); }
      events := Prepend(s, Close(c), t, []);
    } else {
      var e := Act(c, Abort(At(s, c).pc));
      var t := LeaderAborts(s, c);
      NextKeepsInv(s, e);
      var more := LeaderCanClose(t, c);
      events := Prepend(s, e, t, more);
    }
  }

  lemma LeaderCloses(s: Process, c: nat) returns (t: Process)
    requires Inv(s) && At(s, c).Leading? && At(s, c).pc.Returning?
    ensures Next(s, Close(c)) == Some(t) && t.view.inflight.None?
    ensures var f := At(s, c).flight; f in t.closed && At(t, c) == Returned(t.closed[f], Some(f))
    ensures forall d :: d != c ==> At(t, d) == At(s, d)
  {
    LeaderOk(s, c);
    hide Inv;
    t := Next(s, Close(c)).value;
  }

  lemma LeaderAborts(s: Process, c: nat) returns (t: Process)
    requires Inv(s) && At(s, c).Leading? && !At(s, c).pc.Returning?
    ensures Next(s, Act(c, Abort(At(s, c).pc))) == Some(t)
    ensures At(t, c).Leading? && At(t, c).flight == At(s, c).flight && StepsLeft(At(t, c).pc) < StepsLeft(At(s, c).pc)
    ensures forall d :: d != c ==> At(t, d) == At(s, d)
  {
    LeaderOk(s, c);
    hide Inv, SafeAfter;
    t := Next(s, Act(c, Abort(At(s, c).pc))).value;
  }

  lemma Prepend(s: Process, e: Event, t: Process, rest: seq<Event>) returns (events: seq<Event>)
    requires Next(s, e) == Some(t)
    ensures events == [e] + rest && Run(s, events) == Run(t, rest)
  {
    hide Next;
    events := [e] + rest;
    assert events[1..] == rest;
  }

  /** From every reachable state a goroutine that waits for a flight can come back with the flight's
      outcome, without a step of its own until the flight is closed; and it can give up at any
      time. */
  lemma WaiterReturns(s: Process, c: nat) returns (events: seq<Event>)
    requires Inv(s) && At(s, c).Waiting?
    ensures Next(s, GiveUp(c)) == Some(Put(s, c, Returned(Some(Cancelled), Some(At(s, c).flight))))
    ensures Run(s, events).Some? && events != [] && events[|events| - 1] == Wake(c)
    ensures var t, f := Run(s, events).value, At(s, c).flight;
            f in t.closed && At(t, c) == Returned(t.closed[f], Some(f))
    ensures forall e :: e in events[..|events| - 1] ==> e.c != c
  {
    var f := At(s, c).flight;
    if f in s.closed {
      var t := Next(s, Wake(c)).value;
      assert Run(t, []) == Some(t);
      events := Prepend(s, Wake(c), t, []);
    } else {
      var d :| Leads(s, d) && At(s, d).flight == f;
      var closing := LeaderCanClose(s, d);
      var t := Run(s, closing).value;
      assert d != c && At(t, c) == At(s, c);
      RunThen(s, closing, t, Wake(c), Next(t, Wake(c)).value);
      events := closing + [Wake(c)];
      assert events[..|events| - 1] == closing;
    }
  }

  /** RoundTrip and FreshToken read the access token after maybeRefresh has returned. What they
      read needs no persisting, unless a generation is pending at that moment: then they read
      exactly the pending one. */
  lemma ExposedToken(s0: Process, events: seq<Event>)
    requires Initial(s0) && Run(s0, events).Some?
    ensures var v := Run(s0, events).value.view;
            if v.pending.Some? then v.token == v.pending.value.token
            else v.token.Some? ==> v.token.value in Run(s0, events).value.safe
  {
    InitialInv(s0);
    RunKeepsInv(s0, events);
  }

  /** And that happens: a call that found a usable token returns, another flight installs a
      rotated generation, and the first caller reads it before it is persisted. */
  lemma ExposesUnpersisted(s0: Process, token: nat, refresh: nat)
    requires Initial(s0) && s0.wired && s0.view.token.Some? && s0.view.refresh.Some? && token !in s0.safe
    ensures exists events :: Run(s0, events).Some?
              && var s := Run(s0, events).value;
                 At(s, 1) == Returned(None, None) && s.view.token == Some(token) && token !in s.safe
  {
    var g, p := s0.view.refresh.value, Pending(s0.view.refresh.value, Some(token), refresh, false);
    var reply := Receive(Reply(Some(token), Some(refresh), true));
    var v := s0.view.(inflight := Some(s0.nextFlight));
    var w := v.(token := Some(token), refresh := Some(refresh), pending := Some(p));
    var s1 := Put(s0, 1, Returned(None, None));
    var s2 := Put(s1, 2, Leading(s0.nextFlight, Opened)).(view := v, nextFlight := s0.nextFlight + 1);
    var pcs, acts := FreshPcs(g), FreshActions();
    FirstCalls(s0, s1, s2);
    FreshSteps(v, g, s0.wired);
    assert Step(v, Sending(g), reply, s0.wired) == Some((w, Persisting(p)));
    hide Run, Next, Step, FreshPcs, FreshActions, Initial, Enter;
    RunThen(s0, [], s0, Call(1, true, false, false), s1) by { NoEvents(s0); }
    RunThen(s0, [Call(1, true, false, false)], s1, Call(2, false, false, false), s2);
    var two := [Call(1, true, false, false), Call(2, false, false, false)];
    var six := LeaderRun(s0, two, s2, 2, pcs, acts);
    var t := Put(s2, 2, Leading(s0.nextFlight, Sending(g)));
    var u := Put(t, 2, Leading(s0.nextFlight, Persisting(p))).(view := w);
    assert Next(t, Act(2, reply)) == Some(u) by { ActStep(t, 2, reply, w, Persisting(p)); }
    RunThen(s0, six, t, Act(2, reply), u);
    assert At(u, 1) == Returned(None, None);
  }

  function FreshPcs(g: nat): (r: seq<Pc>)
    ensures |r| == 7 && r[0] == Opened && r[6] == Sending(g)
  {
    [Opened, WantLock(false), Held(false), Reloaded(false), Ready, Chosen(g), Sending(g)]
  }

  function FreshActions(): (r: seq<Action>)
    ensures |r| == 6
    ensures forall a :: a in r ==>
              a.Look? || a.TakeLock? || a == Reload(NothingStored) || a.Preflight? || a.Choose? || a.Send?
  {
    [Look, TakeLock(true), Reload(NothingStored), Preflight(true), Choose(false), Send]
  }

  lemma FreshSteps(v: View, g: nat, wired: bool)
    requires v.pending.None? && v.refresh == Some(g)
    ensures forall i :: 0 <= i < 6 ==>
              Step(v, FreshPcs(g)[i], FreshActions()[i], wired) == Some((v, FreshPcs(g)[i + 1]))
  {
  }

  lemma FirstCalls(s0: Process, s1: Process, s2: Process)
    requires Initial(s0) && s0.view.token.Some? && s0.view.refresh.Some?
    requires s1 == Put(s0, 1, Returned(None, None))
    requires s2 == Put(s1, 2, Leading(s0.nextFlight, Opened))
                   .(view := s0.view.(inflight := Some(s0.nextFlight)), nextFlight := s0.nextFlight + 1)
    ensures Next(s0, Call(1, true, false, false)) == Some(s1)
    ensures Next(s1, Call(2, false, false, false)) == Some(s2)
  {
  }

  lemma ActStep(s: Process, c: nat, a: Action, v: View, pc: Pc)
    requires At(s, c).Leading? && Step(s.view, At(s, c).pc, a, s.wired) == Some((v, pc))
    ensures Next(s, Act(c, a)) ==
            Some(Put(s, c, Leading(At(s, c).flight, pc)).(view := v, safe := SafeAfter(s, At(s, c).pc, a)))
  {
  }

  lemma NoEvents(s: Process)
    ensures Run(s, []) == Some(s)
  {
  }

  /** Actions that change nothing but how far the leader is. */
  lemma {:induction false} LeaderRun(s0: Process, before: seq<Event>, s: Process, c: nat, pcs: seq<Pc>,
                                     acts: seq<Action>)
    returns (events: seq<Event>)
    requires Run(s0, before) == Some(s) && At(s, c).Leading? && |pcs| == |acts| + 1 && At(s, c).pc == pcs[0]
    requires forall i :: 0 <= i < |acts| ==> Step(s.view, pcs[i], acts[i], s.wired) == Some((s.view, pcs[i + 1]))
    requires forall a :: a in acts ==>
               a.Look? || a.TakeLock? || a == Reload(NothingStored) || a.Preflight? || a.Choose? || a.Send?
    ensures Run(s0, events) == Some(Put(s, c, Leading(At(s, c).flight, pcs[|acts|])))
    decreases |acts|
  {
    hide Run, Step, Next;
    if acts == [] {
      assert Put(s, c, Leading(At(s, c).flight, pcs[0])) == s;
      return before;
    }
    var s' := Put(s, c, Leading(At(s, c).flight, pcs[1]));
    ActStep(s, c, acts[0], s.view, pcs[1]);
    RunThen(s0, before, s, Act(c, acts[0]), s');
    events := LeaderRun(s0, before + [Act(c, acts[0])], s', c, pcs[1..], acts[1..]);
    assert Put(s', c, Leading(At(s, c).flight, pcs[|acts|])) == Put(s, c, Leading(At(s, c).flight, pcs[|acts|]));
  }

  lemma {:induction false} RunThen(s0: Process, events: seq<Event>, s: Process, e: Event, t: Process)
    requires Run(s0, events) == Some(s) && Next(s, e) == Some(t)
    ensures Run(s0, events + [e]) == Some(t)
    decreases |events|
  {
    hide Next;
    if events == [] {
      assert (events + [e])[1..] == [];
    } else {
      assert (events + [e])[1..] == events[1..] + [e];
      RunThen(Next(s0, events[0]).value, events[1..], s, e, t);
    }
  }
}
