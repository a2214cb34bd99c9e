/** Processes that share one config: their transports (transport.go) with the persistence
    callbacks of rest.go, the cross-process lock, the stored tokens, and an issuer that replaces
    a refresh token when it is presented. */
module RefreshSystem {
  import opened Wrappers
  import opened RefreshRegions
  import opened RefreshFlights

  datatype Saved = Saved(token: Option<nat>, refresh: nat)

  /** The goroutine whose flight holds the cross-process lock. */
  datatype Holder = Holder(process: nat, caller: nat)

  /** Process `process` presented `presented` and the issuer answered with `replacement`. */
  datatype Exchange = Exchange(process: nat, presented: nat, replacement: nat)

  /** `live` are the refresh tokens the issuer accepts, `rotated` those it has replaced; all are
      below `next`. `log` is the history of answered refreshes. */
  datatype System = System(procs: map<nat, Process>, holder: Option<Holder>, saved: Saved, live: set<nat>,
                           rotated: set<nat>, next: nat, log: set<Exchange>)

  /** What becomes of a response on its way back. */
  datatype Delivery = Lost | Garbled | WithoutReplacement | Delivered(token: Option<nat>, datesValid: bool)

  /** What becomes of a presented token. */
  datatype Fate = NotReached | Refused | Rotates(delivery: Delivery) | Keeps(delivery: Delivery)

  datatype SaveFate = Succeeds | CannotRead | NotApplied | AppliedButFails

  datatype SysEvent = Inside(p: nat, e: Event)
                    | Locks(p: nat, c: nat)
                    | Reloads(p: nat, c: nat, usable: bool)
                    | Answers(p: nat, c: nat, fate: Fate)
                    | Saving(p: nat, c: nat, how: SaveFate)
                    | Login(token: nat)
                    | Start(p: nat)
                    | Crash(p: nat, consumed: bool)

  /** A step that needs no answer from outside the process. */
  predicate IsInside(e: Event) {
    e.Act? ==> !(e.action == TakeLock(true) || (e.action.Reload? && e.action.result != ReloadError)
                 || e.action.Receive? || e.action.Persist?)
  }

  function PcOf(s: System, p: nat, c: nat): Option<Pc> {
    if p in s.procs && At(s.procs[p], c).Leading? then Some(At(s.procs[p], c).pc) else None
  }

  function Local(s: System, p: nat, e: Event): Option<Process> {
    if p in s.procs then Next(s.procs[p], e) else None
  }

  function Move(s: System, p: nat, e: Event): Option<System> {
    match Local(s, p, e)
    case None => None
    case Some(q) => Some(s.(procs := s.procs[p := q]))
  }

  function Respond(generation: nat, delivery: Delivery): Response {
    match delivery
    case Lost => NoResponse
    case Garbled => Unreadable
    case WithoutReplacement => Reply(None, None, true)
    case Delivered(token, datesValid) => Reply(token, Some(generation), datesValid)
  }

  function Rotate(s: System, p: nat, g: nat): System {
    s.(live := s.live - {g} + {s.next}, rotated := s.rotated + {g}, next := s.next + 1,
       log := s.log + {Exchange(p, g, s.next)})
  }

  /** OnRefresh: the compare-and-swap on the stored generation. */
  function OnRefresh(saved: Saved, p: Pending, how: SaveFate): (Saved, PersistResult) {
    var replacement := Saved(p.token, p.refresh);
    if how.CannotRead? then (saved, PersistError)
    else if saved == replacement then (saved, Persisted)
    else if saved.refresh != p.previous then (saved, GenerationChanged)
    else match how
      case NotApplied => (saved, PersistError)
      case AppliedButFails => (replacement, PersistError)
      case _ => (replacement, Persisted)
  }

  function NextSystem(s: System, e: SysEvent): Option<System> {
    match e
    case Inside(p, local) =>
      if !IsInside(local) then None
      else (match Move(s, p, local)
        case None => None
        case Some(t) => Some(if local.Act? && local.action == Release then t.(holder := None) else t))
    case Locks(p, c) =>
      if s.holder.Some? then None
      else (match Move(s, p, Act(c, TakeLock(true)))
        case None => None
        case Some(t) => Some(t.(holder := Some(Holder(p, c)))))
    case Reloads(p, c, usable) =>
      Move(s, p, Act(c, Reload(Loaded(Stored(s.saved.token, Some(s.saved.refresh)), usable))))
    case Answers(p, c, fate) =>
      (match PcOf(s, p, c)
       case Some(Sending(g)) =>
         (match fate
          case NotReached => Move(s, p, Act(c, Receive(NoResponse)))
          case Refused => Move(s, p, Act(c, Receive(NoResponse)))
          case Rotates(d) =>
            if g in s.live then Move(Rotate(s, p, g), p, Act(c, Receive(Respond(s.next, d)))) else None
          case Keeps(d) =>
            if g in s.live then
              Move(s.(log := s.log + {Exchange(p, g, g)}), p, Act(c, Receive(Respond(g, d))))
            else None)
       case _ => None)
    case Saving(p, c, how) =>
      (match PcOf(s, p, c)
       case Some(Persisting(pending)) =>
         var (saved, result) := OnRefresh(s.saved, pending, how);
         Move(s.(saved := saved), p, Act(c, Persist(result)))
       case _ => None)
    case Login(token) =>
      // A new login stores its tokens under the same lock.
      if s.holder.Some? then None
      else Some(s.(saved := Saved(Some(token), s.next), live := s.live + {s.next}, next := s.next + 1))
    case Start(p) =>
      if p in s.procs then None
      else
        var view := View(s.saved.token, Some(s.saved.refresh), None, false, None);
        var safe := if s.saved.token.Some? then {s.saved.token.value} else {};
        Some(s.(procs := s.procs[p := Process(view, map[], map[], 0, safe, true)]))
    case Crash(p, consumed) =>
      if p !in s.procs then None
      else
        var t := s.(procs := s.procs - {p}, holder := if HeldBy(s, p) then None else s.holder);
        if consumed then
          (match HeldAt(s, p)
           case Some(Sending(g)) => if g in s.live then Some(Rotate(t, p, g)) else None
           case _ => None)
        else Some(t)
  }

  predicate HeldBy(s: System, p: nat) {
    s.holder.Some? && s.holder.value.process == p
  }

  function HeldAt(s: System, p: nat): Option<Pc> {
    if HeldBy(s, p) then PcOf(s, p, s.holder.value.caller) else None
  }

  /** Where the flight that holds the lock is. */
  function HolderPc(s: System): Option<Pc> {
    if s.holder.Some? then PcOf(s, s.holder.value.process, s.holder.value.caller) else None
  }

  // ---------------------------------------------------------------------------
  // What every run keeps
  // ---------------------------------------------------------------------------

  ghost predicate ProcsOk(s: System) {
    forall p :: p in s.procs ==> Inv(s.procs[p]) && s.procs[p].wired
  }

  /** The flights between lock and release are exactly the one that holds the lock. */
  ghost predicate LockOk(s: System) {
    && (s.holder.Some? ==> HolderPc(s).Some? && HolderPc(s).value.Locked())
    && (forall p: nat, c: nat :: PcOf(s, p, c).Some? && PcOf(s, p, c).value.Locked() ==> s.holder == Some(Holder(p, c)))
  }

  /** Under the lock, what is about to be presented is what is stored. */
  predicate HolderOk(s: System) {
    match HolderPc(s)
    case Some(Reloaded(_)) => s.procs[s.holder.value.process].view.refresh == Some(s.saved.refresh)
    case Some(Ready) => s.procs[s.holder.value.process].view.refresh == Some(s.saved.refresh)
    case Some(Chosen(g)) => g == s.saved.refresh
    case Some(Sending(g)) => g == s.saved.refresh
    case _ => true
  }

  /** A pending generation is the issuer's answer to the one it is to replace. */
  ghost predicate PendingOk(s: System) {
    forall p :: p in s.procs && s.procs[p].view.pending.Some? ==>
      var pending := s.procs[p].view.pending.value;
      Exchange(p, pending.previous, pending.refresh) in s.log
  }

  ghost predicate IssuerOk(s: System) {
    && s.live !! s.rotated
    && (forall g :: g in s.live || g in s.rotated ==> g < s.next)
    && s.saved.refresh in s.live + s.rotated
    && (forall x :: x in s.log ==> x.presented == x.replacement || x.presented in s.rotated)
    && (forall x :: x in s.log ==> x.replacement in s.live + s.rotated)
  }

  ghost predicate SysInv(s: System) {
    ProcsOk(s) && LockOk(s) && HolderOk(s) && PendingOk(s) && IssuerOk(s)
  }

  /** The stored token has been rotated, and no flight is about to replace it. */
  predicate Stranded(s: System) {
    s.saved.refresh in s.rotated
    && match HolderPc(s)
       case Some(Persisting(p)) => p.previous != s.saved.refresh || p.refresh in s.rotated
       case _ => true
  }

  /** The events that lose a rotated generation: a response lost or without a replacement, a
      save that fails without effect, or a crash in between. */
  predicate Fault(s: System, e: SysEvent) {
    match e
    case Answers(_, _, Rotates(d)) => !d.Delivered?
    case Saving(_, _, how) => how.CannotRead? || how.NotApplied?
    case Crash(p, consumed) => consumed || (HeldAt(s, p).Some? && HeldAt(s, p).value.Persisting?)
    case _ => false
  }

  predicate InitialSystem(s: System) {
    s.procs == map[] && s.holder.None? && s.live == {s.saved.refresh} && s.rotated == {} && s.log == {}
    && s.saved.refresh < s.next
  }

  function RunSystem(s: System, events: seq<SysEvent>): Option<System>
    decreases |events|
  {
    if events == [] then Some(s)
    else match NextSystem(s, events[0])
      case None => None
      case Some(t) => RunSystem(t, events[1..])
  }

  // ---------------------------------------------------------------------------
  // Proofs, event by event
  // ---------------------------------------------------------------------------

  /** A step of goroutine c of process p: what it changes of the process. */
  lemma Acted(s: System, p: nat, c: nat, a: Action)
    requires ProcsOk(s) && Local(s, p, Act(c, a)).Some?
    ensures Inv(Local(s, p, Act(c, a)).value) && Local(s, p, Act(c, a)).value.wired
    ensures PcOf(s, p, c).Some? && Step(s.procs[p].view, PcOf(s, p, c).value, a, true).Some?
    ensures AtPc(s.procs[p].view, PcOf(s, p, c).value) && ViewOk(s.procs[p].view)
    ensures var q := Local(s, p, Act(c, a)).value;
            var (v, pc) := Step(s.procs[p].view, PcOf(s, p, c).value, a, true).value;
            && q.view == v && At(q, c).Leading? && At(q, c).pc == pc
            && forall d :: d != c ==> At(q, d) == At(s.procs[p], d)
  {
    hide Inv, Step, AtPc, ViewOk, SafeAfter;
    NextKeepsInv(s.procs[p], Act(c, a));
    LeaderOk(s.procs[p], c);
  }

  /** A step of one leader from one locked point to another keeps the lock invariant. */
  lemma LockKept(s: System, t: System, p: nat, c: nat)
    requires LockOk(s) && p in s.procs && p in t.procs && t.holder == s.holder
    requires PcOf(s, p, c).Some? && PcOf(t, p, c).Some?
    requires PcOf(t, p, c).value.Locked() == PcOf(s, p, c).value.Locked()
    requires forall p': nat, c': nat :: (p', c') != (p, c) ==> PcOf(t, p', c') == PcOf(s, p', c')
    ensures LockOk(t)
  {
    hide PcOf;
  }

  lemma OthersStay(s: System, t: System, p: nat, c: nat)
    requires p in s.procs && p in t.procs
    requires forall p' :: p' != p ==>
               (p' in t.procs <==> p' in s.procs) && (p' in s.procs ==> t.procs[p'] == s.procs[p'])
    requires forall d :: d != c ==> At(t.procs[p], d) == At(s.procs[p], d)
    ensures forall p': nat, c': nat :: (p', c') != (p, c) ==> PcOf(t, p', c') == PcOf(s, p', c')
  {
  }

  /** A step of one process that leaves its pending generation and everything outside it alone. */
  lemma RestKept(s: System, t: System, p: nat)
    requires ProcsOk(s) && PendingOk(s) && IssuerOk(s) && p in s.procs && p in t.procs
    requires t.procs == s.procs[p := t.procs[p]] && Inv(t.procs[p]) && t.procs[p].wired
    requires t.procs[p].view.pending == s.procs[p].view.pending
    requires t.saved == s.saved && t.live == s.live && t.rotated == s.rotated && t.next == s.next && t.log == s.log
    ensures ProcsOk(t) && PendingOk(t) && IssuerOk(t)
  {
    hide Inv;
  }

  /** The lock is taken. */
  lemma LocksKeeps(s: System, e: SysEvent)
    requires SysInv(s) && e.Locks? && NextSystem(s, e).Some?
    ensures SysInv(NextSystem(s, e).value)
    ensures !Stranded(s) ==> !Stranded(NextSystem(s, e).value)
  {
    hide Inv, AtPc, ViewOk, Next;
    var t := NextSystem(s, e).value;
    Acted(s, e.p, e.c, TakeLock(true));
    OthersStay(s, t, e.p, e.c);
  }

  /** An inside step leaves the fields alone and can only take the flight one point on. */
  lemma InsideStep(v: View, pc: Pc, a: Action)
    requires IsInside(Act(0, a)) && Step(v, pc, a, true).Some?
    ensures var (v', pc') := Step(v, pc, a, true).value;
            && v' == v && !pc.Persisting? && !pc.Sending?
            && (a == Release <==> pc.Locked() && !pc'.Locked()) && (pc'.Locked() ==> pc.Locked())
            && !pc'.Reloaded? && (pc'.Ready? ==> pc.Reloaded?)
            && (pc'.Chosen? ==> pc.Ready? && v.refresh == Some(pc'.generation))
            && (pc'.Sending? ==> pc == Chosen(pc'.generation))
  {
  }

  /** A goroutine moves on without an answer from outside. */
  lemma InsideActKeeps(s: System, p: nat, c: nat, a: Action)
    requires SysInv(s) && NextSystem(s, Inside(p, Act(c, a))).Some?
    ensures SysInv(NextSystem(s, Inside(p, Act(c, a))).value)
    ensures !Stranded(s) ==> !Stranded(NextSystem(s, Inside(p, Act(c, a))).value)
  {
    hide Inv, ViewOk, Next, Step, AtPc;
    var t := NextSystem(s, Inside(p, Act(c, a))).value;
    assert t == s.(procs := s.procs[p := Next(s.procs[p], Act(c, a)).value],
                   holder := if a == Release then None else s.holder);
    hide NextSystem;
    Acted(s, p, c, a);
    InsideStep(s.procs[p].view, PcOf(s, p, c).value, a);
    OthersStay(s, t, p, c);
    assert PcOf(t, p, c).Some?;
    RestKept(s, t, p);
    hide ProcsOk, PendingOk, IssuerOk;
    if a != Release {
      LockKept(s, t, p, c);
    }
  }

  lemma CallSteps(s: Process, e: Event)
    requires Inv(s) && !e.Act? && Next(s, e).Some?
    ensures Inv(Next(s, e).value) && Next(s, e).value.wired == s.wired
    ensures Next(s, e).value.view == s.view.(inflight := Next(s, e).value.view.inflight)
    ensures forall d :: d != e.c ==> At(Next(s, e).value, d) == At(s, d)
    ensures At(s, e.c).Leading? ==> !At(s, e.c).pc.Locked()
    ensures At(Next(s, e).value, e.c).Leading? ==> At(Next(s, e).value, e.c).pc == Opened
  {
    hide Inv;
    NextKeepsInv(s, e);
  }

  /** A goroutine calls, wakes up, gives up or closes its flight. */
  lemma InsideCallKeeps(s: System, p: nat, e: Event)
    requires SysInv(s) && !e.Act? && NextSystem(s, Inside(p, e)).Some?
    ensures SysInv(NextSystem(s, Inside(p, e)).value)
    ensures !Stranded(s) ==> !Stranded(NextSystem(s, Inside(p, e)).value)
  {
    hide Inv, ViewOk, AtPc, Next;
    var t := NextSystem(s, Inside(p, e)).value;
    assert Next(s.procs[p], e).Some? && t == s.(procs := s.procs[p := Next(s.procs[p], e).value]);
    hide NextSystem;
    CallSteps(s.procs[p], e);
    OthersStay(s, t, p, e.c);
    RestKept(s, t, p);
    hide ProcsOk, PendingOk, IssuerOk;
    OutsideLock(s, t, p, e.c);
    hide LockOk;
  }

  /** A step outside the lock. */
  lemma OutsideLock(s: System, t: System, p: nat, c: nat)
    requires LockOk(s) && t.holder == s.holder
    requires PcOf(s, p, c).Some? ==> !PcOf(s, p, c).value.Locked()
    requires PcOf(t, p, c).Some? ==> !PcOf(t, p, c).value.Locked()
    requires forall p': nat, c': nat :: (p', c') != (p, c) ==> PcOf(t, p', c') == PcOf(s, p', c')
    ensures LockOk(t) && HolderPc(t) == HolderPc(s)
  {
    hide PcOf;
  }

  lemma ReloadsKeeps(s: System, e: SysEvent)
    requires SysInv(s) && e.Reloads? && NextSystem(s, e).Some?
    ensures SysInv(NextSystem(s, e).value)
    ensures !Stranded(s) ==> !Stranded(NextSystem(s, e).value)
  {
    hide Inv, ViewOk, Next;
    var t := NextSystem(s, e).value;
    Acted(s, e.p, e.c, Reload(Loaded(Stored(s.saved.token, Some(s.saved.refresh)), e.usable)));
    OthersStay(s, t, e.p, e.c);
    LockKept(s, t, e.p, e.c);
    RestKept(s, t, e.p);
    hide ProcsOk, PendingOk, IssuerOk, LockOk;
  }

  /** What a flight makes of the issuer's answer. */
  lemma AnswerStep(v: View, g: nat, response: Response)
    requires v.pending.None?
    ensures Step(v, Sending(g), Receive(response), true).Some?
    ensures var (v', pc') := Step(v, Sending(g), Receive(response), true).value;
            if response.Reply? && response.refresh.Some? then
              && pc'.Persisting? && v'.pending == Some(pc'.p)
              && pc'.p.previous == g && pc'.p.refresh == response.refresh.value
            else v'.pending.None? && pc'.Releasing?
  {
  }

  lemma SendingIsIdle(v: View, pc: Pc)
    requires AtPc(v, pc) && pc.Sending?
    ensures v.pending.None?
  {
  }

  /** The response of one of the fates, and the system it is received in. */
  function ResponseTo(s: System, p: nat, g: nat, fate: Fate): (System, Response) {
    match fate
    case Rotates(d) => (Rotate(s, p, g), Respond(s.next, d))
    case Keeps(d) => (s.(log := s.log + {Exchange(p, g, g)}), Respond(g, d))
    case _ => (s, NoResponse)
  }

  lemma AnswersAre(s: System, e: SysEvent)
    requires e.Answers? && NextSystem(s, e).Some?
    ensures PcOf(s, e.p, e.c).Some? && PcOf(s, e.p, e.c).value.Sending?
    ensures var g := PcOf(s, e.p, e.c).value.generation;
            var (u, response) := ResponseTo(s, e.p, g, e.fate);
            && NextSystem(s, e) == Move(u, e.p, Act(e.c, Receive(response)))
            && (e.fate.Rotates? || e.fate.Keeps? ==> g in s.live)
  {
  }

  /** What the flight that holds the lock makes of the answer. */
  lemma AnswersMove(s: System, e: SysEvent)
    requires SysInv(s) && e.Answers? && NextSystem(s, e).Some?
    ensures PcOf(s, e.p, e.c) == Some(Sending(s.saved.refresh)) && s.holder == Some(Holder(e.p, e.c))
    ensures var t, (u, response) := NextSystem(s, e).value, ResponseTo(s, e.p, s.saved.refresh, e.fate);
            && t == u.(procs := s.procs[e.p := t.procs[e.p]]) && Inv(t.procs[e.p]) && t.procs[e.p].wired
            && LockOk(t) && HolderPc(t).Some?
            && var pc, pending := HolderPc(t).value, t.procs[e.p].view.pending;
               if response.Reply? && response.refresh.Some? then
                 && pc.Persisting? && pending == Some(pc.p)
                 && pc.p.previous == s.saved.refresh && pc.p.refresh == response.refresh.value
               else pending.None? && pc.Releasing?
  {
    AnswersAre(s, e);
    var t, g := NextSystem(s, e).value, PcOf(s, e.p, e.c).value.generation;
    var (u, response) := ResponseTo(s, e.p, g, e.fate);
    hide Inv, ViewOk, Next, Step, AtPc, NextSystem, IssuerOk, PendingOk;
    Acted(s, e.p, e.c, Receive(response));
    SendingIsIdle(s.procs[e.p].view, PcOf(s, e.p, e.c).value);
    AnswerStep(s.procs[e.p].view, g, response);
    OthersStay(s, t, e.p, e.c);
    LockKept(s, t, e.p, e.c);
  }

  /** The issuer answers the flight that holds the lock. */
  lemma AnswersKeeps(s: System, e: SysEvent)
    requires SysInv(s) && e.Answers? && NextSystem(s, e).Some?
    ensures SysInv(NextSystem(s, e).value)
    ensures !Stranded(s) && !Fault(s, e) ==> !Stranded(NextSystem(s, e).value)
  {
    AnswersAre(s, e);
    AnswersMove(s, e);
    var t, u := NextSystem(s, e).value, ResponseTo(s, e.p, s.saved.refresh, e.fate).0;
    AnswerIssuer(s, e.p, s.saved.refresh, e.fate);
    IssuerSame(u, t);
    LogGrows(s, e.p, s.saved.refresh, e.fate);
    AnswerPending(s, t, e.p);
    ProcsStay(s, t, e.p);
    AnswerHolder(s, t, e);
    hide Inv, NextSystem, LockOk, HolderPc, PcOf, Move, IssuerOk, PendingOk, ProcsOk, HolderOk, Stranded, Fault,
         ResponseTo;
  }

  lemma LogGrows(s: System, p: nat, g: nat, fate: Fate)
    ensures var (u, response) := ResponseTo(s, p, g, fate);
            && s.log <= u.log && u.saved == s.saved && u.holder == s.holder
            && (response.Reply? && response.refresh.Some? ==> Exchange(p, g, response.refresh.value) in u.log)
  {
  }

  lemma ProcsStay(s: System, t: System, p: nat)
    requires ProcsOk(s) && p in t.procs && t.procs == s.procs[p := t.procs[p]] && Inv(t.procs[p]) && t.procs[p].wired
    ensures ProcsOk(t)
  {
    hide Inv;
  }

  lemma AnswerHolder(s: System, t: System, e: SysEvent)
    requires e.Answers? && HolderPc(t).Some? && (HolderPc(t).value.Persisting? || HolderPc(t).value.Releasing?)
    requires PcOf(s, e.p, e.c) == Some(Sending(s.saved.refresh)) && s.holder == Some(Holder(e.p, e.c))
    requires t.saved == s.saved && t.rotated == ResponseTo(s, e.p, s.saved.refresh, e.fate).0.rotated
    requires e.fate.Rotates? ==> s.next !in s.rotated + {s.saved.refresh}
    requires var response := ResponseTo(s, e.p, s.saved.refresh, e.fate).1;
             response.Reply? && response.refresh.Some? ==>
               HolderPc(t).value.Persisting? && HolderPc(t).value.p.refresh == response.refresh.value
               && HolderPc(t).value.p.previous == s.saved.refresh
    ensures HolderOk(t)
    ensures !Stranded(s) && !Fault(s, e) ==> !Stranded(t)
  {
  }

  lemma AnswerIssuer(s: System, p: nat, g: nat, fate: Fate)
    requires IssuerOk(s) && (fate.Rotates? || fate.Keeps? ==> g in s.live)
    ensures IssuerOk(ResponseTo(s, p, g, fate).0)
    ensures fate.Rotates? ==> s.next !in s.rotated + {g}
  {
  }

  lemma IssuerSame(u: System, t: System)
    requires IssuerOk(u) && t == u.(procs := t.procs)
    ensures IssuerOk(t)
  {
  }

  lemma AnswerPending(s: System, t: System, p: nat)
    requires PendingOk(s) && s.log <= t.log && p in t.procs && t.procs == s.procs[p := t.procs[p]]
    requires t.procs[p].view.pending.Some? ==>
               Exchange(p, t.procs[p].view.pending.value.previous, t.procs[p].view.pending.value.refresh) in t.log
    ensures PendingOk(t)
  {
  }

  lemma SavingKeeps(s: System, e: SysEvent)
    requires SysInv(s) && e.Saving? && NextSystem(s, e).Some?
    ensures SysInv(NextSystem(s, e).value)
    ensures !Stranded(s) && !Fault(s, e) ==> !Stranded(NextSystem(s, e).value)
  {
    hide Inv, ViewOk, Next;
    var t, pending := NextSystem(s, e).value, PcOf(s, e.p, e.c).value.p;
    Acted(s, e.p, e.c, Persist(OnRefresh(s.saved, pending, e.how).1));
    OthersStay(s, t, e.p, e.c);
    LockKept(s, t, e.p, e.c);
    assert s.holder == Some(Holder(e.p, e.c));
    assert Exchange(e.p, pending.previous, pending.refresh) in s.log;
  }

  lemma StartKeeps(s: System, e: SysEvent)
    requires SysInv(s) && (e.Login? || e.Start?) && NextSystem(s, e).Some?
    ensures SysInv(NextSystem(s, e).value)
    ensures !Stranded(s) ==> !Stranded(NextSystem(s, e).value)
  {
    hide Inv, ViewOk, AtPc, Next;
    var t := NextSystem(s, e).value;
    if e.Start? {
      InitialInv(t.procs[e.p]);
      assert forall p: nat, c: nat :: PcOf(t, p, c) == PcOf(s, p, c);
    } else {
      assert forall p: nat, c: nat :: PcOf(t, p, c) == PcOf(s, p, c);
    }
  }

  lemma CrashKeeps(s: System, e: SysEvent)
    requires SysInv(s) && e.Crash? && NextSystem(s, e).Some?
    ensures SysInv(NextSystem(s, e).value)
    ensures !Stranded(s) && !Fault(s, e) ==> !Stranded(NextSystem(s, e).value)
  {
    hide Inv, ViewOk, AtPc, Next;
    var t := NextSystem(s, e).value;
    assert forall p: nat, c: nat :: p != e.p ==> PcOf(t, p, c) == PcOf(s, p, c);
    assert forall c: nat :: PcOf(t, e.p, c).None?;
    hide At;
  }

  /** Every step keeps the invariants, and only a fault strands the stored token. */
  lemma NextSystemKeeps(s: System, e: SysEvent)
    requires SysInv(s) && NextSystem(s, e).Some?
    ensures SysInv(NextSystem(s, e).value)
    ensures !Stranded(s) && Stranded(NextSystem(s, e).value) ==> Fault(s, e)
  {
    hide SysInv, Stranded, Fault, NextSystem;
    match e
    case Inside(p, local) => if local.Act? { InsideActKeeps(s, p, local.c, local.action); }
      else { InsideCallKeeps(s, p, local); }
    case Locks(_, _) => LocksKeeps(s, e);
    case Reloads(_, _, _) => ReloadsKeeps(s, e);
    case Answers(_, _, _) => AnswersKeeps(s, e);
    case Saving(_, _, _) => SavingKeeps(s, e);
    case Login(_) => StartKeeps(s, e);
    case Start(_) => StartKeeps(s, e);
    case Crash(_, _) => CrashKeeps(s, e);
  }

  // ---------------------------------------------------------------------------
  // Whole runs
  // ---------------------------------------------------------------------------

  predicate NoFault(s: System, events: seq<SysEvent>)
    decreases |events|
  {
    events != [] && NextSystem(s, events[0]).Some? ==>
      !Fault(s, events[0]) && NoFault(NextSystem(s, events[0]).value, events[1..])
  }

  lemma InitialSysInv(s: System)
    requires InitialSystem(s)
    ensures SysInv(s) && !Stranded(s)
  {
  }

  lemma {:induction false} RunSystemKeeps(s: System, events: seq<SysEvent>)
    requires SysInv(s) && RunSystem(s, events).Some?
    ensures SysInv(RunSystem(s, events).value)
    ensures !Stranded(s) && NoFault(s, events) ==> !Stranded(RunSystem(s, events).value)
    decreases |events|
  {
    hide SysInv, Stranded, Fault, NextSystem;
    if events != [] {
      NextSystemKeeps(s, events[0]);
      RunSystemKeeps(NextSystem(s, events[0]).value, events[1..]);
    }
  }

  /** In every run at most one flight of all processes is between taking and releasing the lock. */
  lemma OneFlightUnderLock(s0: System, events: seq<SysEvent>, p: nat, c: nat, q: nat, d: nat)
    requires InitialSystem(s0) && RunSystem(s0, events).Some?
    requires PcOf(RunSystem(s0, events).value, p, c).Some? && PcOf(RunSystem(s0, events).value, p, c).value.Locked()
    requires PcOf(RunSystem(s0, events).value, q, d).Some? && PcOf(RunSystem(s0, events).value, q, d).value.Locked()
    ensures (p, c) == (q, d)
  {
    InitialSysInv(s0);
    RunSystemKeeps(s0, events);
    hide RunSystem, PcOf;
    var s := RunSystem(s0, events).value;
    assert s.holder == Some(Holder(p, c)) && s.holder == Some(Holder(q, d));
  }

  lemma SendUnderLock(s: System, p: nat, c: nat)
    requires SysInv(s) && NextSystem(s, Inside(p, Act(c, Send))).Some?
    ensures PcOf(s, p, c) == Some(Chosen(s.saved.refresh))
    ensures s.saved.refresh in s.rotated <==> Stranded(s)
    ensures s.saved.refresh in s.live <==> !Stranded(s)
  {
    hide Inv, ViewOk, Next, AtPc;
    Acted(s, p, c, Send);
  }

  /** What is presented, in every run, is the stored generation; it has been rotated already just
      when the stored token was stranded. */
  lemma PresentsTheStored(s0: System, events: seq<SysEvent>, p: nat, c: nat)
    requires InitialSystem(s0) && RunSystem(s0, events).Some?
    requires NextSystem(RunSystem(s0, events).value, Inside(p, Act(c, Send))).Some?
    ensures var s := RunSystem(s0, events).value;
            && PcOf(s, p, c) == Some(Chosen(s.saved.refresh))
            && (s.saved.refresh in s.rotated <==> Stranded(s))
  {
    InitialSysInv(s0);
    RunSystemKeeps(s0, events);
    SendUnderLock(RunSystem(s0, events).value, p, c);
  }

  /** Without a fault no refresh token is presented after the issuer has rotated it. */
  lemma NeverPresentsRotated(s0: System, events: seq<SysEvent>, p: nat, c: nat)
    requires InitialSystem(s0) && RunSystem(s0, events).Some? && NoFault(s0, events)
    requires NextSystem(RunSystem(s0, events).value, Inside(p, Act(c, Send))).Some?
    ensures var s := RunSystem(s0, events).value;
            PcOf(s, p, c).value.Chosen? && PcOf(s, p, c).value.generation in s.live
            && PcOf(s, p, c).value.generation !in s.rotated
  {
    InitialSysInv(s0);
    RunSystemKeeps(s0, events);
    SendUnderLock(RunSystem(s0, events).value, p, c);
  }

  /** Whatever goes wrong, a refresh only ever replaces the stored generation it presented, with
      the issuer's answer to it; anything else that changes the stored tokens is a login. */
  lemma CompareAndSwap(s0: System, events: seq<SysEvent>, e: SysEvent)
    requires InitialSystem(s0) && RunSystem(s0, events).Some? && NextSystem(RunSystem(s0, events).value, e).Some?
    ensures var s := RunSystem(s0, events).value;
            var t := NextSystem(s, e).value;
            t.saved == s.saved || e.Login?
            || (e.Saving? && PcOf(s, e.p, e.c).Some? && PcOf(s, e.p, e.c).value.Persisting?
                && var pending := PcOf(s, e.p, e.c).value.p;
                   && s.saved.refresh == pending.previous && t.saved == Saved(pending.token, pending.refresh)
                   && Exchange(e.p, pending.previous, pending.refresh) in s.log)
  {
    InitialSysInv(s0);
    RunSystemKeeps(s0, events);
    var s := RunSystem(s0, events).value;
    hide SysInv, Next, RunSystem, OnRefresh;
    if e.Saving? {
      SaveSwaps(s, e);
    }
  }

  lemma SaveSwaps(s: System, e: SysEvent)
    requires SysInv(s) && e.Saving? && NextSystem(s, e).Some?
    ensures PcOf(s, e.p, e.c).Some? && PcOf(s, e.p, e.c).value.Persisting?
    ensures var t, pending := NextSystem(s, e).value, PcOf(s, e.p, e.c).value.p;
            && (t.saved != s.saved ==>
                  s.saved.refresh == pending.previous && t.saved == Saved(pending.token, pending.refresh))
            && Exchange(e.p, pending.previous, pending.refresh) in s.log
  {
    hide Inv, ViewOk, Next, Step, LockOk, HolderOk, IssuerOk;
    var pending := PcOf(s, e.p, e.c).value.p;
    Acted(s, e.p, e.c, Persist(OnRefresh(s.saved, pending, e.how).1));
    assert s.procs[e.p].view.pending == Some(pending);
  }

  /** A save that fails without effect strands the stored token if the issuer has rotated it. */
  lemma FailedSaveStrands(s: System, p: nat, c: nat)
    requires SysInv(s) && PcOf(s, p, c).Some? && PcOf(s, p, c).value.Persisting?
    requires var pending := PcOf(s, p, c).value.p;
             pending.previous == s.saved.refresh && pending.refresh != pending.previous
    ensures NextSystem(s, Saving(p, c, NotApplied)).Some? && Stranded(NextSystem(s, Saving(p, c, NotApplied)).value)
  {
    hide Inv, ViewOk;
    var pending := PcOf(s, p, c).value.p;
    assert s.holder == Some(Holder(p, c));
    LeaderOk(s.procs[p], c);
    assert Exchange(p, pending.previous, pending.refresh) in s.log;
  }

  /** While the stored token is stranded and the lock is free, a further process presents the
      rotated token. */
  lemma StrandedIsPresented(s: System, p: nat)
    requires SysInv(s) && Stranded(s) && s.holder.None? && p !in s.procs
    ensures exists events :: RunSystem(s, events).Some?
              && var t := RunSystem(s, events).value;
                 PcOf(t, p, 1) == Some(Chosen(s.saved.refresh)) && s.saved.refresh in t.rotated
                 && NextSystem(t, Inside(p, Act(1, Send))).Some?
  {
    var g := s.saved.refresh;
    var v := View(s.saved.token, Some(g), None, false, Some(0));
    var safe := if s.saved.token.Some? then {s.saved.token.value} else {};
    var started := s.(procs := s.procs[p := Process(v.(inflight := None), map[], map[], 0, safe, true)]);
    var h := Some(Holder(p, 1));
    var locked := FromLock(s, p, v, safe);
    FreshStart(s, p, v, safe);
    FreshInside(s, p, v, safe, Opened, Look, WantLock(false), None);
    FreshLock(s, p, v, safe);
    hide RunSystem, NextSystem, SysInv, Step, Fresh, Stranded;
    var e4 := Prepend(Fresh(s, p, v, safe, WantLock(false), None), Locks(p, 1), Fresh(s, p, v, safe, Held(false), h),
                      locked);
    var e3 := Prepend(Fresh(s, p, v, safe, Opened, None), Inside(p, Act(1, Look)),
                      Fresh(s, p, v, safe, WantLock(false), None), e4);
    var e2 := Prepend(started, Inside(p, Call(1, false, false, false)), Fresh(s, p, v, safe, Opened, None), e3);
    var e1 := Prepend(s, Start(p), started, e2);
    FreshSends(s, p, v, safe, g);
  }

  lemma FreshSends(s: System, p: nat, v: View, safe: set<nat>, g: nat)
    ensures var t := Fresh(s, p, v, safe, Chosen(g), Some(Holder(p, 1)));
            && PcOf(t, p, 1) == Some(Chosen(g)) && t.rotated == s.rotated
            && NextSystem(t, Inside(p, Act(1, Send))).Some?
  {
    FreshInside(s, p, v, safe, Chosen(g), Send, Sending(g), Some(Holder(p, 1)));
  }

  /** From the lock to the choice of the token to present. */
  lemma FromLock(s: System, p: nat, v: View, safe: set<nat>) returns (events: seq<SysEvent>)
    requires v.token == s.saved.token && v.refresh == Some(s.saved.refresh) && v.pending.None?
    requires v.token.Some? ==> v.token.value in safe
    ensures RunSystem(Fresh(s, p, v, safe, Held(false), Some(Holder(p, 1))), events)
         == Some(Fresh(s, p, v, safe, Chosen(s.saved.refresh), Some(Holder(p, 1))))
  {
    var g, h := s.saved.refresh, Some(Holder(p, 1));
    FreshReload(s, p, v, safe);
    FreshInside(s, p, v, safe, Reloaded(false), Preflight(true), Ready, h);
    FreshInside(s, p, v, safe, Ready, Choose(false), Chosen(g), h);
    assert RunSystem(Fresh(s, p, v, safe, Chosen(g), h), []) == Some(Fresh(s, p, v, safe, Chosen(g), h));
    hide RunSystem, NextSystem, Step, Fresh;
    events := Prepend(Fresh(s, p, v, safe, Ready, h), Inside(p, Act(1, Choose(false))),
                      Fresh(s, p, v, safe, Chosen(g), h), []);
    events := Prepend(Fresh(s, p, v, safe, Reloaded(false), h), Inside(p, Act(1, Preflight(true))),
                      Fresh(s, p, v, safe, Ready, h), events);
    events := Prepend(Fresh(s, p, v, safe, Held(false), h), Reloads(p, 1, false),
                      Fresh(s, p, v, safe, Reloaded(false), h), events);
  }

  // ---------------------------------------------------------------------------
  // What the outside does
  // ---------------------------------------------------------------------------

  /** The callback: a generation that cannot be read is left alone, one that is there already is
      confirmed, another one wins, and the presented one is replaced unless the write fails. */
  lemma SaveExactly(saved: Saved, p: Pending, how: SaveFate)
    ensures var (now, result), replaced := OnRefresh(saved, p, how), Saved(p.token, p.refresh);
            && (how.CannotRead? ==> now == saved && result.PersistError?)
            && (!how.CannotRead? && saved == replaced ==> now == saved && result.Persisted?)
            && (!how.CannotRead? && saved != replaced && saved.refresh != p.previous ==>
                  now == saved && result.GenerationChanged?)
            && (!how.CannotRead? && saved != replaced && saved.refresh == p.previous ==>
                  && now == (if how.NotApplied? then saved else replaced)
                  && result == (if how.Succeeds? then Persisted else PersistError))
  {
  }

  /** So a save that reported a failure after taking effect is confirmed when it is tried again. */
  lemma RetriedSaveIsConfirmed(saved: Saved, p: Pending, how: SaveFate)
    requires saved.refresh == p.previous && !how.CannotRead?
    ensures OnRefresh(OnRefresh(saved, p, AppliedButFails).0, p, how) == (Saved(p.token, p.refresh), Persisted)
  {
    SaveExactly(saved, p, AppliedButFails);
    SaveExactly(Saved(p.token, p.refresh), p, how);
    hide OnRefresh;
  }

  /** What a presented token meets: the issuer answers exactly those it accepts. When it rotates
      one it accepts a new one in its place, whatever becomes of the response. */
  lemma FatesExactly(s: System, p: nat, c: nat, g: nat, d: Delivery)
    requires PcOf(s, p, c) == Some(Sending(g))
    ensures NextSystem(s, Answers(p, c, Rotates(d))).Some? <==> g in s.live
    ensures NextSystem(s, Answers(p, c, Keeps(d))).Some? <==> g in s.live
    ensures g in s.live ==>
              var rotated, kept := NextSystem(s, Answers(p, c, Rotates(d))).value,
                                   NextSystem(s, Answers(p, c, Keeps(d))).value;
              && rotated.live == s.live - {g} + {s.next} && rotated.rotated == s.rotated + {g}
              && kept.live == s.live && kept.rotated == s.rotated
              && rotated.saved == kept.saved == s.saved && rotated.holder == kept.holder == s.holder
    ensures forall fate :: fate in {NotReached, Refused} ==>
              && NextSystem(s, Answers(p, c, fate)).Some?
              && var t := NextSystem(s, Answers(p, c, fate)).value;
                 t == s.(procs := t.procs) && PcOf(t, p, c) == Some(Releasing(Some(NetworkFailed)))
  {
    hide SafeAfter;
  }

  /** The lock is one flight's at a time; a flight that holds it gets what is stored, or an error,
      and nothing else; and a login or a new process does not wait for anything but the lock. */
  lemma OutsideExactly(s: System, p: nat, c: nat, usable: bool, token: nat, result: ReloadResult)
    ensures PcOf(s, p, c).Some? && PcOf(s, p, c).value.WantLock? ==>
              (NextSystem(s, Locks(p, c)).Some? <==> s.holder.None?)
    ensures PcOf(s, p, c) == Some(Held(false)) ==>
              && NextSystem(s, Reloads(p, c, usable)).Some?
              && (NextSystem(s, Inside(p, Act(c, Reload(result)))).Some? <==> result.ReloadError?)
    ensures s.holder.None? ==>
              && NextSystem(s, Login(token)).Some?
              && NextSystem(s, Login(token)).value
                 == s.(saved := Saved(Some(token), s.next), live := s.live + {s.next}, next := s.next + 1)
    ensures s.holder.Some? ==> NextSystem(s, Login(token)).None?
    ensures NextSystem(s, Start(p)).Some? <==> p !in s.procs
  {
    hide SafeAfter;
  }

  /** A process can end at any time, and gives the lock back; ending while its token is on the way
      to the issuer, it may have had the token rotated. */
  lemma CrashExactly(s: System, p: nat)
    ensures NextSystem(s, Crash(p, false)).Some? <==> p in s.procs
    ensures NextSystem(s, Crash(p, true)).Some? <==>
              && p in s.procs && s.holder.Some? && s.holder.value.process == p
              && match PcOf(s, p, s.holder.value.caller)
                 case Some(Sending(g)) => g in s.live
                 case _ => false
    ensures forall consumed :: NextSystem(s, Crash(p, consumed)).Some? ==>
              var t := NextSystem(s, Crash(p, consumed)).value;
              && t.procs == s.procs - {p} && t.saved == s.saved
              && t.holder == (if s.holder.Some? && s.holder.value.process == p then None else s.holder)
              && (!consumed ==> t.live == s.live && t.rotated == s.rotated && t.log == s.log)
              && (consumed ==> var g := PcOf(s, p, s.holder.value.caller).value.generation;
                               t.live == s.live - {g} + {s.next} && t.rotated == s.rotated + {g})
  {
    hide Move;
  }

  // ---------------------------------------------------------------------------
  // The system goes on
  // ---------------------------------------------------------------------------

  /** The event that brings the flight under the lock nearer to its end when nothing answers. */
  function Abandon(p: nat, c: nat, pc: Pc): SysEvent {
    match pc
    case Sending(_) => Answers(p, c, NotReached)
    case Persisting(_) => Saving(p, c, CannotRead)
    case _ => Inside(p, Act(c, Abort(pc)))
  }

  lemma Abandons(s: System, p: nat, c: nat) returns (t: System)
    requires SysInv(s) && s.holder == Some(Holder(p, c))
    ensures PcOf(s, p, c).Some? && PcOf(s, p, c).value.Locked()
    ensures NextSystem(s, Abandon(p, c, PcOf(s, p, c).value)) == Some(t) && t.saved == s.saved && t.live == s.live
    ensures t.rotated == s.rotated
    ensures t.holder.None?
            || (t.holder == s.holder && PcOf(t, p, c).Some?
                && StepsLeft(PcOf(t, p, c).value) < StepsLeft(PcOf(s, p, c).value))
  {
    hide Inv, ViewOk, AtPc, SafeAfter, IssuerOk, PendingOk, HolderOk;
    assert HolderPc(s) == PcOf(s, p, c);
    hide ProcsOk;
    t := NextSystem(s, Abandon(p, c, PcOf(s, p, c).value)).value;
  }

  /** Whatever fails around it, the flight that holds the lock can give it back, with the stored
      tokens and the issuer as they were. */
  lemma {:induction false} LockIsFreed(s: System) returns (events: seq<SysEvent>)
    requires SysInv(s)
    ensures RunSystem(s, events).Some?
    ensures var t := RunSystem(s, events).value;
            t.holder.None? && t.saved == s.saved && t.live == s.live && t.rotated == s.rotated
    decreases if HolderPc(s).Some? then StepsLeft(HolderPc(s).value) + 1 else 0
  {
    hide SysInv, RunSystem, NextSystem, Stranded, Fault;
    if s.holder.None? {
      events := [];
      assert RunSystem(s, []) == Some(s) by { NothingHappens(s); }
    } else {
      var p, c := s.holder.value.process, s.holder.value.caller;
      var t := Abandons(s, p, c);
      NextSystemKeeps(s, Abandon(p, c, PcOf(s, p, c).value));
      hide PcOf, Abandon, StepsLeft;
      var more := LockIsFreed(t);
      events := Prepend(s, Abandon(p, c, PcOf(s, p, c).value), t, more);
    }
  }

  lemma NothingHappens(s: System)
    ensures RunSystem(s, []) == Some(s)
  {
  }

  /** From every reachable state in which the stored token is not stranded and the lock is free, a
      further process can refresh: it presents the stored token, and the issuer's answer is stored
      in its place. */
  lemma RefreshCompletes(s: System, p: nat, token: nat)
    requires SysInv(s) && !Stranded(s) && s.holder.None? && p !in s.procs
    ensures exists events :: RunSystem(s, events).Some?
              && var t := RunSystem(s, events).value;
                 && t.saved == Saved(Some(token), s.next) && t.holder.None?
                 && s.next in t.live && s.saved.refresh in t.rotated
                 && Exchange(p, s.saved.refresh, s.next) in t.log
  {
    var g, h := s.saved.refresh, Some(Holder(p, 1));
    var v := View(s.saved.token, Some(g), None, false, Some(0));
    var safe := if s.saved.token.Some? then {s.saved.token.value} else {};
    var started := s.(procs := s.procs[p := Process(v.(inflight := None), map[], map[], 0, safe, true)]);
    assert g in s.live && g < s.next;
    var answered := FromSend(s, p, v, safe, token);
    var s1 := Rotate(s, p, g).(saved := Saved(Some(token), s.next));
    var w := v.(token := Some(token), refresh := Some(s.next));
    var locked := FromLock(s, p, v, safe);
    FreshStart(s, p, v, safe);
    FreshInside(s, p, v, safe, Opened, Look, WantLock(false), None);
    FreshLock(s, p, v, safe);
    hide RunSystem, NextSystem, SysInv, Step, Fresh, Stranded, Rotate;
    SystemConcat(Fresh(s, p, v, safe, Held(false), h), locked, answered);
    var e4 := Prepend(Fresh(s, p, v, safe, WantLock(false), None), Locks(p, 1), Fresh(s, p, v, safe, Held(false), h),
                      locked + answered);
    var e3 := Prepend(Fresh(s, p, v, safe, Opened, None), Inside(p, Act(1, Look)),
                      Fresh(s, p, v, safe, WantLock(false), None), e4);
    var e2 := Prepend(started, Inside(p, Call(1, false, false, false)), Fresh(s, p, v, safe, Opened, None), e3);
    var e1 := Prepend(s, Start(p), started, e2);
    assert RunSystem(s, e1) == Some(Fresh(s1, p, w, safe + {token}, Returning(None), None));
    Refreshed(s, p, g, token, w, safe + {token});
  }

  lemma Refreshed(s: System, p: nat, g: nat, token: nat, w: View, safe: set<nat>)
    ensures var t := Fresh(Rotate(s, p, g).(saved := Saved(Some(token), s.next)), p, w, safe, Returning(None), None);
            && t.saved == Saved(Some(token), s.next) && t.holder.None? && s.next in t.live && g in t.rotated
            && Exchange(p, g, s.next) in t.log
  {
  }

  lemma {:induction false} SystemConcat(s: System, a: seq<SysEvent>, b: seq<SysEvent>)
    requires RunSystem(s, a).Some?
    ensures RunSystem(s, a + b) == RunSystem(RunSystem(s, a).value, b)
    decreases |a|
  {
    if a == [] {
      assert a + b == b;
    } else {
      hide NextSystem;
      assert (a + b)[1..] == a[1..] + b;
      SystemConcat(NextSystem(s, a[0]).value, a[1..], b);
    }
  }

  /** From the choice of the token to the release of the lock. */
  lemma FromSend(s: System, p: nat, v: View, safe: set<nat>, token: nat) returns (events: seq<SysEvent>)
    requires v.pending.None? && !v.blocked && s.saved.refresh in s.live && s.saved.refresh < s.next
    ensures RunSystem(Fresh(s, p, v, safe, Chosen(s.saved.refresh), Some(Holder(p, 1))), events)
         == Some(Fresh(Rotate(s, p, s.saved.refresh).(saved := Saved(Some(token), s.next)), p,
                       v.(token := Some(token), refresh := Some(s.next)), safe + {token}, Returning(None), None))
  {
    var g, h := s.saved.refresh, Some(Holder(p, 1));
    var pending := Pending(g, Some(token), s.next, false);
    var s1 := Rotate(s, p, g);
    var s2 := s1.(saved := Saved(Some(token), s.next));
    var w := v.(token := Some(token), refresh := Some(s.next));
    var a := Fresh(s, p, v, safe, Chosen(g), h);
    var b := Fresh(s, p, v, safe, Sending(g), h);
    var c := Fresh(s1, p, w.(pending := Some(pending)), safe, Persisting(pending), h);
    var d := Fresh(s2, p, w, safe + {token}, Releasing(None), h);
    var e := Fresh(s2, p, w, safe + {token}, Returning(None), None);
    FreshInside(s, p, v, safe, Chosen(g), Send, Sending(g), h);
    FreshAnswered(s, p, v, safe, token);
    FreshSaved(s1, p, w, safe, pending);
    FreshReleased(s2, p, w, safe + {token});
    assert RunSystem(e, []) == Some(e);
    hide RunSystem, NextSystem, Step, Fresh, Rotate;
    events := Prepend(d, Inside(p, Act(1, Release)), e, []);
    events := Prepend(c, Saving(p, 1, Succeeds), d, events);
    events := Prepend(b, Answers(p, 1, Rotates(Delivered(Some(token), true))), c, events);
    events := Prepend(a, Inside(p, Act(1, Send)), b, events);
  }

  lemma FreshMove(s: System, p: nat, v: View, safe: set<nat>, pc: Pc, a: Action, v': View, safe': set<nat>, pc': Pc,
                  h: Option<Holder>)
    requires Step(v, pc, a, true) == Some((v', pc')) && safe' == SafeAfter(FreshProcess(v, safe, pc), pc, a)
    ensures Move(Fresh(s, p, v, safe, pc, h), p, Act(1, a)) == Some(Fresh(s, p, v', safe', pc', h))
  {
    hide Step;
    var q := FreshProcess(v, safe, pc);
    assert q.callers[1 := Leading(0, pc')] == map[1 := Leading(0, pc')];
    assert At(q, 1) == Leading(0, pc);
    assert Next(q, Act(1, a)) == Some(FreshProcess(v', safe', pc'));
    assert s.procs[p := q][p := FreshProcess(v', safe', pc')] == s.procs[p := FreshProcess(v', safe', pc')];
  }

  lemma FreshAnswered(s: System, p: nat, v: View, safe: set<nat>, token: nat)
    requires v.pending.None? && !v.blocked && s.saved.refresh in s.live
    ensures var g, h := s.saved.refresh, Some(Holder(p, 1));
            var pending := Pending(g, Some(token), s.next, false);
            var w := v.(token := Some(token), refresh := Some(s.next), pending := Some(pending));
            NextSystem(Fresh(s, p, v, safe, Sending(g), h), Answers(p, 1, Rotates(Delivered(Some(token), true))))
            == Some(Fresh(Rotate(s, p, g), p, w, safe, Persisting(pending), h))
  {
    hide Move;
    var g, h := s.saved.refresh, Some(Holder(p, 1));
    var pending := Pending(g, Some(token), s.next, false);
    var w := v.(token := Some(token), refresh := Some(s.next), pending := Some(pending));
    var reply := Receive(Reply(Some(token), Some(s.next), true));
    FreshMove(Rotate(s, p, g), p, v, safe, Sending(g), reply, w, safe, Persisting(pending), h);
    assert Rotate(Fresh(s, p, v, safe, Sending(g), h), p, g) == Fresh(Rotate(s, p, g), p, v, safe, Sending(g), h);
    assert PcOf(Fresh(s, p, v, safe, Sending(g), h), p, 1) == Some(Sending(g));
  }

  lemma FreshSaved(s: System, p: nat, w: View, safe: set<nat>, pending: Pending)
    requires w.pending.None? && !w.blocked && pending.token.Some? && !pending.invalid
    requires s.saved.refresh == pending.previous != pending.refresh
    ensures var h := Some(Holder(p, 1));
            NextSystem(Fresh(s, p, w.(pending := Some(pending)), safe, Persisting(pending), h), Saving(p, 1, Succeeds))
            == Some(Fresh(s.(saved := Saved(pending.token, pending.refresh)), p, w, safe + {pending.token.value},
                          Releasing(None), h))
  {
    hide Move;
    var h, v := Some(Holder(p, 1)), w.(pending := Some(pending));
    var t := s.(saved := Saved(pending.token, pending.refresh));
    FreshMove(t, p, v, safe, Persisting(pending), Persist(Persisted), w, safe + {pending.token.value}, Releasing(None),
              h);
    SaveExactly(s.saved, pending, Succeeds);
    assert PcOf(Fresh(s, p, v, safe, Persisting(pending), h), p, 1) == Some(Persisting(pending));
    assert Fresh(s, p, v, safe, Persisting(pending), h).(saved := t.saved)
        == Fresh(t, p, v, safe, Persisting(pending), h);
  }

  lemma FreshReleased(s: System, p: nat, w: View, safe: set<nat>)
    ensures NextSystem(Fresh(s, p, w, safe, Releasing(None), Some(Holder(p, 1))), Inside(p, Act(1, Release)))
         == Some(Fresh(s, p, w, safe, Returning(None), None))
  {
    hide Move;
    FreshMove(s, p, w, safe, Releasing(None), Release, w, safe, Returning(None), Some(Holder(p, 1)));
  }

  lemma Prepend(s: System, e: SysEvent, t: System, rest: seq<SysEvent>) returns (events: seq<SysEvent>)
    requires NextSystem(s, e) == Some(t)
    ensures events == [e] + rest && RunSystem(s, events) == RunSystem(t, rest)
  {
    hide NextSystem;
    events := [e] + rest;
    assert events[1..] == rest;
  }

  lemma FreshStart(s: System, p: nat, v: View, safe: set<nat>)
    requires s.holder.None? && p !in s.procs && v == View(s.saved.token, Some(s.saved.refresh), None, false, Some(0))
    requires safe == if s.saved.token.Some? then {s.saved.token.value} else {}
    ensures var started := s.(procs := s.procs[p := Process(v.(inflight := None), map[], map[], 0, safe, true)]);
            && NextSystem(s, Start(p)) == Some(started)
            && NextSystem(started, Inside(p, Call(1, false, false, false))) == Some(Fresh(s, p, v, safe, Opened, None))
  {
    var q := Process(v.(inflight := None), map[], map[], 0, safe, true);
    assert q.callers[1 := Leading(0, Opened)] == map[1 := Leading(0, Opened)];
    assert Next(q, Call(1, false, false, false)) == Some(FreshProcess(v, safe, Opened));
    assert s.procs[p := q][p := FreshProcess(v, safe, Opened)] == s.procs[p := FreshProcess(v, safe, Opened)];
  }

  lemma FreshInside(s: System, p: nat, v: View, safe: set<nat>, pc: Pc, a: Action, pc': Pc, h: Option<Holder>)
    requires Step(v, pc, a, true) == Some((v, pc')) && IsInside(Act(1, a)) && a != Release
    ensures NextSystem(Fresh(s, p, v, safe, pc, h), Inside(p, Act(1, a))) == Some(Fresh(s, p, v, safe, pc', h))
  {
    hide Move;
    FreshStep(s, p, v, safe, pc, a, pc', h);
  }

  lemma FreshLock(s: System, p: nat, v: View, safe: set<nat>)
    ensures NextSystem(Fresh(s, p, v, safe, WantLock(false), None), Locks(p, 1))
         == Some(Fresh(s, p, v, safe, Held(false), Some(Holder(p, 1))))
  {
    hide Move;
    FreshStep(s, p, v, safe, WantLock(false), TakeLock(true), Held(false), None);
  }

  lemma FreshReload(s: System, p: nat, v: View, safe: set<nat>)
    requires v.token == s.saved.token && v.refresh == Some(s.saved.refresh)
    requires v.token.Some? ==> v.token.value in safe
    ensures NextSystem(Fresh(s, p, v, safe, Held(false), Some(Holder(p, 1))), Reloads(p, 1, false))
         == Some(Fresh(s, p, v, safe, Reloaded(false), Some(Holder(p, 1))))
  {
    hide Move;
    FreshStep(s, p, v, safe, Held(false), Reload(Loaded(Stored(s.saved.token, Some(s.saved.refresh)), false)),
              Reloaded(false), Some(Holder(p, 1)));
  }

  function FreshProcess(v: View, safe: set<nat>, pc: Pc): Process {
    Process(v, map[1 := Leading(0, pc)], map[], 1, safe, true)
  }

  function Fresh(s: System, p: nat, v: View, safe: set<nat>, pc: Pc, h: Option<Holder>): System {
    s.(procs := s.procs[p := FreshProcess(v, safe, pc)], holder := h)
  }

  lemma FreshStep(s: System, p: nat, v: View, safe: set<nat>, pc: Pc, a: Action, pc': Pc, h: Option<Holder>)
    requires Step(v, pc, a, true) == Some((v, pc'))
    requires a.Reload? && a.result.Loaded? && a.result.stored.token.Some? ==> a.result.stored.token.value in safe
    requires !a.Persist? && !a.Receive?
    ensures Move(Fresh(s, p, v, safe, pc, h), p, Act(1, a)) == Some(Fresh(s, p, v, safe, pc', h))
  {
    hide Step;
    assert SafeAfter(FreshProcess(v, safe, pc), pc, a) == safe;
    FreshMove(s, p, v, safe, pc, a, v, safe, pc', h);
  }
}
