/** The life of a sandbox runtime (experimental/sandbox/sandbox.go): runs and Close calls, each a
    sequence of steps that interleave in every way. */
module SandboxLifecycle {
  import opened Wrappers

  datatype Memory = Unallocated | Allocated | Freed

  /** A run: before start, registered, past the critical section of finish, counted out, or
      refused. */
  datatype RunPc = Starting | Running(memory: Memory) | Leaving(memory: Memory) | Over(memory: Memory) | Refused

  /** A Close call: before it, waiting for the runs, seen them stopped, running release, or
      returned (having given up, or not). */
  datatype ClosePc = Calling | Waiting | Stopped | Releasing | Ended(gaveUp: bool)

  datatype Once = NotRun | InProgress | Ran

  /** The fields of a runtime: `runs` is the counter of the wait group, `cancelled` the runs that
      Close has stopped, `releases` how often release has begun. */
  datatype Fields = Fields(closed: bool, runs: int, cancels: set<nat>, cancelled: set<nat>, once: Once, releases: nat)

  // ---------------------------------------------------------------------------
  // The steps on the fields
  // ---------------------------------------------------------------------------

  function StartStep(f: Fields, run: nat): (Fields, bool) {
    if f.closed then (f, false) else (f.(runs := f.runs + 1, cancels := f.cancels + {run}), true)
  }

  function UnregisterStep(f: Fields, run: nat): Fields {
    f.(cancels := f.cancels - {run})
  }

  function CloseStep(f: Fields): Fields {
    f.(closed := true, cancelled := f.cancelled + f.cancels)
  }

  class Runtime {
    var closed: bool
    var runs: int
    var cancels: set<nat>
    var cancelled: set<nat>
    var once: Once
    var releases: nat

    function View(): Fields
      reads this
    {
      Fields(closed, runs, cancels, cancelled, once, releases)
    }

    constructor ()
      ensures View() == Fields(false, 0, {}, {}, NotRun, 0)
    {
      closed, runs, cancels, cancelled, once, releases := false, 0, {}, {}, NotRun, 0;
    }

    method Start(run: nat) returns (ok: bool)
      modifies this`runs, this`cancels
      ensures (View(), ok) == StartStep(old(View()), run)
    {
      if closed {
        return false;
      }
      runs := runs + 1;
      cancels := cancels + {run};
      return true;
    }

    /** The part of finish under the mutex; counting out follows it. */
    method Unregister(run: nat)
      modifies this`cancels
      ensures View() == UnregisterStep(old(View()), run)
    {
      cancels := cancels - {run};
    }

    /** The part of Close under the mutex: every registered run is stopped. */
    method BeginClose()
      modifies this`closed, this`cancelled
      ensures View() == CloseStep(old(View()))
    {
      closed := true;
      var left := cancels;
      while left != {}
        invariant left <= cancels && closed
        invariant cancelled + left == old(cancelled) + cancels
      {
        var run :| run in left;
        cancelled := cancelled + {run};
        left := left - {run};
      }
    }
  }

  // ---------------------------------------------------------------------------
  // Interleavings
  // ---------------------------------------------------------------------------

  datatype State = State(f: Fields, runPcs: map<nat, RunPc>, closePcs: map<nat, ClosePc>)

  datatype Event = Start(run: nat)
                 | NoHome(run: nat)       // the temporary home cannot be made
                 | Allocate(run: nat)
                 | GuestEnds(run: nat)    // the instance is closed and its memory freed
                 | Unregister(run: nat)
                 | CountOut(run: nat)
                 | BeginClose(k: nat)
                 | SeeStopped(k: nat)
                 | GiveUp(k: nat)
                 | EnterOnce(k: nat)
                 | LeaveRelease(k: nat)

  function RunAt(s: State, r: nat): RunPc {
    if r in s.runPcs then s.runPcs[r] else Starting
  }

  function CloseAt(s: State, k: nat): ClosePc {
    if k in s.closePcs then s.closePcs[k] else Calling
  }

  function SetRun(s: State, r: nat, pc: RunPc): State {
    s.(runPcs := s.runPcs[r := pc])
  }

  function SetClose(s: State, k: nat, pc: ClosePc): State {
    s.(closePcs := s.closePcs[k := pc])
  }

  function Next(s: State, e: Event): Option<State> {
    match e
    case Start(r) =>
      if !RunAt(s, r).Starting? then None
      else
        var (f, ok) := StartStep(s.f, r);
        Some(SetRun(s, r, if ok then Running(Unallocated) else Refused).(f := f))
    case NoHome(r) =>
      // Deferred finish runs at once.
      if RunAt(s, r) == Running(Unallocated) then Some(SetRun(s, r, Leaving(Unallocated)).(f := UnregisterStep(s.f, r)))
      else None
    case Allocate(r) =>
      if RunAt(s, r) == Running(Unallocated) then Some(SetRun(s, r, Running(Allocated))) else None
    case GuestEnds(r) =>
      if RunAt(s, r) == Running(Allocated) then Some(SetRun(s, r, Running(Freed))) else None
    case Unregister(r) =>
      if RunAt(s, r) == Running(Freed) then Some(SetRun(s, r, Leaving(Freed)).(f := UnregisterStep(s.f, r))) else None
    case CountOut(r) =>
      if RunAt(s, r).Leaving? then
        Some(SetRun(s, r, Over(RunAt(s, r).memory)).(f := s.f.(runs := s.f.runs - 1)))
      else None
    case BeginClose(k) =>
      // A Close that has returned may be called again.
      if CloseAt(s, k).Calling? || CloseAt(s, k).Ended? then Some(SetClose(s, k, Waiting).(f := CloseStep(s.f)))
        else None
    case SeeStopped(k) =>
      if CloseAt(s, k).Waiting? && s.f.runs == 0 then Some(SetClose(s, k, Stopped)) else None
    case GiveUp(k) =>
      if CloseAt(s, k).Waiting? then Some(SetClose(s, k, Ended(true))) else None
    case EnterOnce(k) =>
      // The first caller runs release; the others wait until it has.
      if !CloseAt(s, k).Stopped? || s.f.once.InProgress? then None
      else if s.f.once.Ran? then Some(SetClose(s, k, Ended(false)))
      else Some(SetClose(s, k, Releasing).(f := s.f.(once := InProgress, releases := s.f.releases + 1)))
    case LeaveRelease(k) =>
      if CloseAt(s, k).Releasing? then Some(SetClose(s, k, Ended(false)).(f := s.f.(once := Ran))) else None
  }

  /** The runs counted in. */
  function Active(s: State): set<nat> {
    set r | r in s.runPcs && (s.runPcs[r].Running? || s.runPcs[r].Leaving?)
  }

  /** The runs between start and finish. */
  function Registered(s: State): set<nat> {
    set r | r in s.runPcs && s.runPcs[r].Running?
  }

  ghost predicate RunsOk(s: State) {
    && s.f.runs == |Active(s)| && s.f.cancels == Registered(s)
    && (s.f.closed ==> Registered(s) <= s.f.cancelled)
    && MemoryFreed(s.runPcs)
  }

  /** A run that has ended or is leaving holds no memory. */
  ghost predicate MemoryFreed(pcs: map<nat, RunPc>) {
    forall r :: r in pcs && (pcs[r].Leaving? || pcs[r].Over?) ==> !pcs[r].memory.Allocated?
  }

  lemma FreedStep(pcs: map<nat, RunPc>, r: nat, pc: RunPc)
    requires MemoryFreed(pcs) && ((pc.Leaving? || pc.Over?) ==> !pc.memory.Allocated?)
    ensures MemoryFreed(pcs[r := pc])
  {
  }

  ghost predicate ClosesOk(s: State) {
    && (forall k :: k in s.closePcs && !s.closePcs[k].Calling? ==> s.f.closed)
    && (forall k :: k in s.closePcs && (s.closePcs[k].Stopped? || s.closePcs[k].Releasing?) ==> s.f.runs == 0)
    && (!s.f.once.NotRun? ==> s.f.closed && s.f.runs == 0)
    && (s.f.once.InProgress? <==> exists k :: k in s.closePcs && s.closePcs[k].Releasing?)
    && (forall k, j :: k in s.closePcs && j in s.closePcs && s.closePcs[k].Releasing? && s.closePcs[j].Releasing? ==>
        k == j)
    && (forall k :: k in s.closePcs && s.closePcs[k] == Ended(false) ==> s.f.once.Ran?)
    && s.f.releases == (if s.f.once.NotRun? then 0 else 1)
  }

  ghost predicate Inv(s: State) {
    RunsOk(s) && ClosesOk(s)
  }

  const START := State(Fields(false, 0, {}, {}, NotRun, 0), map[], map[])

  lemma ActiveStep(s: State, t: State, r: nat)
    requires t.runPcs == s.runPcs[r := RunAt(t, r)]
    ensures Active(t) == if RunAt(t, r).Running? || RunAt(t, r).Leaving? then Active(s) + {r} else Active(s) - {r}
    ensures Registered(t) == if RunAt(t, r).Running? then Registered(s) + {r} else Registered(s) - {r}
  {
  }

  lemma StartRuns(s: State, t: State, r: nat)
    requires RunsOk(s) && RunAt(s, r).Starting?
    requires t.runPcs == s.runPcs[r := if s.f.closed then Refused else Running(Unallocated)]
    requires t.f == if s.f.closed then s.f else s.f.(runs := s.f.runs + 1, cancels := s.f.cancels + {r})
    ensures RunsOk(t)
  {
    ActiveStep(s, t, r);
    Member(s, r);
    FreedStep(s.runPcs, r, RunAt(t, r));
    hide Active, Registered, MemoryFreed;
    if s.f.closed {
      assert Active(s) - {r} == Active(s) && Registered(s) - {r} == Registered(s);
    } else {
      OneMore(Active(s), r);
    }
  }

  lemma OneMore(a: set<nat>, r: nat)
    requires r !in a
    ensures |a + {r}| == |a| + 1
  {
  }

  lemma ProceedRuns(s: State, e: Event)
    requires RunsOk(s) && Next(s, e).Some? && (e.NoHome? || e.Allocate? || e.GuestEnds? || e.Unregister?)
    ensures RunsOk(Next(s, e).value)
  {
    var t := Next(s, e).value;
    ActiveStep(s, t, e.run);
    Member(s, e.run);
    assert RunAt(s, e.run).Running?;
    FreedStep(s.runPcs, e.run, RunAt(t, e.run));
    hide Active, Registered, MemoryFreed;
    assert Active(s) + {e.run} == Active(s) && Registered(s) + {e.run} == Registered(s);
  }

  lemma CountOutRuns(s: State, r: nat)
    requires RunsOk(s) && Next(s, CountOut(r)).Some?
    ensures RunsOk(Next(s, CountOut(r)).value) && s.f.runs > 0
  {
    var t := Next(s, CountOut(r)).value;
    ActiveStep(s, t, r);
    Member(s, r);
    FreedStep(s.runPcs, r, RunAt(t, r));
    hide Active, Registered, MemoryFreed;
    assert Registered(s) - {r} == Registered(s);
  }

  lemma RunStepKeeps(s: State, e: Event)
    requires Inv(s) && Next(s, e).Some?
    requires e.Start? || e.NoHome? || e.Allocate? || e.GuestEnds? || e.Unregister? || e.CountOut?
    ensures Inv(Next(s, e).value)
  {
    match e {
      case Start(r) => StartRuns(s, Next(s, e).value, r);
      case CountOut(r) => CountOutRuns(s, r);
      case _ => ProceedRuns(s, e);
    }
    assert Next(s, e).value.f.runs >= 0 by { CountIsNat(Next(s, e).value); }
    hide RunsOk, Active, Registered;
  }

  lemma CountIsNat(s: State)
    requires RunsOk(s)
    ensures s.f.runs >= 0
  {
  }

  lemma Member(s: State, r: nat)
    ensures r in Active(s) <==> RunAt(s, r).Running? || RunAt(s, r).Leaving?
    ensures r in Registered(s) <==> RunAt(s, r).Running?
  {
  }

  lemma CloseStepKeeps(s: State, e: Event)
    requires Inv(s) && Next(s, e).Some?
    requires e.BeginClose? || e.SeeStopped? || e.GiveUp? || e.EnterOnce? || e.LeaveRelease?
    ensures Inv(Next(s, e).value)
  {
    var t := Next(s, e).value;
    assert RunsOk(t) by {
      assert Active(t) == Active(s) && Registered(t) == Registered(s);
      hide Active, Registered;
    }
    hide RunsOk;
    if s.f.once.InProgress? && !e.LeaveRelease? {
      var k :| k in s.closePcs && s.closePcs[k].Releasing?;
      assert k in t.closePcs && t.closePcs[k].Releasing?;
    }
    if e.EnterOnce? {
      assert e.k in t.closePcs;
    }
  }

  lemma NextKeeps(s: State, e: Event)
    requires Inv(s) && Next(s, e).Some?
    ensures Inv(Next(s, e).value)
    ensures s.f.closed ==> Next(s, e).value.f.closed && Registered(Next(s, e).value) <= Registered(s)
  {
    hide Inv;
    match e
    case BeginClose(_) => CloseStepKeeps(s, e);
    case SeeStopped(_) => CloseStepKeeps(s, e);
    case GiveUp(_) => CloseStepKeeps(s, e);
    case EnterOnce(_) => CloseStepKeeps(s, e);
    case LeaveRelease(_) => CloseStepKeeps(s, e);
    case _ =>
      RunStepKeeps(s, e);
      ActiveStep(s, Next(s, e).value, e.run);
  }

  function Run(s: State, events: seq<Event>): Option<State>
    decreases |events|
  {
    if events == [] then Some(s)
    else match Next(s, events[0])
      case None => None
      case Some(t) => Run(t, events[1..])
  }

  lemma {:induction false} RunKeeps(s: State, events: seq<Event>)
    requires Inv(s) && Run(s, events).Some?
    ensures Inv(Run(s, events).value)
    ensures s.f.closed ==> Run(s, events).value.f.closed && Registered(Run(s, events).value) <= Registered(s)
    decreases |events|
  {
    hide Inv, Next, Registered;
    if events != [] {
      NextKeeps(s, events[0]);
      RunKeeps(Next(s, events[0]).value, events[1..]);
    }
  }

  /** Over every interleaving of runs and Close calls: release begins at most once, and once it
      has, no run is in flight and none holds memory; a Close that returns without giving up
      leaves the runtime released. */
  lemma ReleasedOnceAndAlone(events: seq<Event>)
    requires Run(START, events).Some?
    ensures var s := Run(START, events).value;
            && s.f.releases <= 1
            && (s.f.releases == 1 ==> forall r :: r in s.runPcs ==>
                  !s.runPcs[r].Running? && !s.runPcs[r].Leaving?
                    && (s.runPcs[r].Over? ==> !s.runPcs[r].memory.Allocated?))
            && (forall k :: k in s.closePcs && s.closePcs[k] == Ended(false) ==> s.f.once.Ran? && s.f.releases == 1)
  {
    StartInv();
    RunKeeps(START, events);
    var s := Run(START, events).value;
    hide Run;
    if s.f.releases == 1 {
      assert Active(s) == {};
      forall r | r in s.runPcs ensures !s.runPcs[r].Running? && !s.runPcs[r].Leaving? {
        assert r !in Active(s);
      }
    }
  }

  lemma StartInv()
    ensures Inv(START)
  {
    assert Active(START) == {} && Registered(START) == {};
  }

  /** Once a Close has begun, no run is registered any more, and every run that was registered
      then has been stopped. */
  lemma CloseStopsRuns(events: seq<Event>, k: nat, more: seq<Event>)
    requires Run(START, events).Some? && Next(Run(START, events).value, BeginClose(k)).Some?
    requires Run(Next(Run(START, events).value, BeginClose(k)).value, more).Some?
    ensures var s := Run(START, events).value;
            var t := Run(Next(s, BeginClose(k)).value, more).value;
            && Registered(s) <= Next(s, BeginClose(k)).value.f.cancelled
            && Registered(t) <= Registered(s) && t.f.closed && Registered(t) <= t.f.cancelled
            && forall r :: RunAt(t, r).Starting? ==> RunAt(Next(t, Start(r)).value, r).Refused?
  {
    StartInv();
    RunKeeps(START, events);
    var s := Run(START, events).value;
    NextKeeps(s, BeginClose(k));
    var u := Next(s, BeginClose(k)).value;
    assert Registered(u) == Registered(s);
    RunKeeps(u, more);
  }

  /** A run frees its memory before it is counted out, and the wait group never goes below zero. */
  lemma FreedBeforeCountedOut(events: seq<Event>, r: nat)
    requires Run(START, events).Some? && Next(Run(START, events).value, CountOut(r)).Some?
    ensures var s := Run(START, events).value;
            !RunAt(s, r).memory.Allocated? && s.f.runs > 0 && s.f.once.NotRun?
  {
    StartInv();
    RunKeeps(START, events);
    var s := Run(START, events).value;
    assert r in Active(s);
  }

  // ---------------------------------------------------------------------------
  // Runs and Close calls come to an end
  // ---------------------------------------------------------------------------

  lemma {:induction false} RunConcat(s: State, a: seq<Event>, b: seq<Event>)
    requires Run(s, a).Some?
    ensures Run(s, a + b) == Run(Run(s, a).value, b)
    decreases |a|
  {
    if a == [] {
      assert a + b == b;
    } else {
      hide Next;
      assert (a + b)[1..] == a[1..] + b;
      RunConcat(Next(s, a[0]).value, a[1..], b);
    }
  }

  lemma Prepend(s: State, e: Event, t: State, rest: seq<Event>) returns (events: seq<Event>)
    requires Next(s, e) == Some(t)
    ensures events == [e] + rest && Run(s, events) == Run(t, rest)
  {
    hide Next;
    events := [e] + rest;
    assert events[1..] == rest;
  }

  /** The next step of a run in progress; `home` says whether its temporary home could be made. */
  function Onwards(pc: RunPc, r: nat, home: bool): Event {
    match pc
    case Running(Unallocated) => if home then Allocate(r) else NoHome(r)
    case Running(Allocated) => GuestEnds(r)
    case Running(Freed) => Unregister(r)
    case _ => CountOut(r)
  }

  /** A run in progress can always end, whatever the other runs and the Close calls do meanwhile:
      it is counted out, and takes nothing else along. */
  lemma {:induction false} RunCanEnd(s: State, r: nat, home: bool) returns (events: seq<Event>)
    requires RunAt(s, r).Running? || RunAt(s, r).Leaving?
    ensures Run(s, events).Some?
    ensures var t := Run(s, events).value;
            && RunAt(t, r).Over? && t.runPcs == s.runPcs[r := RunAt(t, r)] && t.closePcs == s.closePcs
            && t.f == s.f.(runs := s.f.runs - 1,
                           cancels := if RunAt(s, r).Running? then s.f.cancels - {r} else s.f.cancels)
    decreases match RunAt(s, r)
              case Running(Unallocated) => 4
              case Running(Allocated) => 3
              case Running(Freed) => 2
              case Leaving(_) => 1
              case _ => 0
  {
    var e := Onwards(RunAt(s, r), r, home);
    var t := Next(s, e).value;
    if RunAt(t, r).Over? {
      events := Prepend(s, e, t, []);
      assert Run(t, []) == Some(t);
    } else {
      var more := RunCanEnd(t, r, home);
      events := Prepend(s, e, t, more);
      hide Next;
    }
  }

  /** Only a Close that waits gives up. */
  lemma GivingUp(s: State, k: nat)
    ensures Next(s, GiveUp(k)) == if CloseAt(s, k).Waiting? then Some(SetClose(s, k, Ended(true))) else None
  {
  }

  function Rank(pc: ClosePc): nat {
    match pc
    case Calling => 4
    case Ended(gaveUp) => if gaveUp then 4 else 0
    case Waiting => 3
    case Stopped => 2
    case Releasing => 1
  }

  /** From every reachable state every Close call, also one that has given up before, can come to
      its end without giving up: the runs in flight end, and the runtime is released. */
  lemma {:induction false} CloseCanFinish(s: State, k: nat) returns (events: seq<Event>)
    requires Inv(s)
    ensures Run(s, events).Some?
    ensures var t := Run(s, events).value;
            CloseAt(t, k) == Ended(false) && Active(t) == {} && t.f.closed && t.f.once.Ran? && t.f.releases == 1
    decreases Rank(CloseAt(s, k)), |Active(s)|, if s.f.once.InProgress? then 1 else 0
  {
    if CloseAt(s, k) == Ended(false) {
      events := [];
      NothingActive(s);
    } else if CloseAt(s, k).Waiting? && Active(s) != {} {
      var r :| r in Active(s);
      var ending := RunCanEnd(s, r, true);
      var t := Run(s, ending).value;
      RunKeeps(s, ending);
      ActiveStep(s, t, r);
      assert |Active(t)| < |Active(s)|;
      var more := CloseCanFinish(t, k);
      RunConcat(s, ending, more);
      events := ending + more;
    } else {
      var e := CloseEvent(s, k);
      var t := Next(s, e).value;
      NextKeeps(s, e);
      assert Active(t) == Active(s);
      var more := CloseCanFinish(t, k);
      hide Inv, Next, Run, Active;
      events := Prepend(s, e, t, more);
    }
  }

  lemma NothingActive(s: State)
    requires Inv(s) && s.f.runs == 0
    ensures Active(s) == {}
  {
  }

  /** The step that brings a Close nearer to its end when no run is in its way. */
  lemma CloseEvent(s: State, k: nat) returns (e: Event)
    requires Inv(s) && CloseAt(s, k) != Ended(false) && (CloseAt(s, k).Waiting? ==> Active(s) == {})
    ensures Next(s, e).Some?
    ensures var t := Next(s, e).value;
            && t.runPcs == s.runPcs
            && (Rank(CloseAt(t, k)) < Rank(CloseAt(s, k))
                || (CloseAt(t, k) == CloseAt(s, k) && s.f.once.InProgress? && !t.f.once.InProgress?))
  {
    match CloseAt(s, k) {
      case Waiting => e := SeeStopped(k);
      case Releasing => e := LeaveRelease(k);
      case Stopped =>
        if s.f.once.InProgress? {
          var j :| j in s.closePcs && s.closePcs[j].Releasing?;
          e := LeaveRelease(j);
        } else {
          e := EnterOnce(k);
        }
      case _ => e := BeginClose(k);
    }
  }

  // ---------------------------------------------------------------------------
  // Copied output
  // ---------------------------------------------------------------------------

  const COPY_SIZE: nat := 32768

  /** A destination that may take less than it is given. */
  class Sink {
    var written: seq<bv8>

    constructor ()
      ensures written == []
    {
      written := [];
    }

    method Write(p: seq<bv8>) returns (n: nat, failed: bool)
      modifies this
      ensures n <= |p| && written == old(written) + p[..n]
    {
      n, failed := *, *;
      if n > |p| {
        n := |p|;
      }
      written := written + p[..n];
    }
  }

  datatype WriteError = NoError | SinkError | ShortWrite

  /** copyWriter.Write: in pieces of at most 32 KiB. What was written is exactly the part of the
      input the result counts, and without an error that is all of it. */
  method CopyWrite(sink: Sink, p: seq<bv8>) returns (written: nat, e: WriteError)
    modifies sink
    ensures written <= |p| && sink.written == old(sink.written) + p[..written]
    ensures e.NoError? ==> written == |p|
    ensures e.ShortWrite? ==> written < |p|
  {
    written := 0;
    var size := if |p| < COPY_SIZE then |p| else COPY_SIZE;
    while written < |p|
      invariant written <= |p| && sink.written == old(sink.written) + p[..written]
      decreases |p| - written
    {
      var n := if |p| - written < size then |p| - written else size;
      var buffer := p[written..written + n];
      var m, failed := sink.Write(buffer);
      assert p[..written] + buffer[..m] == p[..written + m];
      written := written + m;
      if failed {
        return written, SinkError;
      }
      if m < n {
        return written, ShortWrite;
      }
    }
    e := NoError;
  }
}
