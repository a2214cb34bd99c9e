/** The locks of layered loads and of writes (internal/config/layered_lock.go, options.go). */
module LayeredLocks {
  import opened Wrappers
  import opened SortedStrings

  /** A config source; the lookup of its canonical identity can fail. */
  datatype Source = Source(path: string, identity: Option<string>)

  datatype LockError = IdentityUnknown | SourceChanged | NotAcquired | ContextDone

  /** The lock files, and which process holds each. */
  class LockTable {
    var holder: map<string, nat>

    constructor ()
      ensures holder == map[]
    {
      holder := map[];
    }

    function HeldBy(p: nat): set<string>
      reads this
    {
      set l | l in holder && holder[l] == p
    }

    /** TryLockContext: may give up. */
    method TryLock(l: string, p: nat) returns (ok: bool)
      modifies this
      ensures ok ==> l !in old(holder) && holder == old(holder)[l := p]
      ensures !ok ==> holder == old(holder)
    {
      ok := *;
      ok := ok && l !in holder;
      if ok {
        holder := holder[l := p];
      }
    }

    /** The release closure: the acquired locks in reverse. */
    method ReleaseAll(acquired: seq<string>, p: nat)
      requires forall l :: l in acquired ==> l in holder && holder[l] == p
      modifies this
      ensures holder == old(holder) - (set l | l in acquired)
    {
      var i := |acquired|;
      while i > 0
        invariant 0 <= i <= |acquired|
        invariant holder == old(holder) - (set l | l in acquired[i..])
      {
        i := i - 1;
        assert acquired[i..] == [acquired[i]] + acquired[i + 1..];
        holder := holder - {acquired[i]};
      }
      assert acquired[0..] == acquired;
    }

    /** lockLayeredSources: every canonical source once, in one order. A failure leaves no lock
        behind; under a caller's own lock nothing is taken, and every source is that lock's. */
    method LockLayeredSources(p: nat, sources: seq<Source>, heldFor: string) returns (r: Result<seq<string>, LockError>)
      requires HeldBy(p) == if heldFor == "" then {} else {heldFor}
      modifies this
      ensures r.Err? ==> holder == old(holder)
      ensures r.Ok? && heldFor != "" ==>
                r.value == [] && holder == old(holder) && forall s :: s in sources ==> s.identity == Some(heldFor)
      ensures r.Ok? && heldFor == "" ==>
                && Increasing(r.value)
                && Members(r.value) == (set s | s in sources && s.identity.Some? :: s.identity.value)
                && (forall s :: s in sources ==> s.identity.Some?)
                && HeldBy(p) == Members(r.value)
                && (forall l :: l in holder && l !in r.value ==> l in old(holder) && holder[l] == old(holder)[l])
                && (forall l :: l in old(holder) ==> l in holder && holder[l] == old(holder)[l])
    {
      var ordered: seq<string> := [];
      for i := 0 to |sources|
        invariant forall j :: 0 <= j < i ==> sources[j].identity.Some?
        invariant heldFor != "" ==> forall j :: 0 <= j < i ==> sources[j].identity == Some(heldFor)
        invariant Members(ordered) == (set j | 0 <= j < i && sources[j].identity.Some? :: sources[j].identity.value)
      {
        if sources[i].identity.None? {
          return Err(IdentityUnknown);
        }
        if heldFor != "" && sources[i].identity.value != heldFor {
          return Err(SourceChanged);
        }
        ghost var was := ordered;
        ordered := ordered + [sources[i].identity.value];
        assert Members(ordered) == Members(was) + {sources[i].identity.value};
      }
      if heldFor != "" {
        return Ok([]);
      }
      CanonicalSorted(ordered);
      assert Members(ordered) == (set s | s in sources && s.identity.Some? :: s.identity.value);
      r := AcquireAll(p, Canonical(ordered));
    }

    method AcquireAll(p: nat, wanted: seq<string>) returns (r: Result<seq<string>, LockError>)
      requires HeldBy(p) == {} && Increasing(wanted)
      modifies this
      ensures r.Err? ==> holder == old(holder)
      ensures r.Ok? ==>
                && r.value == wanted && HeldBy(p) == Members(wanted)
                && (forall l :: (l in holder && holder[l] == p) <==> l in wanted)
                && (forall l :: l in holder && l !in wanted ==> l in old(holder) && holder[l] == old(holder)[l])
                && (forall l :: l in old(holder) ==> l in holder && holder[l] == old(holder)[l])
    {
      assert wanted[..0] == [];
      for i := 0 to |wanted|
        invariant forall l :: l in holder <==> l in old(holder) || l in wanted[..i]
        invariant forall l :: l in wanted[..i] ==> l !in old(holder) && holder[l] == p
        invariant forall l :: l in old(holder) ==> holder[l] == old(holder)[l]
      {
        var ok := TryLock(wanted[i], p);
        if !ok {
          Released(old(holder), holder, wanted[..i], p);
          ReleaseAll(wanted[..i], p);
          return Err(NotAcquired);
        }
        assert wanted[..i + 1] == wanted[..i] + [wanted[i]];
      }
      assert wanted[..|wanted|] == wanted;
      var done := *;
      if done {
        Released(old(holder), holder, wanted, p);
        ReleaseAll(wanted, p);
        return Err(ContextDone);
      }
      assert forall l :: l in old(holder) ==> old(holder)[l] != p by {
        assert forall l :: l in old(holder) && old(holder)[l] == p ==> l in old(HeldBy(p));
      }
      r := Ok(wanted);
    }

    lemma Released(before: map<string, nat>, now: map<string, nat>, acquired: seq<string>, p: nat)
      requires forall l :: l in now <==> l in before || l in acquired
      requires forall l :: l in acquired ==> l !in before && now[l] == p
      requires forall l :: l in before ==> now[l] == before[l]
      ensures now - (set l | l in acquired) == before
    {
    }

    /** writeLockCovers and the acquisition in writeConfig: a write goes ahead only while its own
        source is locked for this process. */
    method LockForWrite(p: nat, source: string, heldFor: string) returns (ok: bool, took: bool)
      requires heldFor != "" ==> heldFor in HeldBy(p)
      requires source != ""
      modifies this
      ensures ok ==> source in holder && holder[source] == p
      ensures ok ==> if took then heldFor == "" && source !in old(holder) && holder == old(holder)[source := p]
                     else heldFor == source && holder == old(holder)
      ensures !ok ==> holder == old(holder) && !took
      ensures heldFor != "" && heldFor != source ==> !ok
      ensures heldFor == source ==> ok && !took
    {
      if heldFor == source {
        return true, false;
      }
      if heldFor != "" {
        return false, false;
      }
      ok := TryLock(source, p);
      took := ok;
    }
  }

  // ---------------------------------------------------------------------------
  // Many processes
  // ---------------------------------------------------------------------------

  datatype Phase = Acquiring | Holding | Releasing

  /** An operation under way: it holds the first `got` of the locks it wants. */
  datatype Process = Process(wanted: seq<string>, got: nat, phase: Phase)

  type State = map<nat, Process>

  datatype Event = Begin(p: nat, identities: seq<string>) | Take(p: nat) | Fail(p: nat) | Finish(p: nat)
                 | Release(p: nat)

  function Held(s: State, p: nat): seq<string> {
    if p in s && s[p].got <= |s[p].wanted| then s[p].wanted[..s[p].got] else []
  }

  predicate Free(s: State, l: string) {
    forall q :: q in s ==> l !in Held(s, q)
  }

  /** A load locks all its sources; a write is a load of one. Failing at any point starts the
      release, as finishing does. */
  function Next(s: State, e: Event): Option<State> {
    match e
    case Begin(p, identities) =>
      if p in s then None else Some(s[p := Process(Canonical(identities), 0, Acquiring)])
    case Take(p) =>
      if p !in s || !s[p].phase.Acquiring? then None
      else if s[p].got >= |s[p].wanted| then Some(s[p := s[p].(phase := Holding)])
      else if Free(s, s[p].wanted[s[p].got]) then Some(s[p := s[p].(got := s[p].got + 1)])
      else None
    case Fail(p) =>
      if p in s && s[p].phase.Acquiring? then Some(s[p := s[p].(phase := Releasing)]) else None
    case Finish(p) =>
      if p in s && s[p].phase.Holding? then Some(s[p := s[p].(phase := Releasing)]) else None
    case Release(p) =>
      if p !in s || !s[p].phase.Releasing? then None
      else if s[p].got == 0 then Some(s - {p})
      else Some(s[p := s[p].(got := s[p].got - 1)])
  }

  /** A process begins with each of its locks once, in order. It takes its next lock when nobody
      holds it, may fail while it still takes locks, and gives them back one by one once it has
      failed or is done. */
  lemma TurnsExactly(s: State, p: nat, identities: seq<string>)
    ensures Next(s, Begin(p, identities)).Some? <==> p !in s
    ensures p !in s ==>
              && p in Next(s, Begin(p, identities)).value
              && var begun := Next(s, Begin(p, identities)).value[p];
                 && begun.got == 0 && begun.phase.Acquiring? && Increasing(begun.wanted)
                 && Members(begun.wanted) == Members(identities)
                 && Next(s, Begin(p, identities)).value == s[p := begun]
    ensures Next(s, Take(p)).Some? <==>
            && p in s && s[p].phase.Acquiring?
            && (s[p].got < |s[p].wanted| ==> forall q :: q in s ==> s[p].wanted[s[p].got] !in Held(s, q))
    ensures Next(s, Take(p)).Some? ==>
              Next(s, Take(p)).value == s[p := if s[p].got < |s[p].wanted| then s[p].(got := s[p].got + 1)
                                              else s[p].(phase := Holding)]
    ensures Next(s, Fail(p)).Some? <==> p in s && s[p].phase.Acquiring?
    ensures Next(s, Finish(p)).Some? <==> p in s && s[p].phase.Holding?
    ensures forall e :: e in {Fail(p), Finish(p)} && Next(s, e).Some? ==>
              Next(s, e).value == s[p := s[p].(phase := Releasing)]
    ensures Next(s, Release(p)).Some? <==> p in s && s[p].phase.Releasing?
    ensures Next(s, Release(p)).Some? ==>
              Next(s, Release(p)).value == if s[p].got == 0 then s - {p} else s[p := s[p].(got := s[p].got - 1)]
  {
    CanonicalSorted(identities);
  }

  ghost predicate Inv(s: State) {
    && (forall p :: p in s ==> Increasing(s[p].wanted) && s[p].got <= |s[p].wanted|)
    && (forall p, q, l :: p in s && q in s && l in Held(s, p) && l in Held(s, q) ==> p == q)
  }

  lemma OneProcessMoves(s: State, t: State, p: nat)
    requires Inv(s) && p in t && (forall q :: q != p ==> (q in t <==> q in s) && (q in s ==> t[q] == s[q]))
    requires Increasing(t[p].wanted) && t[p].got <= |t[p].wanted|
    requires forall l :: l in Held(t, p) ==> l in Held(s, p) || Free(s, l)
    ensures Inv(t)
  {
    hide Increasing;
    forall q | q in t && q != p ensures q in s && Held(t, q) == Held(s, q) {
    }
    assert forall q, l :: q in t && q != p && l in Held(t, q) ==> l !in Held(t, p);
  }

  lemma NextKeeps(s: State, e: Event)
    requires Inv(s) && Next(s, e).Some?
    ensures Inv(Next(s, e).value)
  {
    var t := Next(s, e).value;
    hide Increasing, Inv;
    if e.p !in t {
      FewerProcesses(s, e.p);
      return;
    }
    Parts(s, e.p);
    if e.Begin? {
      CanonicalSorted(e.identities);
    } else if e.Take? && s[e.p].got < |s[e.p].wanted| {
      assert Held(t, e.p) == Held(s, e.p) + [s[e.p].wanted[s[e.p].got]];
    } else if e.Release? {
      assert Held(s, e.p) == Held(t, e.p) + [s[e.p].wanted[s[e.p].got - 1]];
    }
    OneProcessMoves(s, t, e.p);
  }

  lemma Parts(s: State, p: nat)
    requires Inv(s)
    ensures p in s ==> Increasing(s[p].wanted) && s[p].got <= |s[p].wanted|
  {
  }

  lemma FewerProcesses(s: State, p: nat)
    requires Inv(s)
    ensures Inv(s - {p})
  {
    hide Increasing;
    var t := s - {p};
    forall q | q in t ensures q in s && Held(t, q) == Held(s, q) {
    }
  }

  function Run(s: State, events: seq<Event>): Option<State>
    decreases |events|
  {
    if events == [] then Some(s)
    else match Next(s, events[0])
      case None => None
      case Some(t) => Run(t, events[1..])
  }

  lemma {:induction false} RunKeeps(s: State, events: seq<Event>)
    requires Inv(s) && Run(s, events).Some?
    ensures Inv(Run(s, events).value)
    decreases |events|
  {
    hide Inv, Next;
    if events != [] {
      NextKeeps(s, events[0]);
      RunKeeps(Next(s, events[0]).value, events[1..]);
    }
  }

  predicate Waiting(s: State, p: nat) {
    p in s && s[p].phase.Acquiring? && s[p].got < |s[p].wanted|
  }

  /** The lock a waiting process wants next. */
  function NextLock(s: State, p: nat): string {
    if Waiting(s, p) then s[p].wanted[s[p].got] else ""
  }

  /** p waits for a lock that q holds. */
  predicate WaitsFor(s: State, p: nat, q: nat) {
    Waiting(s, p) && q in s && NextLock(s, p) in Held(s, q)
  }

  lemma WaitsUpwards(s: State, p: nat, q: nat)
    requires Inv(s) && WaitsFor(s, p, q) && Waiting(s, q)
    ensures Less(NextLock(s, p), NextLock(s, q))
  {
    var i :| 0 <= i < s[q].got && s[q].wanted[i] == NextLock(s, p);
  }

  lemma {:induction false} ChainClimbs(s: State, chain: seq<nat>)
    requires Inv(s) && |chain| >= 2 && Waiting(s, chain[|chain| - 1])
    requires forall i :: 0 <= i < |chain| - 1 ==> WaitsFor(s, chain[i], chain[i + 1])
    ensures Less(NextLock(s, chain[0]), NextLock(s, chain[|chain| - 1]))
    decreases |chain|
  {
    assert WaitsFor(s, chain[0], chain[1]);
    hide Inv, NextLock, Less;
    if |chain| == 2 {
      WaitsUpwards(s, chain[0], chain[1]);
    } else {
      assert WaitsFor(s, chain[1], chain[2]);
      WaitsUpwards(s, chain[0], chain[1]);
      ChainClimbs(s, chain[1..]);
      LessTransitive(NextLock(s, chain[0]), NextLock(s, chain[1]), NextLock(s, chain[|chain| - 1]));
    }
  }

  /** Over any set of processes, each holds a prefix of its sorted, duplicate-free locks, no lock
      is held twice, and no chain of processes waiting for each other closes. */
  lemma NoWaitCycle(events: seq<Event>, chain: seq<nat>)
    requires Run(map[], events).Some? && |chain| >= 2
    requires forall i :: 0 <= i < |chain| - 1 ==> WaitsFor(Run(map[], events).value, chain[i], chain[i + 1])
    ensures Inv(Run(map[], events).value)
    ensures chain[0] != chain[|chain| - 1]
  {
    RunKeeps(map[], events);
    var s := Run(map[], events).value;
    hide Run;
    assert WaitsFor(s, chain[0], chain[1]);
    if chain[0] == chain[|chain| - 1] {
      ChainClimbs(s, chain);
      LessTotal(NextLock(s, chain[0]), NextLock(s, chain[0]));
    }
  }

  /** So some process can always go on: take its next lock, or it is past acquiring. */
  lemma NoDeadlock(events: seq<Event>, p: nat)
    requires Run(map[], events).Some? && p in Run(map[], events).value
    ensures var s := Run(map[], events).value;
            exists q :: q in s && (Next(s, Take(q)).Some? || !s[q].phase.Acquiring?)
  {
    RunKeeps(map[], events);
    var q := Climb(Run(map[], events).value, p, {});
  }

  lemma Climb(s: State, p: nat, below: set<nat>) returns (q: nat)
    requires Inv(s) && p in s && p !in below && below <= s.Keys
    requires forall b :: b in below ==> Waiting(s, p) ==> Less(NextLock(s, b), NextLock(s, p))
    ensures q in s && (Next(s, Take(q)).Some? || !s[q].phase.Acquiring?)
    decreases s.Keys - below
  {
    hide Increasing, Less;
    if !Waiting(s, p) || Free(s, NextLock(s, p)) {
      return p;
    }
    var r :| r in s && NextLock(s, p) in Held(s, r);
    if !Waiting(s, r) {
      return r;
    }
    WaitsUpwards(s, p, r);
    forall b | b in below + {p} ensures Less(NextLock(s, b), NextLock(s, r)) && b != r {
      if b != p {
        LessTransitive(NextLock(s, b), NextLock(s, p), NextLock(s, r));
      }
      LessTotal(NextLock(s, r), NextLock(s, r));
    }
    q := Climb(s, r, below + {p});
  }

  /** How often p has given a lock back. */
  function Releases(events: seq<Event>, p: nat): nat {
    if events == [] then 0
    else Releases(events[..|events| - 1], p) + if events[|events| - 1] == Release(p) then 1 else 0
  }

  /** The operation of p has ended at some point of the run. */
  ghost predicate Gone(s: State, events: seq<Event>, p: nat) {
    exists i :: 0 <= i <= |events| && Run(s, events[..i]).Some? && p !in Run(s, events[..i]).value
  }

  lemma {:induction false} RunSplits(s: State, events: seq<Event>, e: Event)
    requires Run(s, events + [e]).Some?
    ensures Run(s, events).Some? && Run(s, events + [e]) == Next(Run(s, events).value, e)
    decreases |events|
  {
    if events == [] {
      assert events + [e] == [e] && [e][1..] == [];
    } else {
      assert (events + [e])[1..] == events[1..] + [e];
      RunSplits(Next(s, events[0]).value, events[1..], e);
    }
  }

  /** After failing or finishing a process only gives locks back, whatever the others do: until it
      is gone it holds the first of the locks it held, one fewer for each step it has taken, and
      can always take the next step. */
  lemma {:induction false} FailureReleases(s: State, events: seq<Event>, p: nat)
    requires p in s && s[p].phase.Releasing? && Run(s, events).Some?
    ensures || Gone(s, events, p)
            || var t := Run(s, events).value;
               && p in t && t[p].wanted == s[p].wanted && t[p].phase.Releasing?
               && t[p].got + Releases(events, p) == s[p].got && Next(t, Release(p)).Some?
    decreases |events|
  {
    if events == [] {
      return;
    }
    var n := |events| - 1;
    var init, e := events[..n], events[n];
    assert events == init + [e];
    RunSplits(s, init, e);
    FailureReleases(s, init, p);
    hide Run;
    if Gone(s, init, p) {
      var i :| 0 <= i <= |init| && Run(s, init[..i]).Some? && p !in Run(s, init[..i]).value;
      assert events[..i] == init[..i];
    } else if p !in Run(s, events).value {
      assert events[..n + 1] == events;
    }
  }

  /** Taking its steps, such a process ends up without any lock. */
  lemma {:induction false} ReleasesAll(s: State, p: nat)
    requires p in s && s[p].phase.Releasing?
    ensures Run(s, seq(s[p].got + 1, _ => Release(p))) == Some(s - {p})
    decreases s[p].got
  {
    var events := seq(s[p].got + 1, _ => Release(p));
    var t := Next(s, Release(p)).value;
    if s[p].got == 0 {
      assert events[1..] == [] && Run(t, []) == Some(t);
    } else {
      assert events[1..] == seq(t[p].got + 1, _ => Release(p));
      ReleasesAll(t, p);
      assert t - {p} == s - {p};
    }
  }
}
