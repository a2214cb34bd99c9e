/** A response body on its way to the guest (experimental/sandbox/http.go): the pump goroutine,
    the one-slot channel, the unread rest of a chunk, and the guest's reads. */
module BodyStream {
  import opened Wrappers

  type Bytes = seq<bv8>

  const CHUNK: nat := 32768

  datatype ReadEnd = More | Eof | Failed

  datatype PumpPc = Reading | Offering(chunk: Bytes, end: ReadEnd) | Closing | Finished

  /** What readBody works on. */
  datatype Channel = Channel(slot: Option<Bytes>, closed: bool, err: bool, unread: Bytes)

  function Min(a: nat, b: nat): nat {
    if a < b then a else b
  }

  /** readBody: the bytes handed over and the guest's result. */
  function ReadBody(c: Channel, capacity: nat): (Channel, Bytes, int) {
    if c.unread == [] && c.slot.None? then
      (c, [], if !c.closed then 0 else if c.err then -2 else -1)
    else
      var unread := if c.unread == [] then c.slot.value else c.unread;
      var slot := if c.unread == [] then None else c.slot;
      var n: int := Min(capacity, |unread|);
      (c.(slot := slot, unread := unread[n..]), unread[..n], n)
  }

  class Exchange {
    var slot: Option<Bytes>
    var closed: bool
    var err: bool
    var unread: Bytes

    function View(): Channel
      reads this
    {
      Channel(slot, closed, err, unread)
    }

    constructor ()
      ensures View() == Channel(None, false, false, [])
    {
      slot, closed, err, unread := None, false, false, [];
    }

    method Read(capacity: nat) returns (b: Bytes, n: int)
      requires capacity > 0
      modifies this`slot, this`unread
      ensures (View(), b, n) == ReadBody(old(View()), capacity)
    {
      if unread == [] {
        if slot.Some? {
          unread, slot := slot.value, None;
        } else if closed {
          return [], if err then -2 else -1;
        } else {
          return [], 0;
        }
      }
      var k := if capacity < |unread| then capacity else |unread|;
      b, n := unread[..k], k;
      unread := unread[k..];
    }
  }

  /** `body` is what the server sends in full; `taken` is how much of it the pump has read,
      `delivered` what the guest has got. */
  datatype State = State(body: Bytes, taken: nat, pc: PumpPc, channel: Channel, delivered: Bytes, cancelled: bool)

  datatype Event = PumpRead(n: nat, end: ReadEnd)
                 | PumpSend
                 | PumpAbandon   // the context is done while a chunk is on offer
                 | PumpPanic     // the body's Read panics
                 | PumpClose
                 | Cancel
                 | GuestRead(capacity: nat)

  function AfterChunk(s: State, end: ReadEnd): State {
    match end
    case More => s.(pc := Reading)
    case Eof => s.(pc := Closing)
    case Failed => s.(pc := Closing, channel := s.channel.(err := true))
  }

  function Next(s: State, e: Event): Option<State> {
    match e
    case PumpRead(n, end) =>
      // A body ends where it ends: io.EOF comes with its last bytes or after them.
      if !s.pc.Reading? || n > CHUNK || s.taken + n > |s.body| || (end.Eof? && s.taken + n != |s.body|) then None
      else if n == 0 then Some(AfterChunk(s, end))
      else Some(s.(taken := s.taken + n, pc := Offering(s.body[s.taken..s.taken + n], end)))
    case PumpSend =>
      if s.pc.Offering? && s.channel.slot.None? then
        Some(AfterChunk(s.(channel := s.channel.(slot := Some(s.pc.chunk))), s.pc.end))
      else None
    case PumpAbandon =>
      if s.pc.Offering? && s.cancelled then Some(s.(pc := Closing)) else None
    case PumpPanic =>
      if s.pc.Reading? then Some(s.(pc := Closing, channel := s.channel.(err := true))) else None
    case PumpClose =>
      if s.pc.Closing? then Some(s.(pc := Finished, channel := s.channel.(closed := true))) else None
    case Cancel => Some(s.(cancelled := true))
    case GuestRead(capacity) =>
      if capacity == 0 then None
      else
        var (channel, b, _) := ReadBody(s.channel, capacity);
        Some(s.(channel := channel, delivered := s.delivered + b))
  }

  function Result(s: State, capacity: nat): int {
    ReadBody(s.channel, capacity).2
  }

  function InSlot(s: State): Bytes {
    if s.channel.slot.Some? then s.channel.slot.value else []
  }

  /** What has gone through the channel. */
  function Passed(s: State): Bytes {
    s.delivered + s.channel.unread + InSlot(s)
  }

  function Offered(s: State): Bytes {
    if s.pc.Offering? then s.pc.chunk else []
  }

  /** Nothing is lost or reordered: what the guest has, the unread rest, the queued chunk and the
      one on offer are the part of the body read so far, unless the pump gave up. */
  ghost predicate Inv(s: State) {
    && s.taken <= |s.body|
    && (s.channel.closed <==> s.pc.Finished?)
    && Passed(s) <= s.body
    && (s.pc.Offering? ==> s.pc.chunk != [])
    && (s.pc.Reading? || s.pc.Offering? ==>
          Passed(s) + Offered(s) == s.body[..s.taken] && !s.channel.err)
    && (s.channel.slot.Some? ==> s.channel.slot.value != [])
    && (s.pc.Offering? && s.pc.end.Eof? ==> s.taken == |s.body|)
    && (s.pc.Closing? || s.pc.Finished? ==>
          s.channel.err || s.cancelled || Passed(s) == s.body)
  }

  function Begin(body: Bytes): State {
    State(body, 0, Reading, Channel(None, false, false, []), [], false)
  }

  lemma ReadKeeps(s: State, capacity: nat)
    requires capacity > 0
    ensures var (c, b, n) := ReadBody(s.channel, capacity);
            && (s.delivered + b) + c.unread + (if c.slot.Some? then c.slot.value else [])
               == Passed(s)
            && c.closed == s.channel.closed && c.err == s.channel.err
            && (c.slot.Some? ==> c.slot == s.channel.slot)
  {
  }

  lemma PumpReadKeeps(s: State, e: Event)
    requires Inv(s) && Next(s, e).Some? && e.PumpRead?
    ensures Inv(Next(s, e).value)
  {
    var t := Next(s, e).value;
    assert Passed(t) == Passed(s);
    assert Passed(s) + [] == Passed(s);
    assert s.body[..s.taken] + s.body[s.taken..s.taken + e.n] == s.body[..s.taken + e.n];
    assert s.body[..|s.body|] == s.body;
    hide Passed;
  }

  lemma PumpSendKeeps(s: State)
    requires Inv(s) && Next(s, PumpSend).Some?
    ensures Inv(Next(s, PumpSend).value)
  {
    var t := Next(s, PumpSend).value;
    assert Passed(t) + [] == Passed(s) + s.pc.chunk;
    assert Passed(t) + [] == Passed(t);
    assert s.body[..|s.body|] == s.body;
    hide Passed;
  }

  lemma NextKeeps(s: State, e: Event)
    requires Inv(s) && Next(s, e).Some?
    ensures Inv(Next(s, e).value) && Next(s, e).value.body == s.body
  {
    if e.PumpRead? {
      PumpReadKeeps(s, e);
    } else if e.PumpSend? {
      PumpSendKeeps(s);
    } else if e.GuestRead? {
      ReadKeeps(s, e.capacity);
    }
  }

  function Run(s: State, events: seq<Event>): Option<State>
    decreases |events|
  {
    if events == [] then Some(s)
    else match Next(s, events[0])
      case None => None
      case Some(t) => Run(t, events[1..])
  }

  lemma {:induction false} RunKeeps(s: State, events: seq<Event>)
    requires Inv(s) && Run(s, events).Some?
    ensures Inv(Run(s, events).value) && Run(s, events).value.body == s.body
    decreases |events|
  {
    hide Inv, Next;
    if events != [] {
      NextKeeps(s, events[0]);
      RunKeeps(Next(s, events[0]).value, events[1..]);
    }
  }

  /** For every body, chunking and sequence of reads: what the guest has got, the unread rest and
      the queued chunk are a prefix of the body. A read hands over at most what was asked for and
      0 only while the body goes on; -2 comes only after an error is stored, and -1 on an exchange
      that is not cancelled only once the whole body is delivered. */
  lemma DeliveredInOrder(body: Bytes, events: seq<Event>, capacity: nat)
    requires Run(Begin(body), events).Some? && capacity > 0
    ensures var s := Run(Begin(body), events).value;
            var (_, b, n) := ReadBody(s.channel, capacity);
            && Passed(s) <= body
            && (n > 0 ==> n == |b| <= capacity && s.delivered + b <= body)
            && (n <= 0 ==> b == [])
            && (n == 0 ==> s.channel.unread == [] && s.channel.slot.None? && !s.pc.Finished?)
            && (n == -1 && !s.cancelled ==> s.delivered == body)
            && (n == -2 ==> s.channel.err && s.pc.Finished?)
            && n >= -2
  {
    assert Inv(Begin(body));
    RunKeeps(Begin(body), events);
    var s := Run(Begin(body), events).value;
    ReadKeeps(s, capacity);
    var (c, b, n) := ReadBody(s.channel, capacity);
    if n > 0 {
      var rest := c.unread + (if c.slot.Some? then c.slot.value else []);
      assert (s.delivered + b) + rest == Passed(s);
      assert s.delivered + b <= (s.delivered + b) + rest;
    }
  }

  lemma {:induction false} RunConcat(s: State, a: seq<Event>, b: seq<Event>)
    requires Run(s, a).Some?
    ensures Run(s, a + b) == Run(Run(s, a).value, b)
    decreases |a|
  {
    if a == [] {
      assert a + b == b;
    } else {
      hide Next;
      assert (a + b)[1..] == a[1..] + b;
      RunConcat(Next(s, a[0]).value, a[1..], b);
    }
  }

  /** How much a guest has to read before it catches up with the channel. */
  function Backlog(c: Channel): nat {
    |c.unread| + (if c.slot.Some? then |c.slot.value| + 1 else 0)
  }

  /** However little it asks for, a guest that goes on reading gets all that went through. */
  lemma {:induction false} Drain(s: State, capacity: nat) returns (events: seq<Event>)
    requires capacity > 0 && (s.channel.slot.Some? ==> s.channel.slot.value != [])
    ensures Run(s, events) == Some(s.(delivered := Passed(s), channel := s.channel.(slot := None, unread := [])))
    decreases Backlog(s.channel)
  {
    if s.channel.slot.None? && s.channel.unread == [] {
      events := [];
      assert Passed(s) == s.delivered;
    } else {
      var t := Next(s, GuestRead(capacity)).value;
      ReadKeeps(s, capacity);
      assert Passed(t) == Passed(s) && t == s.(channel := t.channel, delivered := t.delivered);
      assert Backlog(t.channel) < Backlog(s.channel);
      assert t.channel.closed == s.channel.closed && t.channel.err == s.channel.err;
      var more := Drain(t, capacity);
      hide Run, Next, Passed;
      events := Prepend(s, GuestRead(capacity), t, more);
    }
  }

  /** From every point of an exchange that is neither cancelled nor failing, the pump and the guest
      can go on until the guest has the whole body and is told that it ends there. */
  lemma {:induction false} CanComplete(s: State, capacity: nat) returns (events: seq<Event>)
    requires Inv(s) && capacity > 0 && !s.cancelled && !s.channel.err && !(s.pc.Offering? && s.pc.end.Failed?)
    ensures Run(s, events).Some?
    ensures var t := Run(s, events).value; t.delivered == s.body && Result(t, capacity) == -1
    decreases |s.body| - s.taken,
              if s.pc.Offering? then 3 else if s.pc.Reading? then 2 else if s.pc.Closing? then 1 else 0
  {
    if s.pc.Finished? {
      events := Drain(s, capacity);
    } else if s.pc.Offering? {
      var drain := Drain(s, capacity);
      var t := Run(s, drain).value;
      RunKeeps(s, drain);
      var u := Next(t, PumpSend).value;
      NextKeeps(t, PumpSend);
      assert u.taken == s.taken && !u.cancelled && !u.channel.err && u.body == s.body && !u.pc.Offering?;
      var more := CanComplete(u, capacity);
      hide Run, Next, Inv;
      var rest := Prepend(t, PumpSend, u, more);
      RunConcat(s, drain, rest);
      events := drain + rest;
    } else {
      var n := Min(CHUNK, |s.body| - s.taken);
      var e := if s.pc.Closing? then PumpClose else if n > 0 then PumpRead(n, More) else PumpRead(0, Eof);
      var t := Next(s, e).value;
      NextKeeps(s, e);
      assert !t.cancelled && !t.channel.err && (t.pc.Offering? ==> t.pc.end.More?);
      var more := CanComplete(t, capacity);
      hide Run, Next, Inv;
      events := Prepend(s, e, t, more);
    }
  }

  /** A body whose read fails, or panics, can be read up to there; then the failure is reported. */
  lemma FailureIsReported(s: State, e: Event, capacity: nat) returns (events: seq<Event>)
    requires Inv(s) && s.pc.Reading? && capacity > 0 && e in {PumpPanic, PumpRead(0, Failed)}
    ensures events != [] && events[0] == e && Run(s, events).Some?
    ensures var t := Run(s, events).value; t.delivered == s.body[..s.taken] && Result(t, capacity) == -2
  {
    var t := Next(s, e).value;
    var u := Next(t, PumpClose).value;
    NextKeeps(s, e);
    NextKeeps(t, PumpClose);
    assert Passed(u) == Passed(s) && Passed(s) + [] == Passed(s);
    var more := Drain(u, capacity);
    hide Run, Next;
    var rest := Prepend(t, PumpClose, u, more);
    events := Prepend(s, e, t, rest);
  }

  /** A cancelled exchange can end early: every body but the empty one can be cut off with the
      result that marks a complete one. */
  lemma CancelledBodyLooksComplete(body: Bytes)
    requires body != []
    ensures exists events :: Run(Begin(body), events).Some?
              && var s := Run(Begin(body), events).value;
                 Result(s, 1) == -1 && s.delivered != body && s.delivered <= body
  {
    var s0 := Begin(body);
    var s1 := s0.(taken := 1, pc := Offering(body[0..1], More));
    var s2 := s1.(cancelled := true);
    var s3 := s2.(pc := Closing);
    var s4 := s3.(pc := Finished, channel := s3.channel.(closed := true));
    assert Next(s0, PumpRead(1, More)) == Some(s1);
    assert Next(s1, Cancel) == Some(s2);
    assert Next(s2, PumpAbandon) == Some(s3);
    assert Next(s3, PumpClose) == Some(s4);
    hide Run, Next;
    assert Run(s4, []) == Some(s4) by { NoEvents(s4); }
    var events := Prepend(s3, PumpClose, s4, []);
    events := Prepend(s2, PumpAbandon, s3, events);
    events := Prepend(s1, Cancel, s2, events);
    events := Prepend(s0, PumpRead(1, More), s1, events);
  }

  lemma NoEvents(s: State)
    ensures Run(s, []) == Some(s)
  {
  }

  lemma Prepend(s: State, e: Event, t: State, rest: seq<Event>) returns (events: seq<Event>)
    requires Next(s, e) == Some(t)
    ensures events == [e] + rest && Run(s, events) == Run(t, rest)
  {
    hide Next;
    events := [e] + rest;
    assert events[1..] == rest;
  }
}
