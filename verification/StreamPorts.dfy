/**
 Stream ports: reads, writes and a close on pipes and TCP sockets, the libuv callbacks that
 complete them, and the list of completions that `osi_get_callbacks` returns. libuv is an
 oracle: it may fail to start I/O and must on a handle being closed, it calls back for a read
 only before uv_close, and it cancels a write before the close callback.
 Scheme objects are numbers; 0, the null pointer, is None.
 */
module StreamPorts {
  import opened Options

  type Obj = nat

  const EBUSY: int := -16
  const EOF: int := -4095

  datatype Port = Port(
    readCallback: Option<Obj>,
    readBuffer: Obj,
    writeCallback: Option<Obj>,
    writeBuffer: Obj,
    writeBuffer2: Option<Obj>,
    writeSize: nat,
    closeCallback: Option<Obj>,
    reading: bool,              // between uv_read_start and uv_read_stop
    writing: bool)              // a write request is with libuv

  const NEW_PORT: Port := Port(None, 0, None, 0, None, 0, None, false, false)

  datatype Channel = Reading | Writing | Closing

  datatype Delivery = Delivery(callback: Obj, arg: int)

  datatype State = State(
    ports: seq<Option<Port>>,            // None once freed
    locked: multiset<Obj>,               // Slock_object less Sunlock_object
    callbacks: Option<seq<Delivery>>,    // g_callbacks, None outside osi_get_callbacks
    returned: seq<seq<Delivery>>)        // the lists returned so far

  datatype Event =
    | New
    | Read(p: nat, buffer: Obj, cb: Obj, rc: int)
    | Write(p: nat, buffer: Obj, buffer2: Option<Obj>, size: nat, cb: Obj, rc: int)
    | Close(p: nat, cb: Obj)
    | Begin
    | OnRead(p: nat, nread: int)
    | OnWrite(p: nat, status: int)
    | OnClose(p: nat)
    | End

  predicate Live(s: State, p: nat) { p < |s.ports| && s.ports[p].Some? }

  predicate Enabled(s: State, e: Event) {
    match e
    case New => true
    case Read(p, _, _, rc) => Live(s, p) && (s.ports[p].value.closeCallback.Some? ==> rc < 0)
    case Write(p, _, _, _, _, rc) => Live(s, p) && (s.ports[p].value.closeCallback.Some? ==> rc < 0)
    case Close(p, _) => Live(s, p)
    case Begin => s.callbacks.None?
    case OnRead(p, _) =>
      s.callbacks.Some? && Live(s, p) && s.ports[p].value.reading && s.ports[p].value.closeCallback.None?
    case OnWrite(p, _) => s.callbacks.Some? && Live(s, p) && s.ports[p].value.writing
    case OnClose(p) =>
      s.callbacks.Some? && Live(s, p) && s.ports[p].value.closeCallback.Some? && !s.ports[p].value.writing
    case End => s.callbacks.Some?
  }

  // ---------- one port ----------

  /** Whether a submission is accepted rather than refused as busy or undone. */
  predicate Accepts(p: Port, e: Event) {
    match e
    case Read(_, _, _, rc) => p.readCallback.None? && rc >= 0
    case Write(_, _, _, _, _, rc) => p.writeCallback.None? && rc >= 0
    case Close(_, _) => p.closeCallback.None?
    case _ => false
  }

  /** read_stream_port: a start that fails undoes the registration. */
  function Started(p: Port, buffer: Obj, cb: Obj, rc: int): Port {
    if p.readCallback.Some? then p
    else p.(readBuffer := buffer, readCallback := if rc < 0 then None else Some(cb), reading := p.reading || rc >= 0)
  }

  /** write_stream_port and osi_tcp_write2 */
  function Written(p: Port, buffer: Obj, buffer2: Option<Obj>, size: nat, cb: Obj, rc: int): Port {
    if p.writeCallback.Some? then p
    else p.(writeBuffer := buffer, writeBuffer2 := if rc < 0 then None else buffer2, writeSize := size,
            writeCallback := if rc < 0 then None else Some(cb), writing := rc >= 0)
  }

  function Closed(p: Port, cb: Obj): Port {
    if p.closeCallback.Some? then p else p.(closeCallback := Some(cb))
  }

  function ReadDone(p: Port): Port { p.(readCallback := None, reading := false) }

  function WriteDone(p: Port): Port { p.(writeCallback := None, writeBuffer2 := None, writing := false) }

  function WriteResult(p: Port, status: int): int { if status < 0 then status else p.writeSize }

  /** The port after a step of its own; None once close_stream_cb has freed it. */
  function NextPort(p: Port, e: Event): Option<Port> {
    match e
    case Read(_, buffer, cb, rc) => Some(Started(p, buffer, cb, rc))
    case Write(_, buffer, buffer2, size, cb, rc) => Some(Written(p, buffer, buffer2, size, cb, rc))
    case Close(_, cb) => Some(Closed(p, cb))
    case OnRead(_, _) => Some(ReadDone(p))
    case OnWrite(_, _) => Some(WriteDone(p))
    case OnClose(_) => None
    case _ => Some(p)
  }

  function Second(buffer2: Option<Obj>): multiset<Obj> {
    if buffer2.Some? then multiset{buffer2.value} else multiset{}
  }

  /** The objects a port keeps locked for one of its channels. */
  function HeldFor(p: Port, c: Channel): multiset<Obj> {
    match c
    case Reading => if p.readCallback.Some? then multiset{p.readBuffer, p.readCallback.value} else multiset{}
    case Writing =>
      if p.writeCallback.None? then multiset{}
      else multiset{p.writeBuffer, p.writeCallback.value} + Second(p.writeBuffer2)
    case Closing => if p.closeCallback.Some? then multiset{p.closeCallback.value} else multiset{}
  }

  function Held(p: Port): multiset<Obj> {
    HeldFor(p, Reading) + HeldFor(p, Writing) + HeldFor(p, Closing)
  }

  /** What a step locks, and keeps locked. */
  function Locks(p: Port, e: Event): multiset<Obj> {
    if !Accepts(p, e) then multiset{}
    else match e
      case Read(_, buffer, cb, _) => multiset{buffer, cb}
      case Write(_, buffer, buffer2, _, cb, _) => multiset{buffer, cb} + Second(buffer2)
      case Close(_, cb) => multiset{cb}
  }

  /** What a step unlocks. */
  function Unlocks(p: Port, e: Event): multiset<Obj> {
    match e
    case OnRead(_, _) => HeldFor(p, Reading)
    case OnWrite(_, _) => HeldFor(p, Writing)
    case OnClose(_) => HeldFor(p, Reading) + HeldFor(p, Closing)
    case _ => multiset{}
  }

  // ---------- all ports ----------

  datatype Entry =
    | Requested(p: nat, c: Channel, cb: Obj)
    | Completed(p: nat, c: Channel, cb: Obj, arg: int)

  datatype Entries = Entries(first: Option<Entry>, second: Option<Entry>)

  const NOTHING: Entries := Entries(None, None)

  function One(entry: Entry): Entries { Entries(Some(entry), None) }

  /** The requests accepted and the completions queued by a step, in order. */
  function PortEmits(p: Port, e: Event): Entries {
    match e
    case Read(q, _, cb, _) => if Accepts(p, e) then One(Requested(q, Reading, cb)) else NOTHING
    case Write(q, _, _, _, cb, _) => if Accepts(p, e) then One(Requested(q, Writing, cb)) else NOTHING
    case Close(q, cb) => if Accepts(p, e) then One(Requested(q, Closing, cb)) else NOTHING
    case OnRead(q, nread) => One(Completed(q, Reading, p.readCallback.GetOr(0), nread))
    case OnWrite(q, status) => One(Completed(q, Writing, p.writeCallback.GetOr(0), WriteResult(p, status)))
    case OnClose(q) =>
      var close := Completed(q, Closing, p.closeCallback.GetOr(0), 0);
      if p.readCallback.Some? then Entries(Some(Completed(q, Reading, p.readCallback.value, EOF)), Some(close))
      else One(close)
    case _ => NOTHING
  }

  predicate OnPort(e: Event) { !e.New? && !e.Begin? && !e.End? }

  function Emits(s: State, e: Event): Entries
    requires Enabled(s, e)
  {
    if OnPort(e) then PortEmits(s.ports[e.p].value, e) else NOTHING
  }

  function AddOne(cs: seq<Delivery>, entry: Option<Entry>): seq<Delivery> {
    if entry.Some? && entry.value.Completed? then [Delivery(entry.value.cb, entry.value.arg)] + cs else cs
  }

  /** osi_add_callback1 for each completion in turn: the newest is first. */
  function Added(cs: seq<Delivery>, es: Entries): seq<Delivery> {
    AddOne(AddOne(cs, es.first), es.second)
  }

  function Apply(s: State, e: Event): State
    requires Enabled(s, e)
  {
    match e
    case New => s.(ports := s.ports + [Some(NEW_PORT)])
    case Begin => s.(callbacks := Some([]))
    case End => s.(callbacks := None, returned := s.returned + [s.callbacks.value])
    case _ =>
      var port := s.ports[e.p].value;
      State(s.ports[e.p := NextPort(port, e)],
            s.locked + Locks(port, e) - Unlocks(port, e),
            if s.callbacks.Some? then Some(Added(s.callbacks.value, Emits(s, e))) else None,
            s.returned)
  }

  function Init(): State {
    State([], multiset{}, None, [])
  }

  ghost predicate IsRun(es: seq<Event>, ss: seq<State>) {
    && |ss| == |es| + 1 && ss[0] == Init()
    && forall i :: 0 <= i < |es| ==> Enabled(ss[i], es[i]) && ss[i + 1] == Apply(ss[i], es[i])
  }

  // ---------- the ports ----------

  /** What libuv is doing matches what the port has registered. */
  ghost predicate PortInv(p: Port) {
    && (p.closeCallback.None? ==> (p.reading <==> p.readCallback.Some?))
    && (p.writing <==> p.writeCallback.Some?)
    && (p.writeCallback.None? ==> p.writeBuffer2.None?)
  }

  predicate PortEnabled(p: Port, e: Event) {
    match e
    case Read(_, _, _, rc) => p.closeCallback.Some? ==> rc < 0
    case Write(_, _, _, _, _, rc) => p.closeCallback.Some? ==> rc < 0
    case OnRead(_, _) => p.reading && p.closeCallback.None?
    case OnWrite(_, _) => p.writing
    case OnClose(_) => p.closeCallback.Some? && !p.writing
    case _ => true
  }

  lemma PortStep(p: Port, e: Event)
    requires PortInv(p) && PortEnabled(p, e)
    ensures NextPort(p, e).Some? ==> PortInv(NextPort(p, e).value)
  {}

  ghost predicate PortsInv(ports: seq<Option<Port>>) {
    forall p :: 0 <= p < |ports| && ports[p].Some? ==> PortInv(ports[p].value)
  }

  lemma PortsUpdated(ports: seq<Option<Port>>, p: nat, port: Option<Port>)
    requires PortsInv(ports) && p < |ports| && (port.Some? ==> PortInv(port.value))
    ensures PortsInv(ports[p := port])
  {}

  lemma PortsAdded(ports: seq<Option<Port>>)
    requires PortsInv(ports)
    ensures PortsInv(ports + [Some(NEW_PORT)])
  {}

  lemma OnPortUpdates(s: State, e: Event)
    requires Enabled(s, e) && OnPort(e)
    ensures Apply(s, e).ports == s.ports[e.p := NextPort(s.ports[e.p].value, e)]
  {}

  lemma EnabledOn(s: State, e: Event)
    requires Enabled(s, e) && OnPort(e)
    ensures Live(s, e.p) && PortEnabled(s.ports[e.p].value, e)
  {}

  lemma PortsStep(s: State, e: Event)
    requires PortsInv(s.ports) && Enabled(s, e)
    ensures PortsInv(Apply(s, e).ports)
  {
    if OnPort(e) {
      var port := s.ports[e.p].value;
      EnabledOn(s, e);
      PortStep(port, e);
      OnPortUpdates(s, e);
      PortsUpdated(s.ports, e.p, NextPort(port, e));
    } else if e.New? {
      PortsAdded(s.ports);
    }
  }

  // ---------- the locked objects ----------

  function HeldAt(port: Option<Port>): multiset<Obj> {
    if port.Some? then Held(port.value) else multiset{}
  }

  function HeldByAll(ports: seq<Option<Port>>): multiset<Obj> {
    if ports == [] then multiset{} else HeldByAll(ports[..|ports| - 1]) + HeldAt(ports[|ports| - 1])
  }

  lemma Exchange(h: multiset<Obj>, before: multiset<Obj>, after: multiset<Obj>, l: multiset<Obj>)
    requires before <= h
    ensures (h - before + after) + l == (h + l) - before + after
  {}

  lemma ExchangeLast(h: multiset<Obj>, before: multiset<Obj>, after: multiset<Obj>)
    ensures h + after == (h + before) - before + after
  {}

  lemma HeldLast(ports: seq<Option<Port>>, port: Option<Port>)
    ensures HeldByAll(ports + [port]) == HeldByAll(ports) + HeldAt(port)
  {
    assert (ports + [port])[..|ports|] == ports;
  }

  lemma SplitUpdate(ports: seq<Option<Port>>, p: nat, port: Option<Port>)
    requires p < |ports|
    ensures var n := |ports| - 1;
            && ports == ports[..n] + [ports[n]]
            && ports[p := port] == if p < n then ports[..n][p := port] + [ports[n]] else ports[..n] + [port]
  {}

  lemma {:induction false} HeldUpdate(ports: seq<Option<Port>>, p: nat, port: Option<Port>)
    requires p < |ports|
    ensures HeldAt(ports[p]) <= HeldByAll(ports)
    ensures HeldByAll(ports[p := port]) == HeldByAll(ports) - HeldAt(ports[p]) + HeldAt(port)
  {
    var n := |ports| - 1;
    var front, last := ports[..n], ports[n];
    SplitUpdate(ports, p, port);
    HeldLast(front, last);
    if p < n {
      HeldUpdate(front, p, port);
      HeldLast(front[p := port], last);
      Exchange(HeldByAll(front), HeldAt(ports[p]), HeldAt(port), HeldAt(last));
    } else {
      HeldLast(front, port);
      ExchangeLast(HeldByAll(front), HeldAt(last), HeldAt(port));
    }
  }

  lemma Rotated(r: multiset<Obj>, w: multiset<Obj>, c: multiset<Obj>, more: multiset<Obj>)
    ensures (r + more) + w + c == r + w + c + more
    ensures r + (w + more) + c == r + w + c + more
    ensures r + w + (c + more) == r + w + c + more
  {}

  lemma NothingMore(x: multiset<Obj>)
    ensures x + multiset{} == multiset{} + x == x
  {}

  lemma ReadHolds(p: Port, e: Event)
    requires e.Read?
    ensures HeldAt(NextPort(p, e)) == Held(p) + Locks(p, e)
  {
    NothingMore(HeldFor(p, Reading));
    NothingMore(Locks(p, e));
    assert HeldFor(NextPort(p, e).value, Reading) == HeldFor(p, Reading) + Locks(p, e);
    Rotated(HeldFor(p, Reading), HeldFor(p, Writing), HeldFor(p, Closing), Locks(p, e));
  }

  lemma WriteHolds(p: Port, e: Event)
    requires e.Write?
    ensures HeldAt(NextPort(p, e)) == Held(p) + Locks(p, e)
  {
    NothingMore(HeldFor(p, Writing));
    NothingMore(Locks(p, e));
    assert HeldFor(NextPort(p, e).value, Writing) == HeldFor(p, Writing) + Locks(p, e);
    Rotated(HeldFor(p, Reading), HeldFor(p, Writing), HeldFor(p, Closing), Locks(p, e));
  }

  lemma CloseHolds(p: Port, e: Event)
    requires e.Close?
    ensures HeldAt(NextPort(p, e)) == Held(p) + Locks(p, e)
  {
    NothingMore(HeldFor(p, Closing));
    NothingMore(Locks(p, e));
    assert HeldFor(NextPort(p, e).value, Closing) == HeldFor(p, Closing) + Locks(p, e);
    Rotated(HeldFor(p, Reading), HeldFor(p, Writing), HeldFor(p, Closing), Locks(p, e));
  }

  lemma ReadReleases(p: Port)
    ensures Held(ReadDone(p)) + HeldFor(p, Reading) == Held(p)
  {
    NothingMore(HeldFor(p, Reading));
    Rotated(multiset{}, HeldFor(p, Writing), HeldFor(p, Closing), HeldFor(p, Reading));
  }

  lemma WriteReleases(p: Port)
    ensures Held(WriteDone(p)) + HeldFor(p, Writing) == Held(p)
  {
    NothingMore(HeldFor(p, Writing));
    Rotated(HeldFor(p, Reading), multiset{}, HeldFor(p, Closing), HeldFor(p, Writing));
  }

  lemma CloseReleases(p: Port)
    requires p.writeCallback.None?
    ensures HeldFor(p, Reading) + HeldFor(p, Closing) == Held(p)
  {
    NothingMore(HeldFor(p, Reading));
  }

  /** A step changes what the port holds by what it locks and unlocks. */
  lemma HeldStep(p: Port, e: Event)
    requires PortInv(p) && PortEnabled(p, e)
    ensures HeldAt(NextPort(p, e)) + Unlocks(p, e) == Held(p) + Locks(p, e)
  {
    NothingMore(HeldAt(NextPort(p, e)));
    NothingMore(Held(p));
    match e
    case Read(_, _, _, _) => ReadHolds(p, e);
    case Write(_, _, _, _, _, _) => WriteHolds(p, e);
    case Close(_, _) => CloseHolds(p, e);
    case OnRead(_, _) => ReadReleases(p);
    case OnWrite(_, _) => WriteReleases(p);
    case OnClose(_) => CloseReleases(p); NothingMore(Unlocks(p, e));
    case _ =>
  }

  lemma Balance(h: multiset<Obj>, before: multiset<Obj>, after: multiset<Obj>, more: multiset<Obj>, less: multiset<Obj>)
    requires before <= h && after + less == before + more
    ensures h - before + after == h + more - less
  {
    assert h == (h - before) + before;
    assert h + more == (h - before) + (after + less);
  }

  lemma NewHoldsNothing(ports: seq<Option<Port>>)
    ensures HeldByAll(ports + [Some(NEW_PORT)]) == HeldByAll(ports)
  {
    assert (ports + [Some(NEW_PORT)])[..|ports|] == ports;
    assert Held(NEW_PORT) == multiset{};
  }

  lemma LockStep(s: State, e: Event)
    requires PortsInv(s.ports) && Enabled(s, e) && s.locked == HeldByAll(s.ports)
    ensures Apply(s, e).locked == HeldByAll(Apply(s, e).ports)
  {
    if OnPort(e) {
      var port := s.ports[e.p].value;
      HeldStep(port, e);
      HeldUpdate(s.ports, e.p, NextPort(port, e));
      Balance(s.locked, Held(port), HeldAt(NextPort(port, e)), Locks(port, e), Unlocks(port, e));
    } else if e.New? {
      NewHoldsNothing(s.ports);
    }
  }

  lemma {:induction false} RunInv(es: seq<Event>, ss: seq<State>, i: nat)
    requires IsRun(es, ss) && i <= |es|
    ensures PortsInv(ss[i].ports) && ss[i].locked == HeldByAll(ss[i].ports)
  {
    if i > 0 {
      RunInv(es, ss, i - 1);
      PortsStep(ss[i - 1], es[i - 1]);
      LockStep(ss[i - 1], es[i - 1]);
    }
  }

  lemma {:induction false} NothingHeld(ports: seq<Option<Port>>)
    requires forall p :: 0 <= p < |ports| ==> ports[p].None?
    ensures HeldByAll(ports) == multiset{}
  {
    if ports != [] { NothingHeld(ports[..|ports| - 1]); }
  }

  /** In every run the locked objects are exactly, with multiplicity, the buffers and callbacks
      of the requests that live ports have not completed; once all ports are freed none is locked. */
  lemma {:induction false} LockedIsHeld(es: seq<Event>, ss: seq<State>, i: nat)
    requires IsRun(es, ss) && i <= |es|
    ensures ss[i].locked == HeldByAll(ss[i].ports)
    ensures (forall p :: 0 <= p < |ss[i].ports| ==> ss[i].ports[p].None?) ==> ss[i].locked == multiset{}
  {
    RunInv(es, ss, i);
    if forall p :: 0 <= p < |ss[i].ports| ==> ss[i].ports[p].None? {
      NothingHeld(ss[i].ports);
    }
  }

  // ---------- one completion for each accepted request ----------

  datatype Phase = Quiet | Pending(cb: Obj) | Broken

  /** One channel's view: requests and completions alternate, each completion through the
      callback of its request; a close reports 0. */
  function ObserveOne(ph: Phase, entry: Option<Entry>, p: nat, c: Channel): Phase {
    if entry.None? || entry.value.p != p || entry.value.c != c then ph
    else match (ph, entry.value)
      case (Quiet, Requested(_, _, cb)) => Pending(cb)
      case (Pending(cb), Completed(_, _, cb', arg)) => if cb == cb' && (c.Closing? ==> arg == 0) then Quiet else Broken
      case _ => Broken
  }

  function Observe(ph: Phase, es: Entries, p: nat, c: Channel): Phase {
    ObserveOne(ObserveOne(ph, es.first, p, c), es.second, p, c)
  }

  function Observed(es: seq<Event>, ss: seq<State>, i: nat, p: nat, c: Channel): Phase
    requires i <= |es| <= |ss| && forall k :: 0 <= k < i ==> Enabled(ss[k], es[k])
  {
    if i == 0 then Quiet else Observe(Observed(es, ss, i - 1, p, c), Emits(ss[i - 1], es[i - 1]), p, c)
  }

  function PendingOn(port: Option<Port>, c: Channel): Phase {
    if port.None? then Quiet
    else
      var cb := match c { case Reading => port.value.readCallback
                          case Writing => port.value.writeCallback
                          case Closing => port.value.closeCallback };
      if cb.Some? then Pending(cb.value) else Quiet
  }

  /** The request that port p has not completed on a channel. */
  function PhaseAt(s: State, p: nat, c: Channel): Phase {
    if p < |s.ports| then PendingOn(s.ports[p], c) else Quiet
  }

  lemma ObservePort(port: Port, e: Event, c: Channel)
    requires PortInv(port) && PortEnabled(port, e) && OnPort(e)
    ensures Observe(PendingOn(Some(port), c), PortEmits(port, e), e.p, c) == PendingOn(NextPort(port, e), c) != Broken
  {}

  lemma OtherPort(port: Port, e: Event, ph: Phase, p: nat, c: Channel)
    requires OnPort(e) && p != e.p
    ensures Observe(ph, PortEmits(port, e), p, c) == ph
  {}

  lemma KeepsOther(s: State, e: Event, p: nat)
    requires Enabled(s, e) && p < |s.ports|
    ensures Apply(s, e).ports[p] == if OnPort(e) && e.p == p then NextPort(s.ports[p].value, e) else s.ports[p]
  {}

  lemma NewIsQuiet(s: State, e: Event, p: nat, c: Channel)
    requires Enabled(s, e) && p >= |s.ports|
    ensures PhaseAt(Apply(s, e), p, c) == Quiet
  {}

  lemma PhaseStep(s: State, e: Event, p: nat, c: Channel)
    requires Enabled(s, e)
    ensures PhaseAt(Apply(s, e), p, c) ==
            if OnPort(e) && p == e.p then PendingOn(NextPort(s.ports[p].value, e), c) else PhaseAt(s, p, c)
  {
    if p < |s.ports| { KeepsOther(s, e, p); } else { NewIsQuiet(s, e, p, c); }
  }

  lemma ObserveHere(s: State, e: Event, c: Channel)
    requires PortsInv(s.ports) && Enabled(s, e) && OnPort(e)
    ensures Observe(PhaseAt(s, e.p, c), Emits(s, e), e.p, c) == PendingOn(NextPort(s.ports[e.p].value, e), c) != Broken
  {
    ObservePort(s.ports[e.p].value, e, c);
  }

  lemma ObserveStep(s: State, e: Event, p: nat, c: Channel)
    requires PortsInv(s.ports) && Enabled(s, e) && PhaseAt(s, p, c) != Broken
    ensures Observe(PhaseAt(s, p, c), Emits(s, e), p, c) == PhaseAt(Apply(s, e), p, c) != Broken
  {
    PhaseStep(s, e, p, c);
    if OnPort(e) {
      if p == e.p { ObserveHere(s, e, c); }
      else { OtherPort(s.ports[e.p].value, e, PhaseAt(s, p, c), p, c); }
    }
  }

  /** In every run, on every channel of every port, each accepted request is completed at most
      once before the next is accepted, and a request is pending exactly while its port is live
      and holds it. */
  lemma {:induction false} CompletedOnce(es: seq<Event>, ss: seq<State>, i: nat, p: nat, c: Channel)
    requires IsRun(es, ss) && i <= |es|
    ensures Observed(es, ss, i, p, c) == PhaseAt(ss[i], p, c) != Broken
  {
    if i > 0 {
      CompletedOnce(es, ss, i - 1, p, c);
      RunInv(es, ss, i - 1);
      ObserveStep(ss[i - 1], es[i - 1], p, c);
    }
  }

  /** A read still pending when its port is freed is completed with end of file, just ahead of
      the close itself; no write is pending then. */
  lemma {:induction false} PendingReadGetsEof(es: seq<Event>, ss: seq<State>, i: nat, p: nat)
    requires IsRun(es, ss) && i < |es| && es[i] == OnClose(p)
    ensures PhaseAt(ss[i], p, Closing).Pending? && PhaseAt(ss[i], p, Writing) == Quiet && !Live(ss[i + 1], p)
    ensures var close, read := Completed(p, Closing, PhaseAt(ss[i], p, Closing).cb, 0), PhaseAt(ss[i], p, Reading);
            Emits(ss[i], es[i]) == if read.Pending? then Entries(Some(Completed(p, Reading, read.cb, EOF)), Some(close))
                                   else One(close)
  {
    RunInv(es, ss, i);
    assert PortInv(ss[i].ports[p].value);
  }

  // ---------- every completion in exactly one returned list ----------

  function DeliveryOf(entry: Option<Entry>): seq<Delivery> {
    if entry.Some? && entry.value.Completed? then [Delivery(entry.value.cb, entry.value.arg)] else []
  }

  /** The completions of the first i steps, oldest first. */
  function Completions(es: seq<Event>, ss: seq<State>, i: nat): seq<Delivery>
    requires i <= |es| <= |ss| && forall k :: 0 <= k < i ==> Enabled(ss[k], es[k])
  {
    if i == 0 then []
    else
      var entries := Emits(ss[i - 1], es[i - 1]);
      Completions(es, ss, i - 1) + DeliveryOf(entries.first) + DeliveryOf(entries.second)
  }

  function Reversed(ds: seq<Delivery>): seq<Delivery> {
    if ds == [] then [] else Reversed(ds[1..]) + [ds[0]]
  }

  /** The lists in the order they were returned, each read from its end. */
  function InOrder(lists: seq<seq<Delivery>>): seq<Delivery> {
    if lists == [] then [] else InOrder(lists[..|lists| - 1]) + Reversed(lists[|lists| - 1])
  }

  function Delivered(s: State): seq<Delivery> {
    InOrder(s.returned) + (if s.callbacks.Some? then Reversed(s.callbacks.value) else [])
  }

  lemma AddOneReversed(cs: seq<Delivery>, entry: Option<Entry>)
    ensures Reversed(AddOne(cs, entry)) == Reversed(cs) + DeliveryOf(entry)
  {
    if DeliveryOf(entry) != [] { assert (DeliveryOf(entry) + cs)[1..] == cs; }
  }

  lemma EndDelivers(lists: seq<seq<Delivery>>, cs: seq<Delivery>)
    ensures InOrder(lists + [cs]) == InOrder(lists) + Reversed(cs)
  {
    assert (lists + [cs])[..|lists|] == lists;
  }

  lemma AddedReversed(cs: seq<Delivery>, es: Entries)
    ensures Reversed(Added(cs, es)) == Reversed(cs) + DeliveryOf(es.first) + DeliveryOf(es.second)
  {
    AddOneReversed(cs, es.first);
    AddOneReversed(AddOne(cs, es.first), es.second);
  }

  lemma NoneOutside(s: State, e: Event)
    requires Enabled(s, e) && s.callbacks.None?
    ensures var entries := Emits(s, e); DeliveryOf(entries.first) == [] && DeliveryOf(entries.second) == []
  {}

  lemma EndStep(s: State)
    requires Enabled(s, End)
    ensures Delivered(Apply(s, End)) == Delivered(s)
  {
    EndDelivers(s.returned, s.callbacks.value);
  }

  lemma PortDelivers(s: State, e: Event)
    requires Enabled(s, e) && OnPort(e) && s.callbacks.Some?
    ensures var entries := Emits(s, e);
            Delivered(Apply(s, e)) == Delivered(s) + DeliveryOf(entries.first) + DeliveryOf(entries.second)
  {
    AddedReversed(s.callbacks.value, Emits(s, e));
  }

  lemma OutsideDelivers(s: State, e: Event)
    requires Enabled(s, e) && s.callbacks.None?
    ensures Delivered(Apply(s, e)) == Delivered(s)
  {}

  lemma DeliverStep(s: State, e: Event)
    requires Enabled(s, e)
    ensures var entries := Emits(s, e);
            Delivered(Apply(s, e)) == Delivered(s) + DeliveryOf(entries.first) + DeliveryOf(entries.second)
  {
    if s.callbacks.None? {
      NoneOutside(s, e);
      OutsideDelivers(s, e);
    } else if OnPort(e) {
      PortDelivers(s, e);
    } else if e.End? {
      EndStep(s);
    }
  }

  /** The lists that osi_get_callbacks has returned and the one it is building hold the
      completions of the run, each once: in order of return, and newest first in each. */
  lemma {:induction false} DeliveredOnce(es: seq<Event>, ss: seq<State>, i: nat)
    requires IsRun(es, ss) && i <= |es|
    ensures Completions(es, ss, i) == Delivered(ss[i])
  {
    if i > 0 {
      DeliveredOnce(es, ss, i - 1);
      DeliverStep(ss[i - 1], es[i - 1]);
    }
  }

  lemma KeepsReturned(s: State, e: Event)
    requires Enabled(s, e) && !e.End?
    ensures Apply(s, e).returned == s.returned
  {}

  lemma {:induction false} ReturnedKept(es: seq<Event>, ss: seq<State>, i: nat, j: nat)
    requires IsRun(es, ss) && i <= j <= |es| && forall k :: i <= k < j ==> !es[k].End?
    ensures ss[j].returned == ss[i].returned
    decreases j
  {
    if i < j {
      ReturnedKept(es, ss, i, j - 1);
      KeepsReturned(ss[j - 1], es[j - 1]);
    }
  }

  lemma OpensList(s: State)
    requires Enabled(s, Begin)
    ensures Apply(s, Begin).returned == s.returned && Delivered(s) == InOrder(s.returned)
  {}

  lemma ClosesList(s: State)
    requires Enabled(s, End)
    ensures Apply(s, End).returned == s.returned + [s.callbacks.value]
    ensures Delivered(s) == InOrder(s.returned) + Reversed(s.callbacks.value)
  {}

  /** A call of osi_get_callbacks returns exactly what was completed during that call, newest first. */
  lemma ReturnedList(es: seq<Event>, ss: seq<State>, i: nat, j: nat)
    requires IsRun(es, ss) && i < j < |es| && es[i].Begin? && es[j].End? && forall k :: i < k < j ==> !es[k].End?
    ensures |ss[j + 1].returned| == |ss[i].returned| + 1
    ensures Completions(es, ss, j) == Completions(es, ss, i) + Reversed(ss[j + 1].returned[|ss[i].returned|])
  {
    DeliveredOnce(es, ss, i);
    DeliveredOnce(es, ss, j);
    OpensList(ss[i]);
    ReturnedKept(es, ss, i + 1, j);
    ClosesList(ss[j]);
  }

  // ---------- what a completion reports ----------

  /** The submission of an uncompleted request, and what the port has kept of it. */
  predicate Submitted(port: Option<Port>, e: Event, p: nat, c: Channel) {
    && port.Some? && OnPort(e) && e.p == p
    && match c
       case Reading =>
         e.Read? && e.rc >= 0 && port.value.readCallback == Some(e.cb) && port.value.readBuffer == e.buffer
       case Writing =>
         && e.Write? && e.rc >= 0 && port.value.writeCallback == Some(e.cb)
         && port.value.writeBuffer == e.buffer && port.value.writeBuffer2 == e.buffer2 && port.value.writeSize == e.size
       case Closing => e.Close? && port.value.closeCallback == Some(e.cb)
  }

  lemma StillSubmitted(port: Port, e: Event, sub: Event, p: nat, c: Channel)
    requires Submitted(Some(port), sub, p, c) && OnPort(e) && PendingOn(NextPort(port, e), c).Pending?
    ensures Submitted(NextPort(port, e), sub, p, c)
  {}

  lemma JustSubmitted(port: Port, e: Event, c: Channel)
    requires OnPort(e) && PendingOn(Some(port), c) == Quiet && PendingOn(NextPort(port, e), c).Pending?
    ensures Submitted(NextPort(port, e), e, e.p, c)
  {}

  lemma SubmissionStep(s: State, e: Event, sub: Event, p: nat, c: Channel)
    requires Enabled(s, e) && p < |s.ports| && Submitted(s.ports[p], sub, p, c) && PhaseAt(Apply(s, e), p, c).Pending?
    ensures Submitted(Apply(s, e).ports[p], sub, p, c)
  {
    KeepsOther(s, e, p);
    if OnPort(e) && e.p == p { StillSubmitted(s.ports[p].value, e, sub, p, c); }
  }

  lemma SubmissionStart(s: State, e: Event, p: nat, c: Channel)
    requires Enabled(s, e) && PhaseAt(s, p, c) == Quiet && PhaseAt(Apply(s, e), p, c).Pending?
    ensures Submitted(Apply(s, e).ports[p], e, p, c)
  {
    PhaseStep(s, e, p, c);
    KeepsOther(s, e, p);
    JustSubmitted(s.ports[p].value, e, c);
  }

  /** Behind every pending request there is its submission, accepted when nothing was pending on
      the channel, and the port keeps its objects and its size until the completion. */
  lemma {:induction false} SubmissionOf(es: seq<Event>, ss: seq<State>, i: nat, p: nat, c: Channel) returns (k: nat)
    requires IsRun(es, ss) && i <= |es| && PhaseAt(ss[i], p, c).Pending?
    ensures k < i && PhaseAt(ss[k], p, c) == Quiet && Submitted(ss[i].ports[p], es[k], p, c)
    ensures forall j :: k < j <= i ==> PhaseAt(ss[j], p, c).Pending?
  {
    CompletedOnce(es, ss, i - 1, p, c);
    if PhaseAt(ss[i - 1], p, c).Pending? {
      k := SubmissionOf(es, ss, i - 1, p, c);
      SubmissionStep(ss[i - 1], es[i - 1], es[k], p, c);
    } else {
      k := i - 1;
      SubmissionStart(ss[i - 1], es[i - 1], p, c);
    }
  }

  lemma ReadQueued(s: State, p: nat, nread: int)
    requires Enabled(s, OnRead(p, nread)) && s.ports[p].value.readCallback.Some?
    ensures Apply(s, OnRead(p, nread)).callbacks ==
            Some([Delivery(s.ports[p].value.readCallback.value, nread)] + s.callbacks.value)
  {}

  /** A read completes through the callback of its own submission with what libuv read or reports. */
  lemma {:induction false} ReadReports(es: seq<Event>, ss: seq<State>, i: nat, p: nat, nread: int)
    returns (k: nat, buffer: Obj, cb: Obj, rc: int)
    requires IsRun(es, ss) && i < |es| && es[i] == OnRead(p, nread)
    ensures k < i && es[k] == Read(p, buffer, cb, rc) && PhaseAt(ss[k], p, Reading) == Quiet && rc >= 0
    ensures forall j :: k < j <= i ==> PhaseAt(ss[j], p, Reading).Pending?
    ensures ss[i].callbacks.Some? && ss[i + 1].callbacks == Some([Delivery(cb, nread)] + ss[i].callbacks.value)
  {
    RunInv(es, ss, i);
    assert PortInv(ss[i].ports[p].value);
    k := SubmissionOf(es, ss, i, p, Reading);
    buffer, cb, rc := es[k].buffer, es[k].cb, es[k].rc;
    ReadQueued(ss[i], p, nread);
  }

  lemma WriteQueued(s: State, p: nat, status: int)
    requires Enabled(s, OnWrite(p, status)) && s.ports[p].value.writeCallback.Some?
    ensures var port := s.ports[p].value;
            Apply(s, OnWrite(p, status)).callbacks ==
            Some([Delivery(port.writeCallback.value, if status < 0 then status else port.writeSize)]
                 + s.callbacks.value)
  {}

  /** A write completes through the callback of its own submission, with libuv's error or else the
      size that was submitted. */
  lemma {:induction false} WriteReports(es: seq<Event>, ss: seq<State>, i: nat, p: nat, status: int)
    returns (k: nat, buffer: Obj, buffer2: Option<Obj>, size: nat, cb: Obj, rc: int)
    requires IsRun(es, ss) && i < |es| && es[i] == OnWrite(p, status)
    ensures k < i && es[k] == Write(p, buffer, buffer2, size, cb, rc) && PhaseAt(ss[k], p, Writing) == Quiet && rc >= 0
    ensures forall j :: k < j <= i ==> PhaseAt(ss[j], p, Writing).Pending?
    ensures ss[i].callbacks.Some?
    ensures ss[i + 1].callbacks == Some([Delivery(cb, if status < 0 then status else size)] + ss[i].callbacks.value)
  {
    RunInv(es, ss, i);
    assert PortInv(ss[i].ports[p].value);
    k := SubmissionOf(es, ss, i, p, Writing);
    buffer, buffer2, size, cb, rc := es[k].buffer, es[k].buffer2, es[k].size, es[k].cb, es[k].rc;
    WriteQueued(ss[i], p, status);
  }

  lemma CloseQueued(s: State, p: nat)
    requires Enabled(s, OnClose(p))
    ensures var port := s.ports[p].value;
            Apply(s, OnClose(p)).callbacks ==
            Some([Delivery(port.closeCallback.value, 0)]
                 + (if port.readCallback.Some? then [Delivery(port.readCallback.value, EOF)] else [])
                 + s.callbacks.value)
  {
    var port, cs := s.ports[p].value, s.callbacks.value;
    var close := [Delivery(port.closeCallback.value, 0)];
    if port.readCallback.Some? {
      var read := [Delivery(port.readCallback.value, EOF)];
      assert close + (read + cs) == close + read + cs;
    } else {
      assert close + cs == close + [] + cs;
    }
  }

  /** A close completes through the callback of its own submission with 0, after a pending read
      has been completed with end of file. */
  lemma {:induction false} CloseReports(es: seq<Event>, ss: seq<State>, i: nat, p: nat) returns (k: nat, cb: Obj)
    requires IsRun(es, ss) && i < |es| && es[i] == OnClose(p)
    ensures k < i && es[k] == Close(p, cb) && PhaseAt(ss[k], p, Closing) == Quiet
    ensures ss[i].callbacks.Some?
    ensures var read := PhaseAt(ss[i], p, Reading);
            ss[i + 1].callbacks ==
            Some([Delivery(cb, 0)] + (if read.Pending? then [Delivery(read.cb, EOF)] else []) + ss[i].callbacks.value)
  {
    k := SubmissionOf(es, ss, i, p, Closing);
    cb := es[k].cb;
    CloseQueued(ss[i], p);
  }
}
