/**
 The code of stream ports: `stream_port_t` and the functions that overwrite its fields, the
 objects locked with Slock_object, and the list `g_callbacks`. Each method does to its port, to
 the locked objects and to the list what one step of the protocol does.
 */
module StreamPortCode {
  import opened Options
  import opened StreamPorts

  const EINVAL: int := -22
  const SIZE_MAX: int := 0xFFFF_FFFF_FFFF_FFFF
  const UINT32_MAX: int := 0xFFFF_FFFF

  datatype Outcome = Accepted | Refused(who: string, error: int)

  /** A call of Slock_object or Sunlock_object. */
  datatype LockCall = Lock(obj: Obj) | Unlock(obj: Obj)

  function Change(call: LockCall, x: Obj): int {
    if call.obj != x then 0 else if call.Lock? then 1 else -1
  }

  /** How often an object has been locked more than unlocked. */
  function Net(calls: seq<LockCall>, x: Obj): int {
    if calls == [] then 0 else Net(calls[..|calls| - 1], x) + Change(calls[|calls| - 1], x)
  }

  function Locking(buffer: Obj, buffer2: Option<Obj>, cb: Obj): seq<LockCall> {
    [Lock(buffer)] + (if buffer2.Some? then [Lock(buffer2.value)] else []) + [Lock(cb)]
  }

  function Unlocking(buffer: Obj, buffer2: Option<Obj>, cb: Obj): seq<LockCall> {
    [Unlock(buffer)] + (if buffer2.Some? then [Unlock(buffer2.value)] else []) + [Unlock(cb)]
  }

  /** A submission locks first, and unlocks again if libuv refuses it. */
  function Submitting(buffer: Obj, buffer2: Option<Obj>, cb: Obj, rc: int): seq<LockCall> {
    Locking(buffer, buffer2, cb) + if rc < 0 then Unlocking(buffer, buffer2, cb) else []
  }

  /** The calls made by a step of a port. */
  function LockCalls(p: Port, e: Event): seq<LockCall> {
    match e
    case Read(_, buffer, cb, rc) => if p.readCallback.Some? then [] else Submitting(buffer, None, cb, rc)
    case Write(_, buffer, buffer2, _, cb, rc) =>
      if p.writeCallback.Some? then [] else Submitting(buffer, buffer2, cb, rc)
    case Close(_, cb) => if p.closeCallback.Some? then [] else [Lock(cb)]
    case OnRead(_, _) => Unlocking(p.readBuffer, None, p.readCallback.GetOr(0))
    case OnWrite(_, _) => Unlocking(p.writeBuffer, p.writeBuffer2, p.writeCallback.GetOr(0))
    case OnClose(_) =>
      (if p.readCallback.Some? then Unlocking(p.readBuffer, None, p.readCallback.value) else [])
      + (if p.closeCallback.Some? then [Unlock(p.closeCallback.value)] else [])
    case _ => []
  }

  /** A port, the calls made so far and the completions, as a step of that port leaves them. */
  datatype View = View(port: Option<Port>, calls: seq<LockCall>, callbacks: Option<seq<Delivery>>)

  function Step(v: View, e: Event): View
    requires v.port.Some?
  {
    View(NextPort(v.port.value, e),
         v.calls + LockCalls(v.port.value, e),
         if v.callbacks.Some? then Some(Added(v.callbacks.value, PortEmits(v.port.value, e))) else None)
  }

  /** Each object is locked as often as a multiset says. */
  ghost predicate Counts(calls: seq<LockCall>, l: multiset<Obj>) {
    forall x :: Net(calls, x) == l[x]
  }

  ghost predicate Shows(v: View, s: State, p: nat) {
    && p < |s.ports| && v.port == s.ports[p] && v.callbacks == s.callbacks
    && Counts(v.calls, s.locked)
  }

  lemma NetLast(calls: seq<LockCall>, last: LockCall, x: Obj)
    ensures Net(calls + [last], x) == Net(calls, x) + Change(last, x)
  {
    assert (calls + [last])[..|calls|] == calls;
  }

  lemma {:induction false} NetAppend(calls: seq<LockCall>, more: seq<LockCall>, x: Obj)
    ensures Net(calls + more, x) == Net(calls, x) + Net(more, x)
  {
    if more == [] {
      assert calls + more == calls;
    } else {
      var n := |more| - 1;
      NetAppend(calls, more[..n], x);
      NetLast(calls + more[..n], more[n], x);
      assert calls + more == calls + more[..n] + [more[n]];
    }
  }

  lemma NetOne(c: LockCall, x: Obj)
    ensures Net([], x) == 0 && Net([c], x) == Change(c, x)
  {
    NetLast([], c, x);
    assert [] + [c] == [c];
  }

  lemma NetTwo(c: LockCall, d: LockCall, x: Obj)
    ensures Net([c] + [] + [d], x) == Change(c, x) + Change(d, x)
  {
    NetOne(c, x);
    NetLast([c], d, x);
    assert [c] + [] + [d] == [c] + [d];
  }

  lemma NetThree(c: LockCall, d: LockCall, f: LockCall, x: Obj)
    ensures Net([c] + [d] + [f], x) == Change(c, x) + Change(d, x) + Change(f, x)
  {
    NetOne(c, x);
    NetLast([c], d, x);
    NetLast([c] + [d], f, x);
  }

  function Times(a: Obj, x: Obj): int { if a == x then 1 else 0 }

  function TimesAll(buffer: Obj, buffer2: Option<Obj>, cb: Obj, x: Obj): int {
    Times(buffer, x) + (if buffer2.Some? then Times(buffer2.value, x) else 0) + Times(cb, x)
  }

  lemma NetLocking(buffer: Obj, buffer2: Option<Obj>, cb: Obj, x: Obj)
    ensures Net(Locking(buffer, buffer2, cb), x) == TimesAll(buffer, buffer2, cb, x)
    ensures Net(Unlocking(buffer, buffer2, cb), x) == -TimesAll(buffer, buffer2, cb, x)
  {
    if buffer2.Some? {
      NetThree(Lock(buffer), Lock(buffer2.value), Lock(cb), x);
      NetThree(Unlock(buffer), Unlock(buffer2.value), Unlock(cb), x);
    } else {
      NetTwo(Lock(buffer), Lock(cb), x);
      NetTwo(Unlock(buffer), Unlock(cb), x);
    }
  }

  lemma NetSubmitting(buffer: Obj, buffer2: Option<Obj>, cb: Obj, rc: int, x: Obj)
    ensures Net(Submitting(buffer, buffer2, cb, rc), x) == if rc < 0 then 0 else TimesAll(buffer, buffer2, cb, x)
  {
    NetLocking(buffer, buffer2, cb, x);
    if rc < 0 { NetAppend(Locking(buffer, buffer2, cb), Unlocking(buffer, buffer2, cb), x); }
    else { assert Submitting(buffer, buffer2, cb, rc) == Locking(buffer, buffer2, cb); }
  }

  lemma NetOnClose(p: Port, x: Obj)
    requires p.closeCallback.Some?
    ensures Net(LockCalls(p, OnClose(0)), x) ==
            -(if p.readCallback.Some? then TimesAll(p.readBuffer, None, p.readCallback.value, x) else 0)
            - Times(p.closeCallback.value, x)
  {
    var read := if p.readCallback.Some? then Unlocking(p.readBuffer, None, p.readCallback.value) else [];
    var close := [Unlock(p.closeCallback.value)];
    NetAppend(read, close, x);
    NetOne(close[0], x);
    if p.readCallback.Some? { NetLocking(p.readBuffer, None, p.readCallback.value, x); }
  }

  lemma TimesOf(buffer: Obj, buffer2: Option<Obj>, cb: Obj, x: Obj)
    ensures multiset{cb}[x] == Times(cb, x) && multiset{}[x] == 0
    ensures multiset{buffer, cb}[x] == TimesAll(buffer, None, cb, x)
    ensures (multiset{buffer, cb} + Second(buffer2))[x] == TimesAll(buffer, buffer2, cb, x)
  {}

  lemma TimesOfClose(a: multiset<Obj>, b: multiset<Obj>, x: Obj)
    ensures (a + b)[x] == a[x] + b[x]
  {}

  /** What a step locks less what it unlocks, for one object. */
  function Gain(p: Port, e: Event, x: Obj): int {
    (Locks(p, e)[x] as int) - Unlocks(p, e)[x]
  }

  lemma CallsOfRead(p: Port, e: Event, x: Obj)
    requires e.Read?
    ensures Net(LockCalls(p, e), x) == Gain(p, e, x)
  {
    NetSubmitting(e.buffer, None, e.cb, e.rc, x);
    TimesOf(e.buffer, None, e.cb, x);
  }

  lemma CallsOfWrite(p: Port, e: Event, x: Obj)
    requires e.Write?
    ensures Net(LockCalls(p, e), x) == Gain(p, e, x)
  {
    NetSubmitting(e.buffer, e.buffer2, e.cb, e.rc, x);
    TimesOf(e.buffer, e.buffer2, e.cb, x);
  }

  lemma CallsOfClose(p: Port, e: Event, x: Obj)
    requires e.Close?
    ensures Net(LockCalls(p, e), x) == Gain(p, e, x)
  {
    NetOne(Lock(e.cb), x);
    TimesOf(0, None, e.cb, x);
  }

  lemma CallsOfReadDone(p: Port, e: Event, x: Obj)
    requires e.OnRead? && p.readCallback.Some?
    ensures Net(LockCalls(p, e), x) == Gain(p, e, x)
  {
    NetLocking(p.readBuffer, None, p.readCallback.value, x);
    TimesOf(p.readBuffer, None, p.readCallback.value, x);
  }

  lemma CallsOfWriteDone(p: Port, e: Event, x: Obj)
    requires e.OnWrite? && p.writeCallback.Some?
    ensures Net(LockCalls(p, e), x) == Gain(p, e, x)
  {
    NetLocking(p.writeBuffer, p.writeBuffer2, p.writeCallback.value, x);
    TimesOf(p.writeBuffer, p.writeBuffer2, p.writeCallback.value, x);
  }

  lemma CallsOfCloseDone(p: Port, e: Event, x: Obj)
    requires e.OnClose? && p.closeCallback.Some?
    ensures Net(LockCalls(p, e), x) == Gain(p, e, x)
  {
    NetOnClose(p, x);
    TimesOfClose(HeldFor(p, Reading), HeldFor(p, Closing), x);
    TimesOf(0, None, p.closeCallback.value, x);
    if p.readCallback.Some? { TimesOf(p.readBuffer, None, p.readCallback.value, x); }
  }

  /** The calls of a step amount to what the protocol says it locks and unlocks. */
  lemma CallsStep(p: Port, e: Event, x: Obj)
    requires PortInv(p) && PortEnabled(p, e)
    ensures Net(LockCalls(p, e), x) == Gain(p, e, x)
  {
    match e
    case Read(_, _, _, _) => CallsOfRead(p, e, x);
    case Write(_, _, _, _, _, _) => CallsOfWrite(p, e, x);
    case Close(_, _) => CallsOfClose(p, e, x);
    case OnRead(_, _) => CallsOfReadDone(p, e, x);
    case OnWrite(_, _) => CallsOfWriteDone(p, e, x);
    case OnClose(_) => CallsOfCloseDone(p, e, x);
    case _ =>
  }

  lemma Difference(l: multiset<Obj>, more: multiset<Obj>, less: multiset<Obj>, x: Obj)
    requires less <= l + more
    ensures (l + more - less)[x] == l[x] + more[x] - less[x]
  {}

  lemma Covered(before: multiset<Obj>, after: multiset<Obj>, more: multiset<Obj>, less: multiset<Obj>, l: multiset<Obj>)
    requires before <= l && after + less == before + more
    ensures less <= l + more
  {
    assert after + less <= l + more;
  }

  lemma StepCount(calls: seq<LockCall>, l: multiset<Obj>, p: Port, e: Event, x: Obj)
    requires PortInv(p) && PortEnabled(p, e) && Net(calls, x) == l[x] && Unlocks(p, e) <= l + Locks(p, e)
    ensures Net(calls + LockCalls(p, e), x) == (l + Locks(p, e) - Unlocks(p, e))[x]
  {
    NetAppend(calls, LockCalls(p, e), x);
    CallsStep(p, e, x);
    Difference(l, Locks(p, e), Unlocks(p, e), x);
  }

  lemma StepCounts(calls: seq<LockCall>, l: multiset<Obj>, p: Port, e: Event)
    requires PortInv(p) && PortEnabled(p, e) && Counts(calls, l) && Unlocks(p, e) <= l + Locks(p, e)
    ensures Counts(calls + LockCalls(p, e), l + Locks(p, e) - Unlocks(p, e))
  {
    forall x ensures Net(calls + LockCalls(p, e), x) == (l + Locks(p, e) - Unlocks(p, e))[x] {
      StepCount(calls, l, p, e, x);
    }
  }

  /** A step never unlocks an object that is not locked. */
  lemma UnlocksLocked(s: State, e: Event)
    requires OnPort(e) && Enabled(s, e) && PortsInv(s.ports) && s.locked == HeldByAll(s.ports)
    ensures var port := s.ports[e.p].value; Unlocks(port, e) <= s.locked + Locks(port, e)
  {
    var port := s.ports[e.p].value;
    HeldStep(port, e);
    HeldUpdate(s.ports, e.p, None);
    Covered(Held(port), HeldAt(NextPort(port, e)), Locks(port, e), Unlocks(port, e), s.locked);
  }

  lemma ApplyParts(s: State, e: Event)
    requires OnPort(e) && Enabled(s, e)
    ensures var port, s' := s.ports[e.p].value, Apply(s, e);
            && s'.ports == s.ports[e.p := NextPort(port, e)]
            && s'.locked == s.locked + Locks(port, e) - Unlocks(port, e)
            && s'.callbacks == if s.callbacks.Some? then Some(Added(s.callbacks.value, PortEmits(port, e))) else None
  {}

  lemma StepShows(v: View, s: State, e: Event, s': State)
    requires OnPort(e) && e.p < |s.ports| && s.ports[e.p].Some? && Shows(v, s, e.p)
    requires var port := s.ports[e.p].value;
             && s'.ports == s.ports[e.p := NextPort(port, e)]
             && Counts(v.calls + LockCalls(port, e), s'.locked)
             && s'.callbacks == if s.callbacks.Some? then Some(Added(s.callbacks.value, PortEmits(port, e))) else None
    ensures Shows(Step(v, e), s', e.p)
  {}

  lemma CountsApply(calls: seq<LockCall>, s: State, e: Event)
    requires OnPort(e) && Enabled(s, e) && PortsInv(s.ports)
    requires s.locked == HeldByAll(s.ports) && Counts(calls, s.locked)
    ensures Counts(calls + LockCalls(s.ports[e.p].value, e), Apply(s, e).locked)
  {
    ApplyParts(s, e);
    UnlocksLocked(s, e);
    assert PortInv(s.ports[e.p].value);
    StepCounts(calls, s.locked, s.ports[e.p].value, e);
  }

  /** A step of a port is that step of the protocol: its calls lock and unlock each object as
      often as the protocol says, and other ports stay as they were. */
  lemma StepApplies(v: View, s: State, e: Event)
    requires OnPort(e) && Enabled(s, e) && PortsInv(s.ports) && s.locked == HeldByAll(s.ports) && Shows(v, s, e.p)
    ensures Shows(Step(v, e), Apply(s, e), e.p)
    ensures Apply(s, e).ports == s.ports[e.p := Step(v, e).port]
  {
    var port := s.ports[e.p].value;
    ApplyParts(s, e);
    CountsApply(v.calls, s, e);
    StepShows(v, s, e, Apply(s, e));
  }

  class Osi {
    var calls: seq<LockCall>
    var callbacks: Option<seq<Delivery>>
    ghost var returned: seq<seq<Delivery>>

    /** The globals as the protocol has them. */
    ghost predicate Mirrors(s: State)
      reads this
    {
      Counts(calls, s.locked) && callbacks == s.callbacks && returned == s.returned
    }

    constructor ()
      ensures Mirrors(Init())
    {
      calls, callbacks, returned := [], None, [];
    }

    method Lock(x: Obj)
      modifies this`calls
      ensures calls == old(calls) + [LockCall.Lock(x)]
    {
      calls := calls + [LockCall.Lock(x)];
    }

    method Unlock(x: Obj)
      modifies this`calls
      ensures calls == old(calls) + [LockCall.Unlock(x)]
    {
      calls := calls + [LockCall.Unlock(x)];
    }

    /** The calls on the objects of one request, in the order of the code. */
    method LockAll(buffer: Obj, buffer2: Option<Obj>, cb: Obj)
      modifies this`calls
      ensures calls == old(calls) + Locking(buffer, buffer2, cb)
    {
      Lock(buffer);
      if buffer2.Some? { Lock(buffer2.value); }
      Lock(cb);
    }

    method UnlockAll(buffer: Obj, buffer2: Option<Obj>, cb: Obj)
      modifies this`calls
      ensures calls == old(calls) + Unlocking(buffer, buffer2, cb)
    {
      Unlock(buffer);
      if buffer2.Some? { Unlock(buffer2.value); }
      Unlock(cb);
    }

    method AddCallback1(callback: Obj, arg: int)
      requires callbacks.Some?
      modifies this`callbacks
      ensures callbacks == Some([Delivery(callback, arg)] + old(callbacks.value))
    {
      callbacks := Some([Delivery(callback, arg)] + callbacks.value);
    }

    /** The first line of osi_get_callbacks is the step that opens a list. */
    method BeginCallbacks(ghost s: State)
      requires Mirrors(s) && Enabled(s, Begin)
      modifies this`callbacks
      ensures Mirrors(Apply(s, Begin))
    {
      callbacks := Some([]);
    }

    /** Its last lines are the step that returns the list. */
    method EndCallbacks(ghost s: State) returns (list: seq<Delivery>)
      requires Mirrors(s) && Enabled(s, End)
      modifies this`callbacks, this`returned
      ensures Mirrors(Apply(s, End)) && Apply(s, End).returned == s.returned + [list]
    {
      list := callbacks.value;
      callbacks := None;
      returned := returned + [list];
    }
  }

  /** Sums of a size_t wrap around. */
  function SizeAdd(a: int, b: int): int { (a + b) % (SIZE_MAX + 1) }

  predicate Fits(start: nat, size: nat, length: nat) { 0 < size && start + size <= length }

  predicate Fits2(length: nat, start2: nat, size2: nat, length2: nat) {
    start2 + size2 <= length2 && length + size2 <= UINT32_MAX
  }

  /** A range of a bytevector of some length. */
  datatype Region = Region(start: nat, size: nat, ghost length: nat)

  ghost predicate Inside(r: Region) { r.start + r.size <= r.length }

  /** A buffer given to uv_write: some bytes of a bytevector. */
  datatype Span = Span(buffer: Obj, start: nat, size: nat)

  function Total(spans: seq<Span>): nat {
    if spans == [] then 0 else Total(spans[..|spans| - 1]) + spans[|spans| - 1].size
  }

  lemma TotalOf(a: Span, b: Span)
    ensures Total([a]) == a.size && Total([a, b]) == a.size + b.size
  {
    assert [a, b][..1] == [a] && [a][..0] == [];
  }

  /** The test of osi_read_port and osi_write_port, made on wrapped sums, refuses just the
      empty range and the ranges that leave the bytevector. */
  method InRange(start: nat, size: nat, length: nat) returns (ok: bool)
    requires start <= SIZE_MAX && size <= UINT32_MAX && length <= SIZE_MAX
    ensures ok <==> Fits(start, size, length)
  {
    var last := SizeAdd(start, size);
    ok := !(last <= start || last > length);
  }

  /** The test of osi_tcp_write2 allows an empty second range, and bounds the total. */
  method InRange2(length: nat, start2: nat, size2: nat, length2: nat) returns (ok: bool)
    requires start2 <= SIZE_MAX && size2 <= UINT32_MAX && length2 <= SIZE_MAX
    requires length <= SIZE_MAX / 2
    ensures ok <==> Fits2(length, start2, size2, length2)
  {
    var last2 := SizeAdd(start2, size2);
    var total := SizeAdd(length, size2);
    ok := !(last2 < start2 || last2 > length2 || total > UINT32_MAX);
  }

  class StreamPort {
    const io: Osi
    const p: nat
    var live: bool
    var closeCallback: Option<Obj>
    var readBuffer: Obj
    var readCallback: Option<Obj>
    var writeBuffer: Obj
    var writeBuffer2: Option<Obj>
    var writeSize: nat
    var writeCallback: Option<Obj>
    var region: Region            // read_start_index and read_size
    var reading: bool             // the handle's own state
    var writing: bool

    function PortOf(): Option<Port>
      reads this
    {
      if !live then None
      else Some(Port(readCallback, readBuffer, writeCallback, writeBuffer, writeBuffer2, writeSize,
                     closeCallback, reading, writing))
    }

    function Seen(): View
      reads this, io
    {
      View(PortOf(), io.calls, io.callbacks)
    }

    /** What holds of every live port in a run, with a region to read into that lies within
        its bytevector. */
    ghost predicate Valid()
      reads this
    {
      && live && PortInv(PortOf().value)
      && (readCallback.Some? ==> Inside(region))
    }

    constructor (io: Osi, p: nat)
      ensures Valid() && PortOf() == Some(NEW_PORT) && this.io == io && this.p == p
    {
      this.io, this.p := io, p;
      live := true;
      closeCallback, readCallback, writeCallback := None, None, None;
      readBuffer, region := 0, Region(0, 0, 0);
      writeBuffer, writeBuffer2, writeSize := 0, None, 0;
      reading, writing := false, false;
    }

    /** read_stream_port once nothing is in its way. */
    method StartRead(buffer: Obj, r0: Region, cb: Obj, rc: int) returns (r: Outcome)
      requires Valid() && Inside(r0) && PortEnabled(PortOf().value, Event.Read(p, buffer, cb, rc)) && readCallback.None?
      modifies this, io
      ensures Valid()
      ensures Seen() == Step(old(Seen()), Event.Read(p, buffer, cb, rc))
      ensures r == if rc < 0 then Refused("uv_read_start", rc) else Accepted
      ensures r.Accepted? ==> region == r0 && readBuffer == buffer
    {
      io.LockAll(buffer, None, cb);
      readBuffer, region, readCallback := buffer, r0, Some(cb);
      reading := reading || rc >= 0;
      if rc < 0 {
        io.UnlockAll(buffer, None, cb);
        readCallback := None;
        return Refused("uv_read_start", rc);
      }
      r := Accepted;
    }

    /** read_stream_port; `rc` is what uv_read_start answers. */
    method ReadStream(buffer: Obj, r0: Region, offset: int, cb: Obj, rc: int) returns (r: Outcome)
      requires Valid() && Inside(r0) && PortEnabled(PortOf().value, Event.Read(p, buffer, cb, rc))
      modifies this, io
      ensures Valid()
      ensures Seen() == if offset == -1 then Step(old(Seen()), Event.Read(p, buffer, cb, rc)) else old(Seen())
      ensures r == if offset != -1 then Refused("osi_read_port", EINVAL)
                   else if old(readCallback).Some? then Refused("osi_read_port", EBUSY)
                   else if rc < 0 then Refused("uv_read_start", rc) else Accepted
      ensures r.Accepted? ==> region == r0 && readBuffer == buffer
    {
      if offset != -1 { return Refused("osi_read_port", EINVAL); }
      if readCallback.Some? { return Refused("osi_read_port", EBUSY); }
      r := StartRead(buffer, r0, cb, rc);
    }

    /** osi_read_port */
    method Read(buffer: Obj, length: nat, start: nat, size: nat, offset: int, cb: Obj, rc: int) returns (r: Outcome)
      requires Valid() && PortEnabled(PortOf().value, Event.Read(p, buffer, cb, rc))
      requires start <= SIZE_MAX && size <= UINT32_MAX && length <= SIZE_MAX
      modifies this, io
      ensures Valid()
      ensures Fits(start, size, length) && offset == -1 ==> Seen() == Step(old(Seen()), Event.Read(p, buffer, cb, rc))
      ensures !Fits(start, size, length) || offset != -1 ==>
                r == Refused("osi_read_port", EINVAL) && Seen() == old(Seen())
      ensures r.Accepted? <==>
                && Fits(start, size, length) && offset == -1
                && old(Accepts(PortOf().value, Event.Read(p, buffer, cb, rc)))
      ensures r.Refused? && Fits(start, size, length) && offset == -1 ==>
                r == if old(readCallback).Some? then Refused("osi_read_port", EBUSY) else Refused("uv_read_start", rc)
      ensures r.Accepted? ==> readBuffer == buffer && region == Region(start, size, length)
    {
      var ok := InRange(start, size, length);
      if !ok { return Refused("osi_read_port", EINVAL); }
      r := ReadStream(buffer, Region(start, size, length), offset, cb, rc);
    }

    /** read_stream_alloc_cb: the region given to libuv lies within the bytevector. */
    method AllocateRead() returns (buffer: Obj, start: nat, size: nat)
      requires Valid() && reading && closeCallback.None?
      ensures buffer == readBuffer && start == region.start && size == region.size && start + size <= region.length
    {
      buffer, start, size := readBuffer, region.start, region.size;
    }

    /** write_stream_port; `rc` is what uv_write answers when it is given `handed`. */
    method WriteStream(buffer: Obj, start: nat, size: nat, offset: int, cb: Obj, rc: int)
      returns (r: Outcome, handed: seq<Span>)
      requires Valid() && PortEnabled(PortOf().value, Event.Write(p, buffer, None, size, cb, rc))
      modifies this, io
      ensures Valid()
      ensures Seen() ==
              if offset == -1 then Step(old(Seen()), Event.Write(p, buffer, None, size, cb, rc)) else old(Seen())
      ensures r == if offset != -1 then Refused("osi_write_port", EINVAL)
                   else if old(writeCallback).Some? then Refused("osi_write_port", EBUSY)
                   else if rc < 0 then Refused("uv_write", rc) else Accepted
      ensures handed == if offset != -1 || old(writeCallback).Some? then [] else [Span(buffer, start, size)]
      ensures r.Accepted? ==> writeSize == Total(handed)
    {
      if offset != -1 { return Refused("osi_write_port", EINVAL), []; }
      if writeCallback.Some? { return Refused("osi_write_port", EBUSY), []; }
      io.LockAll(buffer, None, cb);
      writeBuffer, writeBuffer2, writeSize, writeCallback := buffer, None, size, Some(cb);
      handed := [Span(buffer, start, size)];
      TotalOf(handed[0], handed[0]);
      writing := rc >= 0;
      if rc < 0 {
        io.UnlockAll(buffer, None, cb);
        writeCallback := None;
        return Refused("uv_write", rc), handed;
      }
      r := Accepted;
    }

    /** osi_write_port; what it hands to libuv lies within the bytevector. */
    method Write(buffer: Obj, length: nat, start: nat, size: nat, offset: int, cb: Obj, rc: int)
      returns (r: Outcome, handed: seq<Span>)
      requires Valid() && PortEnabled(PortOf().value, Event.Write(p, buffer, None, size, cb, rc))
      requires start <= SIZE_MAX && size <= UINT32_MAX && length <= SIZE_MAX
      modifies this, io
      ensures Valid()
      ensures Fits(start, size, length) && offset == -1 ==>
                Seen() == Step(old(Seen()), Event.Write(p, buffer, None, size, cb, rc))
      ensures !Fits(start, size, length) || offset != -1 ==>
                r == Refused("osi_write_port", EINVAL) && Seen() == old(Seen())
      ensures r.Accepted? <==>
                && Fits(start, size, length) && offset == -1
                && old(Accepts(PortOf().value, Event.Write(p, buffer, None, size, cb, rc)))
      ensures r.Refused? && Fits(start, size, length) && offset == -1 ==>
                r == if old(writeCallback).Some? then Refused("osi_write_port", EBUSY) else Refused("uv_write", rc)
      ensures r.Accepted? ==> handed == [Span(buffer, start, size)] && writeSize == Total(handed)
      ensures forall span :: span in handed ==> span.start + span.size <= length
    {
      var ok := InRange(start, size, length);
      if !ok { return Refused("osi_write_port", EINVAL), []; }
      r, handed := WriteStream(buffer, start, size, offset, cb, rc);
    }

    /** osi_tcp_write2, past its range check: all of one bytevector and part of another. */
    method WriteBoth(first: Span, second: Span, cb: Obj, rc: int) returns (r: Outcome, handed: seq<Span>)
      requires Valid()
      requires PortEnabled(PortOf().value,
                           Event.Write(p, first.buffer, Some(second.buffer), first.size + second.size, cb, rc))
      modifies this, io
      ensures Valid()
      ensures Seen() ==
              Step(old(Seen()), Event.Write(p, first.buffer, Some(second.buffer), first.size + second.size, cb, rc))
      ensures r == if old(writeCallback).Some? then Refused("osi_tcp_write2", EBUSY)
                   else if rc < 0 then Refused("uv_write", rc) else Accepted
      ensures handed == if old(writeCallback).Some? then [] else [first, second]
      ensures r.Accepted? ==> writeSize == first.size + second.size
    {
      if writeCallback.Some? { return Refused("osi_tcp_write2", EBUSY), []; }
      io.LockAll(first.buffer, Some(second.buffer), cb);
      writeBuffer, writeBuffer2, writeSize, writeCallback :=
        first.buffer, Some(second.buffer), first.size + second.size, Some(cb);
      handed := [first, second];
      writing := rc >= 0;
      if rc < 0 {
        io.UnlockAll(first.buffer, Some(second.buffer), cb);
        writeCallback := None;
        writeBuffer2 := None;
        return Refused("uv_write", rc), handed;
      }
      r := Accepted;
    }

    /** osi_tcp_write2 */
    method Write2(buffer: Obj, length: nat, buffer2: Obj, length2: nat, start2: nat, size2: nat, cb: Obj, rc: int)
      returns (r: Outcome, handed: seq<Span>)
      requires Valid() && PortEnabled(PortOf().value, Event.Write(p, buffer, Some(buffer2), length + size2, cb, rc))
      requires start2 <= SIZE_MAX && size2 <= UINT32_MAX && length2 <= SIZE_MAX && length <= SIZE_MAX / 2
      modifies this, io
      ensures Valid()
      ensures Fits2(length, start2, size2, length2) ==>
                Seen() == Step(old(Seen()), Event.Write(p, buffer, Some(buffer2), length + size2, cb, rc))
      ensures !Fits2(length, start2, size2, length2) ==>
                r == Refused("osi_tcp_write2", EINVAL) && Seen() == old(Seen())
      ensures r.Accepted? <==>
                && Fits2(length, start2, size2, length2)
                && old(Accepts(PortOf().value, Event.Write(p, buffer, Some(buffer2), length + size2, cb, rc)))
      ensures r.Refused? && Fits2(length, start2, size2, length2) ==>
                r == if old(writeCallback).Some? then Refused("osi_tcp_write2", EBUSY) else Refused("uv_write", rc)
      ensures r.Accepted? ==>
                handed == [Span(buffer, 0, length), Span(buffer2, start2, size2)] && writeSize == Total(handed)
      ensures handed != [] ==> start2 + size2 <= length2
    {
      var ok := InRange2(length, start2, size2, length2);
      if !ok { return Refused("osi_tcp_write2", EINVAL), []; }
      var first, second := Span(buffer, 0, length), Span(buffer2, start2, size2);
      TotalOf(first, second);
      r, handed := WriteBoth(first, second, cb, rc);
    }

    /** close_stream_port */
    method Close(cb: Obj) returns (r: Outcome)
      requires Valid()
      modifies this, io
      ensures Valid()
      ensures Seen() == Step(old(Seen()), Event.Close(p, cb))
      ensures r == if old(closeCallback).Some? then Refused("osi_close_port", EBUSY) else Accepted
    {
      if closeCallback.Some? { return Refused("osi_close_port", EBUSY); }
      io.Lock(cb);
      closeCallback := Some(cb);
      r := Accepted;
    }

    /** read_stream_cb */
    method ReadCallback(nread: int)
      requires Valid() && PortEnabled(PortOf().value, OnRead(p, nread)) && io.callbacks.Some?
      modifies this, io
      ensures Valid()
      ensures Seen() == Step(old(Seen()), OnRead(p, nread))
      ensures readCallback == None
      ensures io.callbacks == Some([Delivery(old(readCallback).value, nread)] + old(io.callbacks.value))
    {
      reading := false;
      var callback := readCallback.value;
      io.Unlock(readBuffer);
      io.Unlock(callback);
      readCallback := None;
      io.AddCallback1(callback, nread);
    }

    /** write_stream_cb */
    method WriteCallback(status: int)
      requires Valid() && PortEnabled(PortOf().value, OnWrite(p, status)) && io.callbacks.Some?
      modifies this, io
      ensures Valid()
      ensures Seen() == Step(old(Seen()), OnWrite(p, status))
      ensures writeCallback == None
      ensures var arg := if status < 0 then status else old(writeSize);
              io.callbacks == Some([Delivery(old(writeCallback).value, arg)] + old(io.callbacks.value))
    {
      writing := false;
      var callback := writeCallback.value;
      io.Unlock(writeBuffer);
      if writeBuffer2.Some? {
        io.Unlock(writeBuffer2.value);
        writeBuffer2 := None;
      }
      io.Unlock(callback);
      writeCallback := None;
      io.AddCallback1(callback, if status < 0 then status else writeSize);
    }

    /** close_stream_cb frees the port. */
    method CloseCallback()
      requires Valid() && PortEnabled(PortOf().value, OnClose(p)) && io.callbacks.Some?
      modifies this, io
      ensures PortOf() == None
      ensures Seen() == Step(old(Seen()), OnClose(p))
      ensures var eof := if old(readCallback).Some? then [Delivery(old(readCallback).value, EOF)] else [];
              io.callbacks == Some([Delivery(old(closeCallback).value, 0)] + eof + old(io.callbacks.value))
    {
      var callback, read, buffer := closeCallback, readCallback, readBuffer;
      live := false;
      if read.Some? {
        io.Unlock(buffer);
        io.Unlock(read.value);
        io.AddCallback1(read.value, EOF);
      }
      if callback.Some? {
        io.Unlock(callback.value);
        io.AddCallback1(callback.value, 0);
      }
      ghost var queued := old(io.callbacks.value);
      if read.Some? {
        assert [Delivery(callback.value, 0)] + ([Delivery(read.value, EOF)] + queued) ==
               [Delivery(callback.value, 0)] + [Delivery(read.value, EOF)] + queued;
      } else {
        assert [Delivery(callback.value, 0)] + [] + queued == [Delivery(callback.value, 0)] + queued;
      }
    }
  }
}
