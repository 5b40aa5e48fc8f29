/**
 `osi_send_request`: foreign threads hand a handler and a payload to the Scheme
 thread through one global slot. The protocol is a transition system whose steps
 are cut at mutex acquire, release and wait; any caller may take the mutex ahead
 of a waiter that was signalled, and any waiter may wake up for no reason.
 A caller's condition variable lives on its stack, so it is named by its thread.
 */
module SendRequestProtocol {
  import opened Options

  type Tid = nat

  // A handler and its argument; code 0 is the null pointer.
  datatype Request = Request(code: nat, payload: nat)

  const EINVAL: int := -22
  const EPERM: int := -1

  datatype PC =
    | Idle                       // not inside osi_send_request
    | Locking(req: Request)      // wants the mutex for the first test of `sender`
    | Testing(req: Request)      // has the mutex, about to test `sender`
    | Queued(req: Request)       // waits on the shared condition variable
    | Rechecking(req: Request)   // woken from it, wants the mutex to test again
    | Sent(req: Request)         // has the mutex, uv_async_send succeeded
    | Waiting(req: Request)      // registered, waits on its own condition variable
    | Relocking(req: Request)    // woken from it, wants the mutex
    | Retesting(req: Request)    // has the mutex, about to test `sender` against its own
    | Leaving(req: Request)      // has the mutex, own condition variable destroyed
  {
    predicate HasMutex() { Testing? || Sent? || Retesting? || Leaving? }
    predicate HasSelf() { Waiting? || Relocking? || Retesting? }
    predicate WantsMutex() { Locking? || Rechecking? || Relocking? }
  }

  // The callback of the async handle, on the Scheme thread.
  datatype LoopPC = Polling | Called | Running

  datatype Owner = Caller(t: Tid) | Loop

  datatype State = State(
    scheme: Tid,
    threads: seq<PC>,
    loop: LoopPC,
    owner: Option<Owner>,             // of the mutex
    token: bool,                      // an async wake-up is outstanding
    code: nat,
    payload: nat,
    sender: Option<Tid>,
    live: set<Tid>,                   // condition variables initialised and not destroyed
    fault: bool)                      // a null handler was called or a dead condition variable signalled

  datatype Event =
    | Enter(t: Tid, req: Request)
    | Lock(t: Tid)
    | Wait(t: Tid)
    | Send(t: Tid)
    | SendFails(t: Tid, rc: int)
    | Register(t: Tid)
    | Relock(t: Tid)
    | Rewait(t: Tid)
    | Destroy(t: Tid)
    | Leave(t: Tid, woken: Option<Tid>)
    | Callback
    | LoopLock
    | Run
    | SpuriousQueued(t: Tid)
    | SpuriousWaiting(t: Tid)

  predicate Spurious(e: Event) { e.SpuriousQueued? || e.SpuriousWaiting? }

  predicate Rejected(s: State, t: Tid, req: Request) { req.code == 0 || t == s.scheme }

  predicate At(s: State, t: Tid) { t < |s.threads| }

  /** A signal wakes a waiter when there is one. */
  predicate Wakes(s: State, woken: Option<Tid>) {
    match woken
    case Some(w) => At(s, w) && s.threads[w].Queued?
    case None => forall w :: 0 <= w < |s.threads| ==> !s.threads[w].Queued?
  }

  predicate Enabled(s: State, e: Event) {
    match e
    case Enter(t, _) => At(s, t) && s.threads[t].Idle?
    case Lock(t) => At(s, t) && (s.threads[t].Locking? || s.threads[t].Rechecking?) && s.owner.None?
    case Wait(t) => At(s, t) && s.threads[t].Testing? && s.sender.Some?
    case Send(t) => At(s, t) && s.threads[t].Testing? && s.sender.None?
    case SendFails(t, rc) => At(s, t) && s.threads[t].Testing? && s.sender.None? && rc != 0
    case Register(t) => At(s, t) && s.threads[t].Sent?
    case Relock(t) => At(s, t) && s.threads[t].Relocking? && s.owner.None?
    case Rewait(t) => At(s, t) && s.threads[t].Retesting? && s.sender == Some(t)
    case Destroy(t) => At(s, t) && s.threads[t].Retesting? && s.sender != Some(t)
    case Leave(t, woken) => At(s, t) && s.threads[t].Leaving? && Wakes(s, woken)
    case Callback => s.loop.Polling? && s.token
    case LoopLock => s.loop.Called? && s.owner.None?
    case Run => s.loop.Running?
    case SpuriousQueued(t) => At(s, t) && s.threads[t].Queued?
    case SpuriousWaiting(t) => At(s, t) && s.threads[t].Waiting?
  }

  function Move(s: State, t: Tid, pc: PC): State
    requires At(s, t)
  {
    s.(threads := s.threads[t := pc])
  }

  /** Waking t where it sleeps; anywhere else the signal is lost. */
  function Woken(pc: PC): PC {
    match pc
    case Queued(req) => Rechecking(req)
    case Waiting(req) => Relocking(req)
    case _ => pc
  }

  function Apply(s: State, e: Event): State
    requires Enabled(s, e)
  {
    match e
    case Enter(t, req) =>
      if Rejected(s, t, req) then s else Move(s, t, Locking(req))
    case Lock(t) => Move(s, t, Testing(s.threads[t].req)).(owner := Some(Caller(t)))
    case Wait(t) => Move(s, t, Queued(s.threads[t].req)).(owner := None)
    case Send(t) => Move(s, t, Sent(s.threads[t].req)).(token := true)
    case SendFails(t, rc) => Move(s, t, Idle).(owner := None)
    case Register(t) =>
      var req := s.threads[t].req;
      Move(s, t, Waiting(req)).(code := req.code, payload := req.payload, sender := Some(t),
                                live := s.live + {t}, owner := None)
    case Relock(t) => Move(s, t, Retesting(s.threads[t].req)).(owner := Some(Caller(t)))
    case Rewait(t) => Move(s, t, Waiting(s.threads[t].req)).(owner := None)
    case Destroy(t) => Move(s, t, Leaving(s.threads[t].req)).(live := s.live - {t})
    case Leave(t, woken) =>
      var s' := if woken.Some? then Move(s, woken.value, Woken(s.threads[woken.value])) else s;
      Move(s', t, Idle).(owner := None)
    case Callback => s.(token := false, loop := Called)
    case LoopLock => s.(loop := Running, owner := Some(Loop))
    case Run =>
      var s' := s.(code := 0, payload := 0, sender := None, loop := Polling, owner := None);
      if s.code == 0 || s.sender.None? || s.sender.value !in s.live || !At(s, s.sender.value)
      then s'.(fault := true)
      else Move(s', s.sender.value, Woken(s.threads[s.sender.value]))
    case SpuriousQueued(t) => Move(s, t, Woken(s.threads[t]))
    case SpuriousWaiting(t) => Move(s, t, Woken(s.threads[t]))
  }

  function Init(n: nat, scheme: Tid): State {
    State(scheme, seq(n, i => Idle), Polling, None, false, 0, 0, None, {}, false)
  }

  /** A run: the states passed through, one event between neighbours. */
  ghost predicate IsRun(n: nat, scheme: Tid, es: seq<Event>, ss: seq<State>) {
    && |ss| == |es| + 1 && ss[0] == Init(n, scheme)
    && forall i :: 0 <= i < |es| ==> Enabled(ss[i], es[i]) && ss[i + 1] == Apply(ss[i], es[i])
  }

  // ---------- what each caller observes ----------

  datatype Entry =
    | Entered(t: Tid, req: Request)
    | Ran(t: Tid, req: Request)       // the handler ran while t's condition variable was registered
    | Returned(t: Tid, rc: int)
    | Refused(t: Tid, rc: int)        // entered and returned at once

  /** What a step adds to the history of calls and handler runs. */
  function Emits(s: State, e: Event): Option<Entry>
    requires Enabled(s, e)
  {
    match e
    case Enter(t, req) =>
      if !Rejected(s, t, req) then Some(Entered(t, req))
      else Some(Refused(t, if req.code == 0 then EINVAL else EPERM))
    case SendFails(t, rc) => Some(Returned(t, rc))
    case Leave(t, _) => Some(Returned(t, 0))
    case Run => if s.sender.Some? then Some(Ran(s.sender.value, Request(s.code, s.payload))) else None
    case _ => None
  }

  datatype Phase = Outside | Inside(req: Request) | Served(req: Request) | Broken

  /** One thread's view of the history: a call that returns 0 has had its own handler run
      on its own payload exactly once since it was entered; one that fails has not had it run. */
  function Observe(p: Phase, entry: Option<Entry>, t: Tid): Phase {
    if entry.None? || entry.value.t != t then p
    else match (p, entry.value)
      case (Outside, Entered(_, req)) => Inside(req)
      case (Outside, Refused(_, rc)) => if rc != 0 then Outside else Broken
      case (Inside(r), Ran(_, req)) => if r == req then Served(r) else Broken
      case (Served(_), Returned(_, rc)) => if rc == 0 then Outside else Broken
      case (Inside(_), Returned(_, rc)) => if rc != 0 then Outside else Broken
      case _ => Broken
  }

  /** t's view after the first i steps of a run. */
  function Observed(es: seq<Event>, ss: seq<State>, i: nat, t: Tid): Phase
    requires i <= |es| <= |ss| && forall k :: 0 <= k < i ==> Enabled(ss[k], es[k])
  {
    if i == 0 then Outside
    else Observe(Observed(es, ss, i - 1, t), Emits(ss[i - 1], es[i - 1]), t)
  }

  function PhaseOf(pc: PC, registered: bool): Phase {
    match pc
    case Idle => Outside
    case Locking(r) => Inside(r)
    case Testing(r) => Inside(r)
    case Queued(r) => Inside(r)
    case Rechecking(r) => Inside(r)
    case Sent(r) => Inside(r)
    case Waiting(r) => if registered then Inside(r) else Served(r)
    case Relocking(r) => if registered then Inside(r) else Served(r)
    case Retesting(r) => if registered then Inside(r) else Served(r)
    case Leaving(r) => Served(r)
  }

  function PhaseAt(s: State, t: Tid): Phase
    requires At(s, t)
  {
    PhaseOf(s.threads[t], s.sender == Some(t))
  }

  // ---------- the invariant ----------

  /** A caller has sent the wake-up and is about to register. */
  predicate Sending(s: State) {
    s.owner.Some? && s.owner.value.Caller? && At(s, s.owner.value.t) && s.threads[s.owner.value.t].Sent?
  }

  ghost predicate ThreadInv(s: State, t: Tid)
    requires At(s, t)
  {
    var pc := s.threads[t];
    && (pc.HasMutex() <==> s.owner == Some(Caller(t)))
    && (pc.HasSelf() <==> t in s.live)
    && (pc.Waiting? ==> s.sender == Some(t))
    && (pc.Sent? ==> s.sender.None?)
    && (!pc.Idle? ==> pc.req.code != 0 && t != s.scheme)
    && (s.sender == Some(t) ==> pc.HasSelf() && pc.req == Request(s.code, s.payload))
  }

  ghost predicate GlobalInv(s: State) {
    && !s.fault
    && (s.owner == Some(Loop) <==> s.loop.Running?)
    && (s.owner.Some? && s.owner.value.Caller? ==> At(s, s.owner.value.t))
    && (s.sender.Some? ==> At(s, s.sender.value))
    && (s.sender.None? ==> s.code == 0 && s.payload == 0)
    && !(s.token && !s.loop.Polling?)
    && ((s.token || !s.loop.Polling?) <==> (s.sender.Some? || Sending(s)))
  }

  ghost predicate Inv(s: State) {
    && GlobalInv(s)
    && forall t :: 0 <= t < |s.threads| ==> ThreadInv(s, t)
  }

  lemma InitInv(n: nat, scheme: Tid)
    ensures Inv(Init(n, scheme))
  {}

  lemma GlobalStep(s: State, e: Event)
    requires Inv(s) && Enabled(s, e)
    ensures GlobalInv(Apply(s, e))
  {
    match e
    case Callback =>
    case LoopLock =>
    case Run => if s.sender.Some? { assert ThreadInv(s, s.sender.value); }
    case _ => assert ThreadInv(s, e.t);
  }

  /** The thread that takes the step; the callback acts on the registered sender. */
  ghost predicate ActorInv(s: State, e: Event)
    requires Enabled(s, e)
  {
    match e
    case Callback => true
    case LoopLock => true
    case Run => s.sender.Some? && At(s, s.sender.value) && ThreadInv(s, s.sender.value)
    case _ => ThreadInv(s, e.t)
  }

  lemma RunThreadStep(s: State, t: Tid)
    requires Enabled(s, Run) && At(s, t) && GlobalInv(s) && ThreadInv(s, t) && ActorInv(s, Run)
    ensures ThreadInv(Apply(s, Run), t)
  {}

  lemma LeaveThreadStep(s: State, u: Tid, woken: Option<Tid>, t: Tid)
    requires Enabled(s, Leave(u, woken)) && At(s, t) && GlobalInv(s) && ThreadInv(s, t) && ThreadInv(s, u)
    requires woken.Some? ==> ThreadInv(s, woken.value)
    ensures ThreadInv(Apply(s, Leave(u, woken)), t)
  {}

  lemma OtherThreadStep(s: State, e: Event, t: Tid)
    requires Enabled(s, e) && At(s, t) && GlobalInv(s) && ThreadInv(s, t) && ActorInv(s, e)
    requires !e.Run? && !e.Leave?
    ensures ThreadInv(Apply(s, e), t)
  {}

  lemma ObserveCallback(s: State, e: Event, t: Tid)
    requires Enabled(s, e) && At(s, t) && ThreadInv(s, t) && ActorInv(s, e) && (e.Callback? || e.LoopLock? || e.Run?)
    ensures Observe(PhaseAt(s, t), Emits(s, e), t) == PhaseAt(Apply(s, e), t) && PhaseAt(Apply(s, e), t) != Broken
  {}

  lemma ObserveLeave(s: State, u: Tid, woken: Option<Tid>, t: Tid)
    requires Enabled(s, Leave(u, woken)) && At(s, t) && ThreadInv(s, t) && ThreadInv(s, u)
    ensures var e := Leave(u, woken);
            Observe(PhaseAt(s, t), Emits(s, e), t) == PhaseAt(Apply(s, e), t) && PhaseAt(Apply(s, e), t) != Broken
  {}

  lemma ObserveOther(s: State, e: Event, t: Tid)
    requires Enabled(s, e) && At(s, t) && ThreadInv(s, t) && ActorInv(s, e)
    requires !e.Callback? && !e.LoopLock? && !e.Run? && !e.Leave?
    ensures Observe(PhaseAt(s, t), Emits(s, e), t) == PhaseAt(Apply(s, e), t) && PhaseAt(Apply(s, e), t) != Broken
  {}

  /** What t observes of a step is what its program counter says. */
  lemma ObserveStep(s: State, e: Event, t: Tid)
    requires Inv(s) && Enabled(s, e) && At(s, t)
    ensures Observe(PhaseAt(s, t), Emits(s, e), t) == PhaseAt(Apply(s, e), t) && PhaseAt(Apply(s, e), t) != Broken
  {
    assert ThreadInv(s, t);
    assert ActorInv(s, e);
    match e
    case Callback => ObserveCallback(s, e, t);
    case LoopLock => ObserveCallback(s, e, t);
    case Run => ObserveCallback(s, e, t);
    case Leave(u, woken) => ObserveLeave(s, u, woken, t);
    case _ => ObserveOther(s, e, t);
  }

  lemma InvStep(s: State, e: Event)
    requires Inv(s) && Enabled(s, e)
    ensures Inv(Apply(s, e))
  {
    GlobalStep(s, e);
    forall t | At(s, t) ensures ThreadInv(Apply(s, e), t) {
      if e.Run? { RunThreadStep(s, t); }
      else if e.Leave? { LeaveThreadStep(s, e.t, e.woken, t); }
      else { OtherThreadStep(s, e, t); }
    }
  }

  // ---------- safety over every run ----------

  lemma {:induction false} RunInv(n: nat, scheme: Tid, es: seq<Event>, ss: seq<State>, i: nat)
    requires IsRun(n, scheme, es, ss) && i <= |es|
    ensures Inv(ss[i]) && |ss[i].threads| == n
  {
    if i == 0 {
      InitInv(n, scheme);
    } else {
      RunInv(n, scheme, es, ss, i - 1);
      InvStep(ss[i - 1], es[i - 1]);
    }
  }

  /** No run calls a null handler or signals a condition variable its caller has destroyed,
      and with the mutex free a wake-up is outstanding exactly when a sender is registered. */
  lemma {:induction false} AlwaysSafe(n: nat, scheme: Tid, es: seq<Event>, ss: seq<State>, i: nat)
    requires IsRun(n, scheme, es, ss) && i <= |es|
    ensures !ss[i].fault
    ensures ss[i].sender.Some? ==> ss[i].sender.value in ss[i].live
    ensures ss[i].owner.None? ==> ((ss[i].token || ss[i].loop.Called?) <==> ss[i].sender.Some?)
  {
    RunInv(n, scheme, es, ss, i);
    if ss[i].sender.Some? { assert ThreadInv(ss[i], ss[i].sender.value); }
  }

  lemma {:induction false} ObservedInRun(n: nat, scheme: Tid, es: seq<Event>, ss: seq<State>, i: nat, t: Tid)
    requires IsRun(n, scheme, es, ss) && i <= |es| && t < n
    ensures |ss[i].threads| == n && Observed(es, ss, i, t) == PhaseAt(ss[i], t) != Broken
  {
    RunInv(n, scheme, es, ss, i);
    if i > 0 {
      RunInv(n, scheme, es, ss, i - 1);
      ObservedInRun(n, scheme, es, ss, i - 1, t);
      ObserveStep(ss[i - 1], es[i - 1], t);
    }
  }

  /** Between the steps j and i nothing concerning t happened. */
  ghost predicate Silent(es: seq<Event>, ss: seq<State>, t: Tid, j: nat, i: nat)
    requires i <= |es| <= |ss| && forall k :: 0 <= k < |es| ==> Enabled(ss[k], es[k])
  {
    forall k :: j < k < i ==> var entry := Emits(ss[k], es[k]); entry.None? || entry.value.t != t
  }

  lemma Unobserved(p: Phase, entry: Option<Entry>, t: Tid)
    requires entry.None? || entry.value.t != t
    ensures Observe(p, entry, t) == p
  {}

  lemma SilentMore(es: seq<Event>, ss: seq<State>, t: Tid, j: nat, i: nat)
    requires i < |es| < |ss| && forall k :: 0 <= k < |es| ==> Enabled(ss[k], es[k])
    requires Silent(es, ss, t, j, i)
    requires var entry := Emits(ss[i], es[i]); entry.None? || entry.value.t != t
    ensures Silent(es, ss, t, j, i + 1)
  {}

  lemma {:induction false} LastEntry(n: nat, scheme: Tid, es: seq<Event>, ss: seq<State>, i: nat, t: Tid)
    returns (j: nat)
    requires IsRun(n, scheme, es, ss) && i <= |es|
    requires Observed(es, ss, i, t) != Outside
    ensures j < i && Silent(es, ss, t, j, i)
    ensures Emits(ss[j], es[j]).Some? && Emits(ss[j], es[j]).value.t == t
    ensures Observed(es, ss, i, t) == Observed(es, ss, j + 1, t)
  {
    var entry := Emits(ss[i - 1], es[i - 1]);
    if entry.Some? && entry.value.t == t {
      j := i - 1;
    } else {
      Unobserved(Observed(es, ss, i - 1, t), entry, t);
      j := LastEntry(n, scheme, es, ss, i - 1, t);
      SilentMore(es, ss, t, j, i - 1);
    }
  }

  /** Every call that returns 0 had its own handler run on its own payload after it was
      entered and before it returned, and nothing else happened on its behalf. */
  lemma {:induction false} ServedExactlyOnce(n: nat, scheme: Tid, es: seq<Event>, ss: seq<State>, i: nat, t: Tid)
    returns (j: nat, k: nat, req: Request)
    requires IsRun(n, scheme, es, ss) && i < |es| && t < n
    requires Emits(ss[i], es[i]) == Some(Returned(t, 0))
    ensures j < k < i && Silent(es, ss, t, j, k) && Silent(es, ss, t, k, i)
    ensures es[j] == Enter(t, req) && Emits(ss[j], es[j]) == Some(Entered(t, req))
    ensures Emits(ss[k], es[k]) == Some(Ran(t, req))
  {
    ObservedInRun(n, scheme, es, ss, i + 1, t);
    ObservedInRun(n, scheme, es, ss, i, t);
    req := Observed(es, ss, i, t).req;
    k := LastEntry(n, scheme, es, ss, i, t);
    j := LastEntry(n, scheme, es, ss, k, t);
  }

  // ---------- no lost wake-up, no deadlock ----------

  /** t will test `sender` or signal the shared condition variable before it sleeps or returns. */
  predicate Obliged(pc: PC) {
    pc.Locking? || pc.Rechecking? || pc.Testing? || pc.Sent? || pc.Relocking? || pc.Retesting? || pc.Leaving?
  }

  /** Callers queue behind a registered sender, or someone is about to let one in. */
  ghost predicate NoLostWakeup(s: State) {
    (s.sender.None? && exists q :: 0 <= q < |s.threads| && s.threads[q].Queued?)
      ==> exists t :: 0 <= t < |s.threads| && Obliged(s.threads[t])
  }

  lemma SomeObliged(s: State) returns (t: Tid)
    requires exists t :: 0 <= t < |s.threads| && Obliged(s.threads[t])
    ensures At(s, t) && Obliged(s.threads[t])
  {
    t :| t < |s.threads| && Obliged(s.threads[t]);
  }

  /** The obligation of t passes on or stays where it was. */
  lemma ObligationKept(s: State, e: Event, q: Tid) returns (t: Tid)
    requires Inv(s) && Enabled(s, e) && NoLostWakeup(s)
    requires e.SendFails? ==> forall q :: 0 <= q < |s.threads| ==> !s.threads[q].Queued?
    requires var s' := Apply(s, e); At(s', q) && s'.sender.None? && s'.threads[q].Queued?
    ensures var s' := Apply(s, e); At(s', t) && Obliged(s'.threads[t])
  {
    match e
    case Run => t := s.sender.value; assert ThreadInv(s, t);
    case Leave(u, woken) => t := woken.value;
    case Enter(u, _) => t := SomeObliged(s); assert Apply(s, e).threads[t] == s.threads[t];
    case Callback => t := SomeObliged(s); assert Apply(s, e).threads == s.threads;
    case LoopLock => t := SomeObliged(s); assert Apply(s, e).threads == s.threads;
    case Lock(u) => t := u;
    case Send(u) => t := u;
    case Relock(u) => t := u;
    case Destroy(u) => t := u;
    case SpuriousQueued(u) => t := u;
    case SpuriousWaiting(u) => t := u;
    case Wait(u) => assert false;
    case Register(u) => assert false;
    case Rewait(u) => assert false;
    case SendFails(u, _) => assert false;
  }

  lemma WakeupKept(s: State, e: Event)
    requires Inv(s) && Enabled(s, e) && NoLostWakeup(s)
    requires e.SendFails? ==> forall q :: 0 <= q < |s.threads| ==> !s.threads[q].Queued?
    ensures NoLostWakeup(Apply(s, e))
  {
    var s' := Apply(s, e);
    if q: Tid :| At(s', q) && s'.sender.None? && s'.threads[q].Queued? {
      var t := ObligationKept(s, e, q);
      assert 0 <= t < |s'.threads|;
    }
  }

  ghost predicate SendsSucceedSince(es: seq<Event>, ss: seq<State>, j: nat)
    requires |ss| == |es| + 1
  {
    forall i :: j <= i < |es| && es[i].SendFails? ==> forall q :: 0 <= q < |ss[i].threads| ==> !ss[i].threads[q].Queued?
  }

  /** No wake-up failed to be sent while another caller was queued. */
  ghost predicate SendsSucceed(es: seq<Event>, ss: seq<State>)
    requires |ss| == |es| + 1
  {
    SendsSucceedSince(es, ss, 0)
  }

  /** From a state with no lost wake-up on, sends that succeed lose none. */
  lemma {:induction false} NeverLostSince(n: nat, scheme: Tid, es: seq<Event>, ss: seq<State>, j: nat, i: nat)
    requires IsRun(n, scheme, es, ss) && j <= i <= |es| && NoLostWakeup(ss[j]) && SendsSucceedSince(es, ss, j)
    ensures NoLostWakeup(ss[i])
    decreases i
  {
    if i > j {
      NeverLostSince(n, scheme, es, ss, j, i - 1);
      RunInv(n, scheme, es, ss, i - 1);
      WakeupKept(ss[i - 1], es[i - 1]);
    }
  }

  lemma NeverLost(n: nat, scheme: Tid, es: seq<Event>, ss: seq<State>, i: nat)
    requires IsRun(n, scheme, es, ss) && SendsSucceed(es, ss) && i <= |es|
    ensures NoLostWakeup(ss[i])
  {
    NeverLostSince(n, scheme, es, ss, 0, i);
  }

  /** A step that neither starts a call nor is a spurious wake-up. */
  predicate Progress(e: Event) { !e.Enter? && !e.SendFails? && !Spurious(e) }

  lemma OwnerStep(s: State, u: Tid) returns (e: Event)
    requires Inv(s) && At(s, u) && s.owner == Some(Caller(u))
    ensures Enabled(s, e) && Progress(e)
  {
    assert ThreadInv(s, u);
    match s.threads[u]
    case Testing(_) => e := if s.sender.Some? then Wait(u) else Send(u);
    case Sent(_) => e := Register(u);
    case Retesting(_) => e := if s.sender == Some(u) then Rewait(u) else Destroy(u);
    case Leaving(_) =>
      if w: Tid :| At(s, w) && s.threads[w].Queued? { e := Leave(u, Some(w)); } else { e := Leave(u, None); }
  }

  lemma CanProgress(s: State, t: Tid) returns (e: Event)
    requires Inv(s) && NoLostWakeup(s) && At(s, t) && !s.threads[t].Idle?
    ensures Enabled(s, e) && Progress(e)
  {
    assert ThreadInv(s, t);
    if s.owner == Some(Loop) {
      e := Run;
    } else if s.owner.Some? {
      e := OwnerStep(s, s.owner.value.t);
    } else if s.loop.Called? {
      e := LoopLock;
    } else if s.loop.Polling? && s.token {
      e := Callback;
    } else if s.threads[t].WantsMutex() {
      e := if s.threads[t].Relocking? then Relock(t) else Lock(t);
    } else {
      var u: Tid :| At(s, u) && Obliged(s.threads[u]);
      assert ThreadInv(s, u);
      e := if s.threads[u].Relocking? then Relock(u) else Lock(u);
    }
  }

  /** While any call is unfinished some step can be taken, unless a wake-up failed to be
      sent with callers queued. */
  lemma {:induction false} DeadlockFree(n: nat, scheme: Tid, es: seq<Event>, ss: seq<State>, t: Tid) returns (e: Event)
    requires IsRun(n, scheme, es, ss) && SendsSucceed(es, ss)
    requires At(ss[|es|], t) && !ss[|es|].threads[t].Idle?
    ensures Enabled(ss[|es|], e) && Progress(e)
  {
    NeverLost(n, scheme, es, ss, |es|);
    RunInv(n, scheme, es, ss, |es|);
    e := CanProgress(ss[|es|], t);
  }

  // ---------- what a failing uv_async_send does ----------

  /** Another thread wants the mutex. */
  ghost predicate OtherWantsMutex(s: State, t: Tid) {
    exists u :: 0 <= u < |s.threads| && u != t && s.threads[u].WantsMutex()
  }

  /** Nobody has the mutex or wants it, and no wake-up is on its way. */
  ghost predicate Halted(s: State) {
    && s.owner.None? && s.loop.Polling? && !s.token
    && forall u :: 0 <= u < |s.threads| ==> !s.threads[u].WantsMutex()
  }

  lemma NothingMoves(s: State, e: Event)
    requires Inv(s) && Halted(s) && Enabled(s, e)
    ensures !Progress(e)
  {
    if !e.Callback? && !e.LoopLock? && !e.Run? { assert ThreadInv(s, e.t); }
  }

  /** Right after a failing send, some step other than a new call or a spurious wake-up is possible
      if and only if another thread wants the mutex. */
  lemma FailureStrands(s: State, t: Tid, rc: int)
    requires Inv(s) && Enabled(s, SendFails(t, rc))
    ensures (exists e :: Enabled(Apply(s, SendFails(t, rc)), e) && Progress(e)) <==> OtherWantsMutex(s, t)
    ensures OtherWantsMutex(s, t) ==> NoLostWakeup(Apply(s, SendFails(t, rc)))
  {
    var s' := Apply(s, SendFails(t, rc));
    InvStep(s, SendFails(t, rc));
    assert ThreadInv(s, t);
    if u :| 0 <= u < |s.threads| && u != t && s.threads[u].WantsMutex() {
      assert s'.threads[u] == s.threads[u];
      var e := if s.threads[u].Relocking? then Relock(u) else Lock(u);
      assert Enabled(s', e) && Progress(e) && Obliged(s'.threads[u]);
    } else {
      forall e | Enabled(s', e) && Progress(e) ensures false { NothingMoves(s', e); }
    }
  }

  lemma NoSendFails(s: State)
    requires Inv(s) && s.owner.None?
    ensures forall u, rc :: !Enabled(s, SendFails(u, rc))
  {
    forall u: Tid, rc ensures !Enabled(s, SendFails(u, rc)) {
      if At(s, u) { assert ThreadInv(s, u); }
    }
  }

  /** What a failing send does to a run. If another thread wants the mutex and later sends succeed,
      the run can go on until every call has ended. If not, it stops there: every caller that is
      queued stays queued until a new call is made or a wake-up comes for no reason. */
  lemma StrandedOrNot(n: nat, scheme: Tid, es: seq<Event>, ss: seq<State>, j: nat, i: nat, q: Tid)
    requires IsRun(n, scheme, es, ss) && j < i <= |es| && es[j].SendFails? && At(ss[i], q)
    ensures OtherWantsMutex(ss[j], es[j].t) && SendsSucceedSince(es, ss, j + 1) && !ss[i].threads[q].Idle? ==>
              exists e :: Enabled(ss[i], e) && Progress(e)
    ensures !OtherWantsMutex(ss[j], es[j].t) && (forall k :: j < k < i ==> Progress(es[k]) || es[k].SendFails?) ==>
              i == j + 1 && (ss[j].threads[q].Queued? ==> ss[i].threads[q].Queued?)
  {
    RunInv(n, scheme, es, ss, j);
    RunInv(n, scheme, es, ss, j + 1);
    RunInv(n, scheme, es, ss, i);
    FailureStrands(ss[j], es[j].t, es[j].rc);
    if OtherWantsMutex(ss[j], es[j].t) {
      if SendsSucceedSince(es, ss, j + 1) && !ss[i].threads[q].Idle? {
        NeverLostSince(n, scheme, es, ss, j + 1, i);
        var e := CanProgress(ss[i], q);
      }
    } else if i > j + 1 {
      assert Enabled(ss[j + 1], es[j + 1]);
      NoSendFails(ss[j + 1]);
    }
  }

  function Snapshot(ts: seq<PC>, loop: LoopPC, owner: Option<Owner>, token: bool, slot: Request,
                    sender: Option<Tid>, live: set<Tid>): State
  {
    State(3, ts, loop, owner, token, slot.code, slot.payload, sender, live, false)
  }

  lemma Extend(es: seq<Event>, ss: seq<State>, e: Event, s': State) returns (es': seq<Event>, ss': seq<State>)
    requires IsRun(3, 3, es, ss) && Enabled(ss[|es|], e) && Apply(ss[|es|], e) == s'
    ensures es' == es + [e] && ss' == ss + [s'] && IsRun(3, 3, es', ss')
  {
    es', ss' := es + [e], ss + [s'];
  }

  lemma ThreeEntered() returns (es: seq<Event>, ss: seq<State>)
    ensures IsRun(3, 3, es, ss)
    ensures ss[|es|] == Snapshot([Locking(Request(1, 1)), Locking(Request(1, 2)), Locking(Request(1, 3))],
                                 Polling, None, false, Request(0, 0), None, {})
  {
    var a, b, c, none := Request(1, 1), Request(1, 2), Request(1, 3), Request(0, 0);
    es, ss := [], [Init(3, 3)];
    var ts := [Idle, Idle, Idle];
    assert Init(3, 3) == Snapshot(ts, Polling, None, false, none, None, {});
    ts := [Locking(a), Idle, Idle];
    es, ss := Extend(es, ss, Enter(0, a), Snapshot(ts, Polling, None, false, none, None, {}));
    ts := [Locking(a), Locking(b), Idle];
    es, ss := Extend(es, ss, Enter(1, b), Snapshot(ts, Polling, None, false, none, None, {}));
    ts := [Locking(a), Locking(b), Locking(c)];
    es, ss := Extend(es, ss, Enter(2, c), Snapshot(ts, Polling, None, false, none, None, {}));
  }

  lemma FirstRegistered() returns (es: seq<Event>, ss: seq<State>)
    ensures IsRun(3, 3, es, ss)
    ensures ss[|es|] == Snapshot([Waiting(Request(1, 1)), Locking(Request(1, 2)), Locking(Request(1, 3))],
                                 Polling, None, true, Request(1, 1), Some(0), {0})
  {
    var a, b, c, none := Request(1, 1), Request(1, 2), Request(1, 3), Request(0, 0);
    es, ss := ThreeEntered();
    var ts := [Testing(a), Locking(b), Locking(c)];
    es, ss := Extend(es, ss, Lock(0), Snapshot(ts, Polling, Some(Caller(0)), false, none, None, {}));
    ts := [Sent(a), Locking(b), Locking(c)];
    es, ss := Extend(es, ss, Send(0), Snapshot(ts, Polling, Some(Caller(0)), true, none, None, {}));
    ts := [Waiting(a), Locking(b), Locking(c)];
    es, ss := Extend(es, ss, Register(0), Snapshot(ts, Polling, None, true, a, Some(0), {0}));
  }

  lemma TwoQueued() returns (es: seq<Event>, ss: seq<State>)
    ensures IsRun(3, 3, es, ss)
    ensures ss[|es|] == Snapshot([Waiting(Request(1, 1)), Queued(Request(1, 2)), Queued(Request(1, 3))],
                                 Polling, None, true, Request(1, 1), Some(0), {0})
  {
    var a, b, c := Request(1, 1), Request(1, 2), Request(1, 3);
    es, ss := FirstRegistered();
    var ts := [Waiting(a), Testing(b), Locking(c)];
    es, ss := Extend(es, ss, Lock(1), Snapshot(ts, Polling, Some(Caller(1)), true, a, Some(0), {0}));
    ts := [Waiting(a), Queued(b), Locking(c)];
    es, ss := Extend(es, ss, Wait(1), Snapshot(ts, Polling, None, true, a, Some(0), {0}));
    ts := [Waiting(a), Queued(b), Testing(c)];
    es, ss := Extend(es, ss, Lock(2), Snapshot(ts, Polling, Some(Caller(2)), true, a, Some(0), {0}));
    ts := [Waiting(a), Queued(b), Queued(c)];
    es, ss := Extend(es, ss, Wait(2), Snapshot(ts, Polling, None, true, a, Some(0), {0}));
  }

  lemma HandlerRan() returns (es: seq<Event>, ss: seq<State>)
    ensures IsRun(3, 3, es, ss)
    ensures ss[|es|] == Snapshot([Relocking(Request(1, 1)), Queued(Request(1, 2)), Queued(Request(1, 3))],
                                 Polling, None, false, Request(0, 0), None, {0})
  {
    var a, b, c, none := Request(1, 1), Request(1, 2), Request(1, 3), Request(0, 0);
    es, ss := TwoQueued();
    var ts := [Waiting(a), Queued(b), Queued(c)];
    es, ss := Extend(es, ss, Callback, Snapshot(ts, Called, None, false, a, Some(0), {0}));
    ts := [Waiting(a), Queued(b), Queued(c)];
    es, ss := Extend(es, ss, LoopLock, Snapshot(ts, Running, Some(Loop), false, a, Some(0), {0}));
    ts := [Relocking(a), Queued(b), Queued(c)];
    es, ss := Extend(es, ss, Run, Snapshot(ts, Polling, None, false, none, None, {0}));
  }

  lemma FirstServed() returns (es: seq<Event>, ss: seq<State>)
    ensures IsRun(3, 3, es, ss)
    ensures ss[|es|] == Snapshot([Idle, Rechecking(Request(1, 2)), Queued(Request(1, 3))],
                                 Polling, None, false, Request(0, 0), None, {})
  {
    var a, b, c, none := Request(1, 1), Request(1, 2), Request(1, 3), Request(0, 0);
    es, ss := HandlerRan();
    var ts := [Retesting(a), Queued(b), Queued(c)];
    es, ss := Extend(es, ss, Relock(0), Snapshot(ts, Polling, Some(Caller(0)), false, none, None, {0}));
    ts := [Leaving(a), Queued(b), Queued(c)];
    es, ss := Extend(es, ss, Destroy(0), Snapshot(ts, Polling, Some(Caller(0)), false, none, None, {}));
    ts := [Idle, Rechecking(b), Queued(c)];
    es, ss := Extend(es, ss, Leave(0, Some(1)), Snapshot(ts, Polling, None, false, none, None, {}));
  }

  /** Two callers queue behind a third; the one it wakes fails to send and returns
      without signalling, and the other waits for ever. */
  lemma {:induction false} StrandedCaller() returns (es: seq<Event>, ss: seq<State>)
    ensures IsRun(3, 3, es, ss) && !SendsSucceed(es, ss)
    ensures ss[|es|].threads == [Idle, Idle, Queued(Request(1, 3))]
    ensures forall e :: Enabled(ss[|es|], e) ==> e.Enter? || Spurious(e)
  {
    var a, b, c, none := Request(1, 1), Request(1, 2), Request(1, 3), Request(0, 0);
    es, ss := FirstServed();
    ghost var m := |es|;
    var ts := [Idle, Testing(b), Queued(c)];
    es, ss := Extend(es, ss, Lock(1), Snapshot(ts, Polling, Some(Caller(1)), false, none, None, {}));
    ts := [Idle, Idle, Queued(c)];
    es, ss := Extend(es, ss, SendFails(1, -1), Snapshot(ts, Polling, None, false, none, None, {}));
    assert ss[m + 1].threads[2].Queued? && es[m + 1].SendFails?;
  }

  // ---------- every run is short ----------

  function Weight(pc: PC): nat {
    match pc
    case Idle => 0
    case Locking(_) => 11
    case Rechecking(_) => 11
    case Testing(_) => 10
    case Queued(_) => 9
    case Sent(_) => 4
    case Waiting(_) => 3
    case Relocking(_) => 5
    case Retesting(_) => 4
    case Leaving(_) => 3
  }

  function Weights(ts: seq<PC>): nat {
    if ts == [] then 0 else Weights(ts[..|ts| - 1]) + Weight(ts[|ts| - 1])
  }

  lemma {:induction false} WeightsUpdate(ts: seq<PC>, t: Tid, pc: PC)
    requires t < |ts|
    ensures Weights(ts[t := pc]) == Weights(ts) - Weight(ts[t]) + Weight(pc)
  {
    var n := |ts| - 1;
    if t < n {
      WeightsUpdate(ts[..n], t, pc);
      assert ts[t := pc][..n] == ts[..n][t := pc];
    } else {
      assert ts[t := pc][..n] == ts[..n];
    }
  }

  /** The steps still owed to the calls under way. */
  function Potential(s: State): nat {
    Weights(s.threads) + (if s.token then 5 else 0)
    + match s.loop { case Polling => 0 case Called => 4 case Running => 3 }
  }

  lemma RunPotential(s: State)
    requires Inv(s) && Enabled(s, Run)
    ensures Potential(Apply(s, Run)) + 1 <= Potential(s)
  {
    var t := s.sender.value;
    assert ThreadInv(s, t);
    WeightsUpdate(s.threads, t, Woken(s.threads[t]));
  }

  lemma LeavePotential(s: State, t: Tid, woken: Option<Tid>)
    requires Enabled(s, Leave(t, woken))
    ensures Potential(Apply(s, Leave(t, woken))) + 1 <= Potential(s)
  {
    var ts := s.threads;
    if woken.Some? {
      WeightsUpdate(ts, woken.value, Woken(ts[woken.value]));
      ts := ts[woken.value := Woken(ts[woken.value])];
    }
    WeightsUpdate(ts, t, Idle);
  }

  lemma ThreadPotential(s: State, e: Event)
    requires Inv(s) && Enabled(s, e) && !e.Run? && !e.Leave? && !e.Callback? && !e.LoopLock?
    ensures Potential(Apply(s, e)) + 1 <=
            Potential(s) + (if e.Enter? then 12 else 0) + (if Spurious(e) then 3 else 0)
  {
    var s' := Apply(s, e);
    assert s'.threads == s.threads[e.t := s'.threads[e.t]];
    WeightsUpdate(s.threads, e.t, s'.threads[e.t]);
    assert ThreadInv(s, e.t);
  }

  /** Every step pays for itself; a call brings credit for 12, a spurious wake-up for 3. */
  lemma {:induction false} PotentialStep(s: State, e: Event)
    requires Inv(s) && Enabled(s, e)
    ensures Potential(Apply(s, e)) + 1 <=
            Potential(s) + (if e.Enter? then 12 else 0) + (if Spurious(e) then 3 else 0)
  {
    match e
    case Callback =>
    case LoopLock =>
    case Run => RunPotential(s);
    case Leave(t, woken) => LeavePotential(s, t, woken);
    case _ => ThreadPotential(s, e);
  }

  function Calls(es: seq<Event>): nat {
    if es == [] then 0 else Calls(es[..|es| - 1]) + if es[|es| - 1].Enter? then 1 else 0
  }

  function Spurs(es: seq<Event>): nat {
    if es == [] then 0 else Spurs(es[..|es| - 1]) + if Spurious(es[|es| - 1]) then 1 else 0
  }

  lemma {:induction false} IdleWeightless(n: nat)
    ensures Weights(seq(n, i => Idle)) == 0
  {
    if n > 0 {
      var ts: seq<PC> := seq(n, i => Idle);
      assert ts[..n - 1] == seq(n - 1, i => Idle);
      IdleWeightless(n - 1);
    }
  }

  lemma CountsLast(es: seq<Event>, i: nat)
    requires i < |es|
    ensures Calls(es[..i + 1]) == Calls(es[..i]) + if es[i].Enter? then 1 else 0
    ensures Spurs(es[..i + 1]) == Spurs(es[..i]) + if Spurious(es[i]) then 1 else 0
  {
    assert es[..i + 1][..i] == es[..i];
  }

  lemma {:induction false} PotentialBound(n: nat, scheme: Tid, es: seq<Event>, ss: seq<State>, i: nat)
    requires IsRun(n, scheme, es, ss) && i <= |es|
    ensures i + Potential(ss[i]) <= 12 * Calls(es[..i]) + 3 * Spurs(es[..i])
  {
    if i == 0 {
      IdleWeightless(n);
    } else {
      PotentialBound(n, scheme, es, ss, i - 1);
      RunInv(n, scheme, es, ss, i - 1);
      PotentialStep(ss[i - 1], es[i - 1]);
      CountsLast(es, i - 1);
    }
  }

  /** Any run takes at most 12 steps a call and 3 a spurious wake-up. */
  lemma RunBounded(n: nat, scheme: Tid, es: seq<Event>, ss: seq<State>)
    requires IsRun(n, scheme, es, ss)
    ensures |es| + Potential(ss[|es|]) <= 12 * Calls(es) + 3 * Spurs(es)
  {
    PotentialBound(n, scheme, es, ss, |es|);
    assert es[..|es|] == es;
  }
}
