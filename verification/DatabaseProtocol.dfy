/**
 One SQLite database: the Scheme thread submits close, prepare, step and bulk
 requests, a worker thread runs them, and an async callback completes them. Steps
 are cut at mutex acquire, release and wait, and the store of the asynchronous
 callback and each turn of close_worker's loop are steps of their own.
 A statement record and the SQLite statement it holds go by one number.
 */
module DatabaseProtocol {
  import opened Options

  const OK: int := 0
  const NOMEM: int := 7

  datatype Kind = Closing | Preparing | Stepping | Bulking

  // The union of database_t; the bulk block leads to its statements.
  datatype Data = NoData | Sql(sql: nat) | Stmt(stmt: nat) | BulkData(first: nat, bulk: nat)

  datatype Request =
    | Close(cb: nat)
    | Prepare(cb: nat, sql: nat)
    | Step(cb: nat, statement: nat)
    | Bulk(cb: nat, first: nat, bulk: nat)
  {
    function Kind(): Kind {
      match this
      case Close(_) => Closing
      case Prepare(_, _) => Preparing
      case Step(_, _) => Stepping
      case Bulk(_, _, _) => Bulking
    }

    function Data(): Data {
      match this
      case Close(_) => NoData
      case Prepare(_, sql) => Sql(sql)
      case Step(_, s) => Stmt(s)
      case Bulk(_, first, b) => BulkData(first, b)
    }
  }

  function RequestOf(k: Kind, cb: nat, d: Data): Option<Request> {
    match (k, d)
    case (Closing, NoData) => Some(Close(cb))
    case (Preparing, Sql(sql)) => Some(Prepare(cb, sql))
    case (Stepping, Stmt(s)) => Some(Step(cb, s))
    case (Bulking, BulkData(first, b)) => Some(Bulk(cb, first, b))
    case _ => None
  }

  datatype MainPC =
    | Free                   // in Scheme code or about to run a callback
    | Storing(req: Request)  // past the busy check, wants the mutex
    | Signalling             // the request is stored, cond is yet to be signalled
    | Joining(cb: nat)       // close_cb waits for the worker to end
    | Gone                   // closed

  datatype WorkerPC =
    | Starting               // wants the mutex, to look at `work`
    | Checking               // has it, about to look
    | Sleeping               // waits on cond
    | Working(k: Kind)       // runs the work function, without the mutex
    | Finishing(k: Kind)     // wants the mutex again
    | Posting(k: Kind)       // has it, about to clear `work` and send the wake-up
    | Posted(k: Kind)        // has it, about to wait or to leave the loop
    | Exited
  {
    predicate HasMutex() { Checking? || Posting? || Posted? }
    predicate AtWork() { Working? || Finishing? || Posting? }
  }

  datatype State = State(
    main: MainPC,
    worker: WorkerPC,
    busy: bool,
    work: Option<Kind>,
    callback: Option<nat>,   // None is Svoid
    onDone: Option<Kind>,    // async.data
    data: Data,
    rc: int,                 // sqlite_rc
    token: bool,             // an async wake-up is outstanding
    list: Statements)

  /** The statement records of a database and the SQLite statements not yet finalized. */
  datatype Statements = Statements(
    attached: seq<nat>,      // d->statement and its successors
    detached: set<nat>,      // records with a null database
    open: set<nat>,          // prepared and not finalized
    next: nat,               // numbers from here on are unused
    refinalized: bool)       // sqlite3_finalize was given a statement that is not open

  function FinalizeOpen(l: Statements, s: nat): Statements {
    l.(open := l.open - {s}, refinalized := l.refinalized || s !in l.open)
  }

  function Prepended(l: Statements): Statements {
    l.(attached := [l.next] + l.attached, open := l.open + {l.next}, next := l.next + 1)
  }

  /** One turn of close_worker's loop. */
  function Drained(l: Statements): Statements
    requires l.attached != []
  {
    FinalizeOpen(l, l.attached[0]).(attached := l.attached[1..], detached := l.detached + {l.attached[0]})
  }

  function Without(q: seq<nat>, s: nat): seq<nat> {
    if q == [] then [] else if q[0] == s then q[1..] else [q[0]] + Without(q[1..], s)
  }

  function Finalized(l: Statements, s: nat): Statements {
    if s in l.detached then l.(detached := l.detached - {s})
    else FinalizeOpen(l, s).(attached := Without(l.attached, s))
  }

  datatype Event =
    | Submit(req: Request)
    | Store
    | Signal
    | Complete
    | Join
    | Finalize(s: nat)       // osi_finalize_statement
    | WorkerLock
    | Check
    | Drain
    | Finish(rc: int, mallocOk: bool)
    | Relock
    | Post
    | Decide
    | Spurious

  predicate Live(l: Statements, s: nat) { s in l.attached || s in l.detached }

  /** The statement of a request must not have been freed; those of a bulk share a database. */
  predicate Valid(l: Statements, req: Request) {
    match req
    case Step(_, s) => Live(l, s)
    case Bulk(_, s, _) => Live(l, s)
    case _ => true
  }

  predicate Refused(s: State, req: Request) {
    s.busy || (match req
               case Step(_, st) => st in s.list.detached
               case Bulk(_, st, _) => st in s.list.detached
               case _ => false)
  }

  predicate Enabled(s: State, e: Event) {
    match e
    case Submit(req) => s.main.Free? && Valid(s.list, req)
    case Store => s.main.Storing? && !s.worker.HasMutex()
    case Signal => s.main.Signalling?
    case Complete => s.main.Free? && s.token
    case Join => s.main.Joining? && s.worker.Exited?
    case Finalize(st) => (s.main.Free? && Live(s.list, st)) || (s.main.Gone? && st in s.list.detached)
    case WorkerLock => s.worker.Starting?
    case Check => s.worker.Checking?
    case Drain => s.worker == Working(Closing) && s.list.attached != []
    case Finish(_, _) => s.worker.Working? && (s.worker.k.Closing? ==> s.list.attached == [])
    case Relock => s.worker.Finishing?
    case Post => s.worker.Posting?
    case Decide => s.worker.Posted?
    case Spurious => s.worker.Sleeping?
  }

  function Apply(s: State, e: Event): State
    requires Enabled(s, e)
  {
    match e
    case Submit(req) =>
      if Refused(s, req) then s
      else s.(main := Storing(req), onDone := if req.Bulk? then s.onDone else Some(req.Kind()))
    case Store =>
      var req := s.main.req;
      s.(main := Signalling, busy := true, work := Some(req.Kind()), callback := Some(req.cb), data := req.Data(),
         onDone := if req.Bulk? then Some(Bulking) else s.onDone)
    case Signal => s.(main := Free, worker := if s.worker.Sleeping? then Starting else s.worker)
    case Complete =>
      var s' := s.(token := false, busy := false, callback := None, data := NoData);
      if s.onDone == Some(Closing) && s.rc == OK && s.callback.Some? then s'.(main := Joining(s.callback.value)) else s'
    case Join => s.(main := Gone)
    case Finalize(st) => if st !in s.list.detached && s.busy then s else s.(list := Finalized(s.list, st))
    case WorkerLock => s.(worker := Checking)
    case Check => s.(worker := if s.work.Some? then Working(s.work.value) else Sleeping)
    case Drain => s.(list := Drained(s.list))
    case Finish(rc, mallocOk) =>
      var s' := s.(worker := Finishing(s.worker.k), rc := rc);
      if !s.worker.k.Preparing? || rc != OK then s'
      else if mallocOk then s'.(list := Prepended(s.list))
      else s'.(rc := NOMEM)
    case Relock => s.(worker := Posting(s.worker.k))
    case Post => s.(worker := Posted(s.worker.k), work := None, token := true)
    case Decide => s.(worker := if s.worker.k.Closing? && s.rc == OK then Exited else Sleeping)
    case Spurious => s.(worker := Starting)
  }

  function Init(): State {
    State(Free, Starting, false, None, None, None, NoData, OK, false, Statements([], {}, {}, 0, false))
  }

  ghost predicate IsRun(es: seq<Event>, ss: seq<State>) {
    && |ss| == |es| + 1 && ss[0] == Init()
    && forall i :: 0 <= i < |es| ==> Enabled(ss[i], es[i]) && ss[i + 1] == Apply(ss[i], es[i])
  }

  // ---------- what becomes of a request ----------

  datatype Entry =
    | Accepted(req: Request)
    | Ran(k: Kind, data: Data, rc: int, made: Option<nat>)          // the work function returned
    | Completed(cb: nat, k: Kind, data: Data, rc: int, made: Option<nat>)  // the callback was queued

  /** prepare_cb returns the first statement of the list. */
  function Made(k: Kind, rc: int, l: Statements): Option<nat> {
    if k.Preparing? && rc == OK && l.attached != [] then Some(l.attached[0]) else None
  }

  function Emits(s: State, e: Event): Option<Entry>
    requires Enabled(s, e)
  {
    match e
    case Submit(req) => if Refused(s, req) then None else Some(Accepted(req))
    case Finish(_, _) =>
      var s' := Apply(s, e);
      Some(Ran(s.worker.k, s.data, s'.rc, if s'.list.next > s.list.next then Some(s.list.next) else None))
    case Complete =>
      if s.onDone.None? || s.callback.None? || Apply(s, e).main.Joining? then None
      else Some(Completed(s.callback.value, s.onDone.value, s.data, s.rc, Made(s.onDone.value, s.rc, s.list)))
    case Join => Some(Completed(s.main.cb, Closing, s.data, s.rc, None))
    case _ => None
  }

  datatype Phase =
    | Quiet
    | Asked(req: Request)
    | Done(req: Request, rc: int, made: Option<nat>)
    | Ended
    | Broken

  /** A request is run once, by its own work function on its own data, and then completed
      once, through its own callback, with the result and the statement that run made. */
  function Observe(p: Phase, entry: Option<Entry>): Phase {
    if entry.None? then p
    else match (p, entry.value)
      case (Quiet, Accepted(req)) => Asked(req)
      case (Asked(req), Ran(k, d, rc, made)) =>
        if k == req.Kind() && d == req.Data() then Done(req, rc, made) else Broken
      case (Done(req, rc, made), Completed(cb, k, d, rc', made')) =>
        if cb == req.cb && k == req.Kind() && d == req.Data() && rc' == rc && made' == made
        then (if req.Close? && rc == OK then Ended else Quiet)
        else Broken
      case _ => Broken
  }

  function Observed(es: seq<Event>, ss: seq<State>, i: nat): Phase
    requires i <= |es| <= |ss| && forall k :: 0 <= k < i ==> Enabled(ss[k], es[k])
  {
    if i == 0 then Quiet else Observe(Observed(es, ss, i - 1), Emits(ss[i - 1], es[i - 1]))
  }

  // ---------- the invariant ----------

  /** The request that database_t records, from its kind. */
  function Current(s: State, k: Kind): Option<Request> {
    if s.callback.Some? then RequestOf(k, s.callback.value, s.data) else None
  }

  function PhaseOf(s: State): Phase {
    match s.main
    case Gone => Ended
    case Joining(cb) => Done(Close(cb), OK, None)
    case Storing(req) => Asked(req)
    case _ =>
      if s.token && s.onDone.Some? && Current(s, s.onDone.value).Some? then
        Done(Current(s, s.onDone.value).value, s.rc, Made(s.onDone.value, s.rc, s.list))
      else if s.work.Some? && Current(s, s.work.value).Some? then
        var req := Current(s, s.work.value).value;
        if s.worker.Finishing? || s.worker.Posting? then Done(req, s.rc, Made(s.work.value, s.rc, s.list))
        else Asked(req)
      else Quiet
  }

  ghost predicate Distinct(q: seq<nat>) {
    forall i, j :: 0 <= i < j < |q| ==> q[i] != q[j]
  }

  ghost predicate ListInv(l: Statements) {
    && !l.refinalized
    && Distinct(l.attached)
    && (forall x :: x in l.open <==> x in l.attached)
    && (forall x :: x in l.attached ==> x !in l.detached && x < l.next)
    && (forall x :: x in l.detached ==> x < l.next)
  }

  /** A request is stored or its completion is outstanding exactly while the database is
      busy, and what database_t says about it is consistent. */
  ghost predicate RequestInv(s: State) {
    && (s.busy <==> s.work.Some? || s.token)
    && !(s.work.Some? && s.token)
    && (!s.busy <==> s.callback.None?)
    && (!s.busy ==> s.data == NoData)
    && (s.busy ==> s.onDone.Some? && Current(s, s.onDone.value).Some?)
    && (s.work.Some? ==> s.onDone == s.work)
  }

  ghost predicate ThreadInv(s: State) {
    && (s.main.Storing? ==> !s.busy && (s.main.req.Bulk? || s.onDone == Some(s.main.req.Kind())))
    && (s.main.Signalling? ==> s.busy)
    && (s.main.Joining? || s.main.Gone? ==> !s.busy && s.rc == OK && (s.worker == Posted(Closing) || s.worker.Exited?))
    && (s.main.Gone? ==> s.worker.Exited?)
    && (s.worker.AtWork() ==> s.work == Some(s.worker.k))
    && (s.worker.Sleeping? && s.work.Some? ==> s.main.Signalling?)
    && (s.worker.Posted? ==> s.work.None? && (s.token ==> s.onDone == Some(s.worker.k)))
    && (s.worker.Exited? || (s.worker == Posted(Closing) && s.rc == OK) ==>
          s.rc == OK && ((s.token && s.onDone == Some(Closing)) || s.main.Joining? || s.main.Gone?))
    && (s.token && s.onDone == Some(Closing) && s.rc == OK ==> s.worker == Posted(Closing) || s.worker.Exited?)
    && (s.token && s.onDone == Some(Closing) ==> s.list.attached == [])
    && ((s.worker == Finishing(Closing) || s.worker == Posting(Closing)) ==> s.list.attached == [])
    && (s.main.Joining? || s.main.Gone? ==> s.list.attached == [])
    && (s.token && s.onDone == Some(Preparing) && s.rc == OK ==> s.list.attached != [])
    && ((s.worker == Finishing(Preparing) || s.worker == Posting(Preparing)) && s.rc == OK ==> s.list.attached != [])
  }

  ghost predicate Inv(s: State) {
    ListInv(s.list) && RequestInv(s) && ThreadInv(s)
  }

  lemma ConsContents(x: nat, q: seq<nat>)
    ensures forall y :: y in [x] + q <==> y == x || y in q
  {}

  lemma ConsDistinct(x: nat, q: seq<nat>)
    ensures Distinct([x] + q) <==> Distinct(q) && x !in q
  {
    var r := [x] + q;
    assert forall i :: 0 <= i < |q| ==> r[i + 1] == q[i];
    if Distinct(r) {
      assert forall y :: y in q ==> y != r[0] by {
        forall y | y in q ensures y != r[0] {
          var i :| 0 <= i < |q| && q[i] == y;
          assert r[i + 1] == y;
        }
      }
    }
  }

  lemma {:induction false} WithoutContents(q: seq<nat>, s: nat)
    requires Distinct(q)
    ensures Distinct(Without(q, s))
    ensures forall x :: x in Without(q, s) <==> x in q && x != s
  {
    if q != [] {
      assert q == [q[0]] + q[1..];
      ConsContents(q[0], q[1..]);
      ConsDistinct(q[0], q[1..]);
      if q[0] != s {
        WithoutContents(q[1..], s);
        ConsContents(q[0], Without(q[1..], s));
        ConsDistinct(q[0], Without(q[1..], s));
      }
    }
  }

  lemma PrependedInv(l: Statements)
    requires ListInv(l)
    ensures ListInv(Prepended(l))
  {
    ConsContents(l.next, l.attached);
    ConsDistinct(l.next, l.attached);
  }

  lemma DrainedInv(l: Statements)
    requires ListInv(l) && l.attached != []
    ensures ListInv(Drained(l))
  {
    var q := l.attached;
    assert q == [q[0]] + q[1..];
    ConsContents(q[0], q[1..]);
    ConsDistinct(q[0], q[1..]);
  }

  lemma FinalizedInv(l: Statements, s: nat)
    requires ListInv(l) && Live(l, s)
    ensures ListInv(Finalized(l, s))
  {
    WithoutContents(l.attached, s);
  }

  lemma ListStep(s: State, e: Event)
    requires Inv(s) && Enabled(s, e)
    ensures ListInv(Apply(s, e).list)
  {
    match e
    case Finalize(st) => FinalizedInv(s.list, st);
    case Drain => DrainedInv(s.list);
    case Finish(_, _) => PrependedInv(s.list);
    case _ =>
  }

  lemma RequestStep(s: State, e: Event)
    requires Inv(s) && Enabled(s, e)
    ensures RequestInv(Apply(s, e))
  {}

  lemma ThreadStep(s: State, e: Event)
    requires Inv(s) && Enabled(s, e)
    ensures ThreadInv(Apply(s, e))
  {}

  lemma ObserveStep(s: State, e: Event)
    requires Inv(s) && Enabled(s, e)
    ensures Observe(PhaseOf(s), Emits(s, e)) == PhaseOf(Apply(s, e)) != Broken
  {}

  /** A completion is reported at once, but for a successful close, and a successful prepare
      always has a statement to report. */
  lemma CompletionMade(s: State)
    requires Inv(s) && Enabled(s, Complete)
    ensures Emits(s, Complete).None? ==> Apply(s, Complete).main.Joining?
    ensures Emits(s, Complete).Some? ==>
              var done := Emits(s, Complete).value;
              done.Completed? && (done.k.Preparing? && done.rc == OK ==> done.made.Some?)
  {}

  lemma InvStep(s: State, e: Event)
    requires Inv(s) && Enabled(s, e)
    ensures Inv(Apply(s, e))
  {
    ListStep(s, e);
    RequestStep(s, e);
    ThreadStep(s, e);
  }

  lemma {:induction false} RunInv(es: seq<Event>, ss: seq<State>, i: nat)
    requires IsRun(es, ss) && i <= |es|
    ensures Inv(ss[i])
  {
    if i > 0 {
      RunInv(es, ss, i - 1);
      InvStep(ss[i - 1], es[i - 1]);
    }
  }

  // ---------- what holds in every state of every run ----------

  /** Scheme-thread code past a busy check, or entering a completion callback, never overlaps
      a work function. */
  lemma {:induction false} Exclusive(es: seq<Event>, ss: seq<State>, i: nat)
    requires IsRun(es, ss) && i <= |es|
    ensures var s := ss[i];
            (!s.busy || s.main.Storing? || s.token || s.main.Joining? || s.main.Gone?) ==> !s.worker.Working?
  {
    RunInv(es, ss, i);
  }

  /** The union and the installed callback always match the work that is stored, running or
      awaiting completion, and the union is null when the database is idle. */
  lemma {:induction false} DataMatches(es: seq<Event>, ss: seq<State>, i: nat)
    requires IsRun(es, ss) && i <= |es|
    ensures var s := ss[i];
            && (!s.busy ==> s.data == NoData && s.work.None? && !s.token && s.callback.None?)
            && (s.worker.Working? ==> s.onDone == Some(s.worker.k) && Current(s, s.worker.k).Some?)
            && (s.token ==> s.onDone.Some? && Current(s, s.onDone.value).Some?)
  {
    RunInv(es, ss, i);
  }

  lemma NoneOpen(l: Statements)
    requires ListInv(l) && l.attached == []
    ensures l.open == {}
  {
    assert forall x :: x !in l.open;
  }

  /** The worker sleeps on stored work only while the submitter has yet to signal, and it ends
      exactly with a successful close, after which only the join is left to do. */
  lemma {:induction false} WorkerNeverForgets(es: seq<Event>, ss: seq<State>, i: nat)
    requires IsRun(es, ss) && i <= |es|
    ensures var s := ss[i];
            && (s.worker.Sleeping? && s.work.Some? ==> s.main.Signalling?)
            && (s.worker.Exited? ==>
                  s.rc == OK && ((s.token && s.onDone == Some(Closing)) || s.main.Joining? || s.main.Gone?))
            && (s.main.Joining? ==> s.worker == Posted(Closing) || s.worker.Exited?)
            && (s.main.Gone? ==> s.worker.Exited? && s.list.attached == [] && s.list.open == {})
  {
    RunInv(es, ss, i);
    if ss[i].list.attached == [] { NoneOpen(ss[i].list); }
  }

  /** A close that fails leaves an idle database with no statements and a live worker. */
  lemma {:induction false} FailedClose(es: seq<Event>, ss: seq<State>, i: nat)
    requires IsRun(es, ss) && i < |es|
    requires Emits(ss[i], es[i]).Some? && Emits(ss[i], es[i]).value.Completed?
    requires Emits(ss[i], es[i]).value.k.Closing? && Emits(ss[i], es[i]).value.rc != OK
    ensures var s := ss[i + 1];
            !s.busy && s.main.Free? && s.list.attached == [] && s.list.open == {} && !s.worker.Exited?
  {
    RunInv(es, ss, i);
    NoneOpen(ss[i].list);
  }

  /** No statement is finalized twice, and those not finalized are the ones in the list. */
  lemma {:induction false} FinalizedAtMostOnce(es: seq<Event>, ss: seq<State>, i: nat)
    requires IsRun(es, ss) && i <= |es|
    ensures var l := ss[i].list;
            !l.refinalized && Distinct(l.attached) && (forall x :: x in l.open <==> x in l.attached)
            && (forall x :: x in l.attached ==> x !in l.detached)
  {
    RunInv(es, ss, i);
  }

  /** A record appears by a successful prepare and disappears by osi_finalize_statement only;
      the drain moves it from the list to the detached records. */
  lemma {:induction false} RecordsKept(s: State, e: Event, x: nat)
    requires Inv(s) && Enabled(s, e)
    ensures var s' := Apply(s, e);
            && (Live(s.list, x) && !Live(s'.list, x) <==> e == Finalize(x) && (x in s.list.detached || !s.busy))
            && (!Live(s.list, x) && Live(s'.list, x) <==>
                  e == Finish(OK, true) && s.worker.k.Preparing? && x == s.list.next)
  {
    match e
    case Finalize(st) => WithoutContents(s.list.attached, st);
    case Drain =>
      assert s.list.attached == [s.list.attached[0]] + s.list.attached[1..];
      ConsContents(s.list.attached[0], s.list.attached[1..]);
    case Finish(_, _) => ConsContents(s.list.next, s.list.attached);
    case _ =>
  }

  // ---------- every accepted request is run once and completed once ----------

  lemma {:induction false} ObservedInRun(es: seq<Event>, ss: seq<State>, i: nat)
    requires IsRun(es, ss) && i <= |es|
    ensures Observed(es, ss, i) == PhaseOf(ss[i]) != Broken
  {
    RunInv(es, ss, i);
    if i > 0 {
      RunInv(es, ss, i - 1);
      ObservedInRun(es, ss, i - 1);
      ObserveStep(ss[i - 1], es[i - 1]);
    }
  }

  ghost predicate Silent(es: seq<Event>, ss: seq<State>, j: nat, i: nat)
    requires i <= |es| <= |ss| && forall k :: 0 <= k < |es| ==> Enabled(ss[k], es[k])
  {
    forall k :: j < k < i ==> Emits(ss[k], es[k]).None?
  }

  lemma {:induction false} LastEntry(es: seq<Event>, ss: seq<State>, i: nat) returns (j: nat)
    requires IsRun(es, ss) && i <= |es| && Observed(es, ss, i) != Quiet
    ensures j < i && Silent(es, ss, j, i) && Emits(ss[j], es[j]).Some?
    ensures Observed(es, ss, i) == Observed(es, ss, j + 1)
  {
    if Emits(ss[i - 1], es[i - 1]).Some? {
      j := i - 1;
    } else {
      j := LastEntry(es, ss, i - 1);
    }
  }

  lemma BeforeCompleted(p: Phase, done: Entry)
    requires done.Completed? && Observe(p, Some(done)) != Broken
    ensures p.Done? && p.rc == done.rc && p.made == done.made
    ensures p.req.cb == done.cb && p.req.Kind() == done.k && p.req.Data() == done.data
  {}

  lemma BeforeRan(p: Phase, ran: Entry)
    requires ran.Ran? && Observe(p, Some(ran)) != Broken
    ensures p.Asked? && p.req.Kind() == ran.k && p.req.Data() == ran.data
  {}

  lemma TurnsDone(p: Phase, entry: Entry, req: Request, rc: int, made: Option<nat>)
    requires Observe(p, Some(entry)) == Done(req, rc, made)
    ensures p == Asked(req) && entry == Ran(req.Kind(), req.Data(), rc, made)
  {}

  lemma TurnsAsked(p: Phase, entry: Entry, req: Request)
    requires Observe(p, Some(entry)) == Asked(req)
    ensures entry == Accepted(req)
  {}

  lemma AcceptedBy(s: State, e: Event, req: Request)
    requires Enabled(s, e) && Emits(s, e) == Some(Accepted(req))
    ensures e == Submit(req)
  {}

  /** What a work function leaves: SQLite's code as it is, but for a prepare that has no memory
      for its record, and a new record at the head of the list for one that has. */
  ghost predicate Leaves(s: State, e: Event, s': State, ran: Entry) {
    && e.Finish? && s.worker.Working? && ran.Ran? && ran.k == s.worker.k
    && ran.rc == s'.rc == (if ran.k.Preparing? && e.rc == OK && !e.mallocOk then NOMEM else e.rc)
    && (if ran.k.Preparing? && e.rc == OK && e.mallocOk
        then ran.made == Some(s.list.next) && s'.list.attached == [s.list.next] + s.list.attached
        else ran.made == None && s'.list == s.list)
  }

  lemma RanLeaves(s: State, e: Event)
    requires Enabled(s, e) && Emits(s, e).Some? && Emits(s, e).value.Ran?
    ensures Leaves(s, e, Apply(s, e), Emits(s, e).value)
  {}

  /** What is completed was run, once since the last completion, with that result. */
  lemma {:induction false} RunOf(es: seq<Event>, ss: seq<State>, i: nat) returns (k: nat, req: Request)
    requires IsRun(es, ss) && i < |es|
    requires Emits(ss[i], es[i]).Some? && Emits(ss[i], es[i]).value.Completed?
    ensures k < i && Silent(es, ss, k, i) && Observed(es, ss, k) == Asked(req)
    ensures var done := Emits(ss[i], es[i]).value;
            && done.cb == req.cb && done.k == req.Kind() && done.data == req.Data()
            && Emits(ss[k], es[k]) == Some(Ran(done.k, done.data, done.rc, done.made))
            && Leaves(ss[k], es[k], ss[k + 1], Ran(done.k, done.data, done.rc, done.made))
  {
    var done := Emits(ss[i], es[i]).value;
    ObservedInRun(es, ss, i + 1);
    BeforeCompleted(Observed(es, ss, i), done);
    req := Observed(es, ss, i).req;
    k := LastEntry(es, ss, i);
    TurnsDone(Observed(es, ss, k), Emits(ss[k], es[k]).value, req, done.rc, done.made);
    RanLeaves(ss[k], es[k]);
  }

  /** What is run was submitted and accepted, and nothing has been run for it before. */
  lemma {:induction false} SubmissionOf(es: seq<Event>, ss: seq<State>, k: nat) returns (j: nat, req: Request)
    requires IsRun(es, ss) && k < |es|
    requires Emits(ss[k], es[k]).Some? && Emits(ss[k], es[k]).value.Ran?
    ensures j < k && Silent(es, ss, j, k) && Observed(es, ss, k) == Asked(req)
    ensures es[j] == Submit(req) && Emits(ss[j], es[j]) == Some(Accepted(req))
    ensures Emits(ss[k], es[k]).value.k == req.Kind() && Emits(ss[k], es[k]).value.data == req.Data()
  {
    ObservedInRun(es, ss, k + 1);
    BeforeRan(Observed(es, ss, k), Emits(ss[k], es[k]).value);
    req := Observed(es, ss, k).req;
    j := LastEntry(es, ss, k);
    TurnsAsked(Observed(es, ss, j), Emits(ss[j], es[j]).value, req);
    AcceptedBy(ss[j], es[j], req);
  }

  /** Behind every completion there is one submission and one run of the work function, in
      that order and with nothing between. The completion carries the code that SQLite gave
      that run, and for a prepare the statement that the run itself created. */
  lemma {:induction false} CompletedOnce(es: seq<Event>, ss: seq<State>, i: nat) returns (j: nat, k: nat, req: Request)
    requires IsRun(es, ss) && i < |es|
    requires Emits(ss[i], es[i]).Some? && Emits(ss[i], es[i]).value.Completed?
    ensures j < k < i && Silent(es, ss, j, k) && Silent(es, ss, k, i)
    ensures es[j] == Submit(req) && Emits(ss[j], es[j]) == Some(Accepted(req))
    ensures var done := Emits(ss[i], es[i]).value;
            && done.cb == req.cb && done.k == req.Kind()
            && Emits(ss[k], es[k]) == Some(Ran(req.Kind(), req.Data(), done.rc, done.made))
            && es[k].Finish? && ss[k].worker == Working(req.Kind())
            && done.rc == (if req.Prepare? && es[k].rc == OK && !es[k].mallocOk then NOMEM else es[k].rc)
            && done.made == (if req.Prepare? && es[k].rc == OK && es[k].mallocOk then Some(ss[k].list.next) else None)
  {
    k, req := RunOf(es, ss, i);
    ghost var same;
    j, same := SubmissionOf(es, ss, k);
  }

  // ---------- and it is completed soon ----------

  predicate Progress(e: Event) { !e.Submit? && !e.Finalize? && !e.Spurious? }

  /** As long as a request is not completed, a step towards that can be taken. */
  lemma {:induction false} NeverStuck(es: seq<Event>, ss: seq<State>) returns (e: Event)
    requires IsRun(es, ss)
    requires Observed(es, ss, |es|) != Quiet && Observed(es, ss, |es|) != Ended
    ensures Enabled(ss[|es|], e) && Progress(e)
  {
    var s := ss[|es|];
    RunInv(es, ss, |es|);
    ObservedInRun(es, ss, |es|);
    match s.worker
    case Starting => e := WorkerLock;
    case Checking => e := Check;
    case Working(k) => e := if k.Closing? && s.list.attached != [] then Drain else Finish(OK, true);
    case Finishing(_) => e := Relock;
    case Posting(_) => e := Post;
    case Posted(_) => e := Decide;
    case Sleeping => e := if s.main.Storing? then Store else if s.main.Signalling? then Signal else Complete;
    case Exited => e := if s.main.Joining? then Join else if s.main.Signalling? then Signal else Complete;
  }

  function WorkerWeight(s: State): nat {
    match s.worker
    case Sleeping => if s.work.Some? then 7 else 0
    case Starting => if s.work.Some? then 9 else 2
    case Checking => if s.work.Some? then 8 else 1
    case Working(_) => 7
    case Finishing(_) => 5
    case Posting(_) => 4
    case Posted(_) => 1
    case Exited => 0
  }

  function Potential(s: State): nat {
    WorkerWeight(s) + |s.list.attached| + (if s.token then 2 else 0)
    + match s.main { case Storing(_) => 11 case Signalling => 3 case Joining(_) => 1 case _ => 0 }
  }

  function Credit(e: Event): nat {
    match e
    case Submit(_) => 12
    case Finalize(_) => 1
    case Spurious => 3
    case _ => 0
  }

  lemma {:induction false} WithoutLength(q: seq<nat>, s: nat)
    ensures |Without(q, s)| <= |q|
  {
    if q != [] { WithoutLength(q[1..], s); }
  }

  lemma PotentialStep(s: State, e: Event)
    requires Inv(s) && Enabled(s, e)
    ensures Potential(Apply(s, e)) + 1 <= Potential(s) + Credit(e)
  {
    if e.Finalize? { WithoutLength(s.list.attached, e.s); }
  }

  function Credits(es: seq<Event>): nat {
    if es == [] then 0 else Credits(es[..|es| - 1]) + Credit(es[|es| - 1])
  }

  /** A run takes at most 12 steps for a request, 1 for a finalize and 3 for a spurious
      wake-up, beyond the 2 that first put the worker to sleep; draining is paid for by
      the prepares. */
  lemma {:induction false} RunBounded(es: seq<Event>, ss: seq<State>)
    requires IsRun(es, ss)
    ensures |es| + Potential(ss[|es|]) <= Credits(es) + 2
  {
    if es != [] {
      var m := |es| - 1;
      RunBounded(es[..m], ss[..m + 1]);
      RunInv(es, ss, m);
      PotentialStep(ss[m], es[m]);
    }
  }
}
