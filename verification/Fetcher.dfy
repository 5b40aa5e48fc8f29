/**
 The fetcher of the apt-archive proxy: a gen-server that coalesces requests for the same path.
 Callers wait in lists by path; a monitored worker fetches a path, renames the file into place,
 sends its result, closes its buffered port and exits, or dies at any point; its result or its
 abnormal exit answers everybody waiting on the path.
 A call and its `from` are the index of the call, a process is the index of its spawning.
 */
module Fetcher {
  import opened Options

  type Path = nat
  type Caller = nat
  type Pid = nat
  type Byte = bv8

  /** What a caller is told: #t, #f, the location of a redirect, or the error of a DOWN. */
  datatype Status = True | False | Elsewhere(location: nat) | Fault(err: nat)

  /** A worker has ended with reason normal when its error is None; `sent` says whether it had
      sent its result. */
  datatype Phase = Fetching | Fetched(status: Status) | Renamed | Sent | Ended(err: Option<nat>, sent: bool)

  /** A worker and the file it has opened, whatever that is named by now. */
  datatype Worker = Worker(
    path: Path,
    phase: Phase,
    body: seq<Byte>,      // what it has fetched
    file: seq<Byte>,      // what of that is in the file
    buffer: seq<Byte>,    // what its output port has still to write
    closed: bool)         // the port

  function NewWorker(path: Path): Worker { Worker(path, Fetching, [], [], [], false) }

  /** The pid of a result is not in the message; the server never looks at it. */
  datatype Msg =
    | Req(caller: Caller, path: Path)
    | Result(pid: Pid, path: Path, status: Status)
    | Down(pid: Pid, err: Option<nat>)

  datatype Reply = Reply(caller: Caller, status: Status)

  datatype State = State(
    offline: bool,
    calls: seq<Path>,                    // what each call asked for
    requests: map<Path, seq<Caller>>,    // the two fields of <fetcher>
    workers: map<Pid, Path>,
    mailbox: seq<Msg>,
    spawned: seq<Worker>,
    files: set<Path>,                    // the paths whose target file exists
    placed: map<Path, Pid>,              // whose file it is, if a worker renamed it there
    replies: seq<Reply>,
    crashed: bool)                       // the server, by a failed assert

  datatype Event =
    | Call(path: Path)
    | Appear(path: Path)                 // a target file put there by someone else
    | Handle
    | Fetch(pid: Pid, status: Status, body: seq<Byte>, n: nat)  // n bytes are written out, the rest buffered
    | Rename(pid: Pid)
    | Send(pid: Pid)
    | Close(pid: Pid)                    // close-port writes out what the port has buffered
    | Exit(pid: Pid)
    | Crash(pid: Pid, err: nat, closes: bool)

  predicate External(e: Event) { e.Call? || e.Appear? }

  function Init(offline: bool, files: set<Path>): State {
    State(offline, [], map[], map[], [], [], files, map[], [], false)
  }

  function Waiting(requests: map<Path, seq<Caller>>, path: Path): seq<Caller> {
    if path in requests then requests[path] else []
  }

  /** A result is sent once fetched, and a file only once it is in place. */
  predicate Sends(ph: Phase) { ph.Renamed? || (ph.Fetched? && ph.status != True) }

  /** The steps a worker can take in each phase. */
  predicate Takes(w: Worker, e: Event) {
    match e
    case Fetch(_, status, body, n) => w.phase.Fetching? && !status.Fault? && n <= |body|
    case Rename(_) => w.phase == Fetched(True)
    case Send(_) => Sends(w.phase)
    case Close(_) => w.phase.Sent? && !w.closed
    case Exit(_) => w.phase.Sent? && w.closed
    case Crash(_, _, _) => !w.phase.Ended?
    case _ => false
  }

  predicate Enabled(s: State, e: Event) {
    match e
    case Call(_) => true
    case Appear(_) => true
    case Handle => !s.crashed && s.mailbox != []
    case _ => e.pid < |s.spawned| && Takes(s.spawned[e.pid], e)
  }

  function SentStatus(ph: Phase): Status
    requires Sends(ph)
  {
    if ph.Renamed? then True else ph.status
  }

  /** The replies of reply-all, in the order they are sent. */
  function ReplyAll(waiting: seq<Caller>, status: Status): seq<Reply> {
    seq(|waiting|, i requires 0 <= i < |waiting| => Reply(waiting[i], status))
  }

  function Answered(s: State, path: Path, status: Status): State {
    s.(replies := s.replies + ReplyAll(Waiting(s.requests, path), status), requests := s.requests - {path})
  }

  /** handle-call */
  function HandleCall(s: State, caller: Caller, path: Path): State {
    if path in s.files then s.(replies := s.replies + [Reply(caller, True)])
    else if s.offline then s.(replies := s.replies + [Reply(caller, False)])
    else
      var waiting := Waiting(s.requests, path);
      var s' := s.(requests := s.requests[path := [caller] + waiting]);
      if waiting == [] then
        s'.(workers := s.workers[|s.spawned| := path], spawned := s.spawned + [NewWorker(path)])
      else s'
  }

  /** handle-info for a DOWN; the process must be one of the workers. */
  function HandleDown(s: State, pid: Pid, err: Option<nat>): State {
    if pid !in s.workers then s.(crashed := true)
    else
      var s' := if err.None? then s else Answered(s, s.workers[pid], Fault(err.value));
      s'.(workers := s.workers - {pid})
  }

  function Handled(s: State, m: Msg): State {
    match m
    case Req(caller, path) => HandleCall(s, caller, path)
    case Result(_, path, status) => Answered(s, path, status)
    case Down(pid, err) => HandleDown(s, pid, err)
  }

  /** close-port writes out the rest of the buffer. */
  function Closed(w: Worker): Worker { w.(file := w.file + w.buffer, buffer := [], closed := true) }

  function After(w: Worker, e: Event): Worker
    requires Takes(w, e)
  {
    match e
    case Fetch(_, status, body, n) => w.(phase := Fetched(status), body := body, file := body[..n], buffer := body[n..])
    case Rename(_) => w.(phase := Renamed)
    case Send(_) => w.(phase := Sent)
    case Close(_) => Closed(w)
    case Exit(_) => w.(phase := Ended(None, true))
    case Crash(_, err, closes) => (if closes then Closed(w) else w).(phase := Ended(Some(err), w.phase.Sent?))
  }

  /** What a step puts into the mailbox of the server. */
  function Posts(s: State, e: Event): seq<Msg>
    requires Enabled(s, e)
  {
    match e
    case Call(path) => [Req(|s.calls|, path)]
    case Send(pid) => [Result(pid, s.spawned[pid].path, SentStatus(s.spawned[pid].phase))]
    case Exit(pid) => [Down(pid, None)]
    case Crash(pid, err, _) => [Down(pid, Some(err))]
    case _ => []
  }

  function Moved(s: State, e: Event): State
    requires Enabled(s, e) && !External(e) && !e.Handle?
  {
    var w := s.spawned[e.pid];
    var s' := s.(spawned := s.spawned[e.pid := After(w, e)], mailbox := s.mailbox + Posts(s, e));
    if e.Rename? then s'.(files := s.files + {w.path}, placed := s.placed[w.path := e.pid]) else s'
  }

  function Apply(s: State, e: Event): State
    requires Enabled(s, e)
  {
    match e
    case Call(path) => s.(calls := s.calls + [path], mailbox := s.mailbox + Posts(s, e))
    case Appear(path) => s.(files := s.files + {path}, placed := s.placed - {path})
    case Handle => Handled(s.(mailbox := s.mailbox[1..]), s.mailbox[0])
    case _ => Moved(s, e)
  }

  ghost predicate IsRun(es: seq<Event>, ss: seq<State>) {
    && |ss| == |es| + 1 && ss[0] == Init(ss[0].offline, ss[0].files)
    && forall i :: 0 <= i < |es| ==> Enabled(ss[i], es[i]) && ss[i + 1] == Apply(ss[i], es[i])
  }

  // ---------- workers and their messages ----------

  predicate Of(m: Msg, pid: Pid) { !m.Req? && m.pid == pid }

  function Mine(m: Msg, pid: Pid): seq<Msg> { if Of(m, pid) then [m] else [] }

  /** The messages about one worker that are still to be handled. */
  function From(ms: seq<Msg>, pid: Pid): seq<Msg> {
    if ms == [] then [] else Mine(ms[0], pid) + From(ms[1..], pid)
  }

  lemma FromHead(ms: seq<Msg>, pid: Pid)
    requires ms != []
    ensures From(ms, pid) == Mine(ms[0], pid) + From(ms[1..], pid)
  {}

  lemma Associative(a: seq<Msg>, b: seq<Msg>, c: seq<Msg>)
    ensures (a + b) + c == a + (b + c)
  {}

  lemma {:induction false} FromAppend(ms: seq<Msg>, more: seq<Msg>, pid: Pid)
    ensures From(ms + more, pid) == From(ms, pid) + From(more, pid)
  {
    if ms == [] {
      assert ms + more == more;
      assert From(ms, pid) + From(more, pid) == From(more, pid);
    } else {
      FromAppend(ms[1..], more, pid);
      FromHead(ms, pid);
      FromHead(ms + more, pid);
      assert (ms + more)[1..] == ms[1..] + more;
      Associative(Mine(ms[0], pid), From(ms[1..], pid), From(more, pid));
    }
  }

  lemma FromOne(m: Msg, pid: Pid)
    ensures From([m], pid) == Mine(m, pid)
  {
    assert From([m][1..], pid) == [];
  }

  predicate ResultOf(m: Msg, w: Worker, pid: Pid, files: set<Path>) {
    m.Result? && m.pid == pid && m.path == w.path && !m.status.Fault? && (m.status.True? ==> w.path in files)
  }

  /** What a worker has sent and the server has not handled, in each phase; it stays a monitored
      worker until its DOWN has been handled. */
  predicate WorkerInv(w: Worker, pid: Pid, ms: seq<Msg>, monitored: bool, files: set<Path>) {
    match w.phase
    case Fetching => ms == [] && monitored && !w.closed
    case Fetched(status) => ms == [] && monitored && !w.closed && !status.Fault?
    case Renamed => ms == [] && monitored && !w.closed && w.path in files
    case Sent => monitored && (ms == [] || (|ms| == 1 && ResultOf(ms[0], w, pid, files)))
    case Ended(err, sent) =>
      && (err.None? ==> w.closed)
      && (|| (ms == [] && !monitored)
          || (ms == [Down(pid, err)] && monitored)
          || (sent && |ms| == 2 && ResultOf(ms[0], w, pid, files) && ms[1] == Down(pid, err) && monitored))
  }

  predicate Monitored(s: State, pid: Pid)
    requires pid < |s.spawned|
  {
    pid in s.workers && s.workers[pid] == s.spawned[pid].path
  }

  predicate WorkerAt(s: State, pid: Pid)
    requires pid < |s.spawned|
  {
    && (pid in s.workers ==> Monitored(s, pid))
    && WorkerInv(s.spawned[pid], pid, From(s.mailbox, pid), Monitored(s, pid), s.files)
  }

  ghost predicate WorkersInv(s: State) {
    && !s.crashed
    && (forall pid :: 0 <= pid < |s.spawned| ==> WorkerAt(s, pid))
    && (forall pid: Pid :: pid >= |s.spawned| ==> pid !in s.workers && From(s.mailbox, pid) == [])
  }

  lemma HeadFrom(s: State)
    requires WorkersInv(s) && s.mailbox != [] && !s.mailbox[0].Req?
    ensures var pid := s.mailbox[0].pid;
            && pid < |s.spawned| && Monitored(s, pid)
            && From(s.mailbox, pid) == [s.mailbox[0]] + From(s.mailbox[1..], pid)
  {
    var pid := s.mailbox[0].pid;
    assert From(s.mailbox, pid) != [];
    assert WorkerAt(s, pid);
  }

  /** The oldest message of a worker is its result, or the DOWN that is its last. */
  lemma OldestFirst(w: Worker, pid: Pid, m: Msg, ms: seq<Msg>, monitored: bool, files: set<Path>)
    requires WorkerInv(w, pid, [m] + ms, monitored, files)
    ensures monitored && (m.Result? || m.Down?)
    ensures m.Result? ==> ResultOf(m, w, pid, files) && WorkerInv(w, pid, ms, monitored, files)
    ensures m.Down? ==>
              ms == [] && w.phase.Ended? && w.phase.err == m.err && m.pid == pid && WorkerInv(w, pid, ms, false, files)
  {
    assert ([m] + ms)[0] == m && |[m] + ms| == |ms| + 1;
    if |ms| == 1 { assert ([m] + ms)[1] == ms[0]; assert ms == [ms[0]]; }
  }

  lemma HandleCallFrame(s: State, caller: Caller, path: Path, pid: Pid)
    requires pid < |s.spawned|
    ensures var s' := HandleCall(s, caller, path);
            && s'.mailbox == s.mailbox && s'.files == s.files
            && |s'.spawned| >= |s.spawned| && s'.spawned[pid] == s.spawned[pid]
            && (pid in s'.workers <==> pid in s.workers)
            && (pid in s'.workers ==> s'.workers[pid] == s.workers[pid])
  {}

  lemma HandleDownFrame(s: State, dead: Pid, err: Option<nat>, pid: Pid)
    requires dead in s.workers
    ensures var s' := HandleDown(s, dead, err);
            && s'.mailbox == s.mailbox && s'.files == s.files && s'.spawned == s.spawned
            && (pid in s'.workers <==> pid in s.workers && dead != pid)
            && (pid in s'.workers ==> s'.workers[pid] == s.workers[pid])
  {}

  lemma HandledFrame(s: State, m: Msg, pid: Pid)
    requires pid < |s.spawned| && (m.Down? ==> m.pid in s.workers)
    ensures var s' := Handled(s, m);
            && s'.mailbox == s.mailbox && s'.files == s.files
            && |s'.spawned| >= |s.spawned| && s'.spawned[pid] == s.spawned[pid]
            && (pid in s'.workers <==> pid in s.workers && !(m.Down? && m.pid == pid))
            && (pid in s'.workers ==> s'.workers[pid] == s.workers[pid])
  {
    match m
    case Req(caller, path) => HandleCallFrame(s, caller, path, pid);
    case Down(dead, err) => HandleDownFrame(s, dead, err, pid);
    case _ =>
  }

  /** The server's step, as seen by one worker. */
  lemma HandleFrom(s: State, pid: Pid)
    requires WorkersInv(s) && Enabled(s, Handle) && pid < |s.spawned|
    ensures var m, s' := s.mailbox[0], Apply(s, Handle);
            && s'.mailbox == s.mailbox[1..] && From(s.mailbox, pid) == Mine(m, pid) + From(s'.mailbox, pid)
            && |s'.spawned| >= |s.spawned| && s'.spawned[pid] == s.spawned[pid] && s'.files == s.files
            && (pid in s'.workers <==> pid in s.workers && !(m.Down? && m.pid == pid))
            && (pid in s'.workers ==> s'.workers[pid] == s.workers[pid])
  {
    var m := s.mailbox[0];
    FromHead(s.mailbox, pid);
    assert m.Down? ==> m.pid in s.workers by { if m.Down? { HeadFrom(s); } }
    HandledFrame(s.(mailbox := s.mailbox[1..]), m, pid);
  }

  lemma HandleWorker(s: State, pid: Pid)
    requires WorkersInv(s) && Enabled(s, Handle) && pid < |s.spawned|
    ensures WorkerAt(Apply(s, Handle), pid)
  {
    assert WorkerAt(s, pid);
    var m, ms := s.mailbox[0], From(s.mailbox[1..], pid);
    HandleFrom(s, pid);
    if Of(m, pid) { OldestFirst(s.spawned[pid], pid, m, ms, Monitored(s, pid), s.files); }
    else { assert From(s.mailbox, pid) == ms; }
  }

  lemma HandleOthers(s: State)
    requires WorkersInv(s) && Enabled(s, Handle)
    ensures var s' := Apply(s, Handle);
            && !s'.crashed
            && (forall pid: Pid :: pid >= |s'.spawned| ==> pid !in s'.workers && From(s'.mailbox, pid) == [])
            && (|s'.spawned| > |s.spawned| ==> |s'.spawned| == |s.spawned| + 1 && WorkerAt(s', |s.spawned|))
  {
    if !s.mailbox[0].Req? { HeadFrom(s); }
    forall pid: Pid | pid >= |s.spawned| ensures From(s.mailbox[1..], pid) == [] {
      assert From(s.mailbox, pid) == [];
    }
  }

  predicate Takes1(e: Event, pid: Pid) { !External(e) && !e.Handle? && e.pid == pid }

  /** A step other than the server's, as seen by one worker. */
  lemma MoveFrom(s: State, e: Event, pid: Pid)
    requires Enabled(s, e) && !e.Handle?
    ensures var s' := Apply(s, e);
            && s'.workers == s.workers && s'.crashed == s.crashed && |s'.spawned| == |s.spawned| && s.files <= s'.files
            && From(s'.mailbox, pid) == From(s.mailbox, pid) + (if Takes1(e, pid) then Posts(s, e) else [])
            && (pid < |s.spawned| ==>
                  var w := s.spawned[pid];
                  s'.spawned[pid] == if Takes1(e, pid) then After(w, e) else w)
  {
    FromAppend(s.mailbox, Posts(s, e), pid);
    if Posts(s, e) != [] {
      FromOne(Posts(s, e)[0], pid);
      assert Posts(s, e) == [Posts(s, e)[0]];
    } else {
      assert s.mailbox + [] == s.mailbox;
    }
  }

  lemma MoreFiles(w: Worker, pid: Pid, ms: seq<Msg>, monitored: bool, files: set<Path>, files': set<Path>)
    requires WorkerInv(w, pid, ms, monitored, files) && files <= files'
    ensures WorkerInv(w, pid, ms, monitored, files')
  {}

  /** A worker's own step. */
  lemma StepWorker(s: State, e: Event, ms: seq<Msg>, files: set<Path>)
    requires !External(e) && !e.Handle? && Enabled(s, e)
    requires WorkerInv(s.spawned[e.pid], e.pid, ms, true, files)
    requires e.Rename? ==> s.spawned[e.pid].path in files
    ensures var w := s.spawned[e.pid];
            WorkerInv(After(w, e), e.pid, ms + Posts(s, e), true, files)
  {}

  lemma MoveWorker(s: State, e: Event, pid: Pid)
    requires WorkersInv(s) && Enabled(s, e) && !e.Handle? && pid < |s.spawned|
    ensures WorkerAt(Apply(s, e), pid)
  {
    assert WorkerAt(s, pid);
    MoveFrom(s, e, pid);
    var ms, files := From(s.mailbox, pid), Apply(s, e).files;
    MoreFiles(s.spawned[pid], pid, ms, Monitored(s, pid), s.files, files);
    if Takes1(e, pid) { StepWorker(s, e, ms, files); } else { assert ms + [] == ms; }
  }

  lemma MoveOthers(s: State, e: Event, pid: Pid)
    requires WorkersInv(s) && Enabled(s, e) && !e.Handle? && pid >= |s.spawned|
    ensures pid !in Apply(s, e).workers && From(Apply(s, e).mailbox, pid) == []
  {
    MoveFrom(s, e, pid);
  }

  lemma WorkersHandle(s: State)
    requires WorkersInv(s) && Enabled(s, Handle)
    ensures WorkersInv(Apply(s, Handle))
  {
    HandleOthers(s);
    forall pid | 0 <= pid < |Apply(s, Handle).spawned| ensures WorkerAt(Apply(s, Handle), pid) {
      if pid < |s.spawned| { HandleWorker(s, pid); }
    }
  }

  lemma WorkersMove(s: State, e: Event)
    requires WorkersInv(s) && Enabled(s, e) && !e.Handle?
    ensures WorkersInv(Apply(s, e))
  {
    var s' := Apply(s, e);
    MoveFrom(s, e, 0);
    forall pid | 0 <= pid < |s'.spawned| ensures WorkerAt(s', pid) { MoveWorker(s, e, pid); }
    forall pid: Pid | pid >= |s'.spawned| ensures pid !in s'.workers && From(s'.mailbox, pid) == [] {
      MoveOthers(s, e, pid);
    }
  }

  lemma WorkersStep(s: State, e: Event)
    requires WorkersInv(s) && Enabled(s, e)
    ensures WorkersInv(Apply(s, e))
  {
    if e.Handle? { WorkersHandle(s); } else { WorkersMove(s, e); }
  }

  // ---------- callers ----------

  predicate Knows(s: State, caller: Caller, path: Path) { caller < |s.calls| && s.calls[caller] == path }

  function Told(replies: seq<Reply>, caller: Caller): nat {
    if replies == [] then 0
    else Told(replies[..|replies| - 1], caller) + if replies[|replies| - 1].caller == caller then 1 else 0
  }

  function Asked(ms: seq<Msg>, caller: Caller): nat {
    if ms == [] then 0 else (if ms[0].Req? && ms[0].caller == caller then 1 else 0) + Asked(ms[1..], caller)
  }

  function Waits(waiting: seq<Caller>, caller: Caller): nat {
    if waiting == [] then 0 else (if waiting[0] == caller then 1 else 0) + Waits(waiting[1..], caller)
  }

  /** How often a call is still unread, waiting for its path, or answered. */
  function Places(s: State, caller: Caller): nat
    requires caller < |s.calls|
  {
    Asked(s.mailbox, caller) + Waits(Waiting(s.requests, s.calls[caller]), caller) + Told(s.replies, caller)
  }

  ghost predicate CallersInv(s: State) {
    && (forall m :: m in s.mailbox && m.Req? ==> Knows(s, m.caller, m.path))
    && (forall path, caller :: caller in Waiting(s.requests, path) ==> Knows(s, caller, path))
    && (forall r :: r in s.replies ==> r.caller < |s.calls|)
    && (forall caller :: 0 <= caller < |s.calls| ==> Places(s, caller) == 1)
  }

  lemma {:induction false} AskedAppend(ms: seq<Msg>, more: seq<Msg>, caller: Caller)
    ensures Asked(ms + more, caller) == Asked(ms, caller) + Asked(more, caller)
  {
    if ms == [] {
      assert ms + more == more;
    } else {
      AskedAppend(ms[1..], more, caller);
      assert (ms + more)[1..] == ms[1..] + more;
    }
  }

  lemma ToldAppend(replies: seq<Reply>, r: Reply, caller: Caller)
    ensures Told(replies + [r], caller) == Told(replies, caller) + if r.caller == caller then 1 else 0
  {
    assert (replies + [r])[..|replies|] == replies;
  }

  lemma {:induction false} ToldAll(replies: seq<Reply>, waiting: seq<Caller>, status: Status, caller: Caller)
    ensures Told(replies + ReplyAll(waiting, status), caller) == Told(replies, caller) + Waits(waiting, caller)
    decreases |waiting|
  {
    if waiting == [] {
      assert replies + ReplyAll(waiting, status) == replies;
    } else {
      var first := Reply(waiting[0], status);
      ToldAppend(replies, first, caller);
      ToldAll(replies + [first], waiting[1..], status, caller);
      assert replies + ReplyAll(waiting, status) == (replies + [first]) + ReplyAll(waiting[1..], status);
    }
  }

  lemma {:induction false} NotAsked(ms: seq<Msg>, caller: Caller)
    requires forall m :: m in ms && m.Req? ==> m.caller != caller
    ensures Asked(ms, caller) == 0
  {
    if ms != [] { NotAsked(ms[1..], caller); }
  }

  lemma {:induction false} NotWaiting(waiting: seq<Caller>, caller: Caller)
    requires caller !in waiting
    ensures Waits(waiting, caller) == 0
  {
    if waiting != [] { NotWaiting(waiting[1..], caller); }
  }

  lemma {:induction false} NotTold(replies: seq<Reply>, caller: Caller)
    requires forall r :: r in replies ==> r.caller != caller
    ensures Told(replies, caller) == 0
  {
    if replies != [] { NotTold(replies[..|replies| - 1], caller); }
  }

  lemma NewCaller(s: State, path: Path)
    requires CallersInv(s)
    ensures Places(Apply(s, Call(path)), |s.calls|) == 1
  {
    var caller := |s.calls|;
    AskedAppend(s.mailbox, [Req(caller, path)], caller);
    NotAsked(s.mailbox, caller);
    NotWaiting(Waiting(s.requests, path), caller);
    NotTold(s.replies, caller);
  }

  lemma MoveCaller(s: State, e: Event, caller: Caller)
    requires CallersInv(s) && Enabled(s, e) && !e.Handle? && caller < |s.calls|
    ensures Places(Apply(s, e), caller) == 1
  {
    assert Places(s, caller) == 1;
    AskedAppend(s.mailbox, Posts(s, e), caller);
    NotAsked(Posts(s, e), caller);
  }

  lemma AnsweredPlaces(s: State, path: Path, status: Status, caller: Caller)
    requires caller < |s.calls| && (forall c :: c in Waiting(s.requests, path) ==> Knows(s, c, path))
    ensures Places(Answered(s, path, status), caller) == Places(s, caller)
  {
    ToldAll(s.replies, Waiting(s.requests, path), status, caller);
    if s.calls[caller] != path { NotWaiting(Waiting(s.requests, path), caller); }
  }

  lemma AskedHead(m: Msg, ms: seq<Msg>, caller: Caller)
    ensures Asked([m] + ms, caller) == (if m.Req? && m.caller == caller then 1 else 0) + Asked(ms, caller)
  {
    assert ([m] + ms)[1..] == ms;
  }

  lemma WaitsHead(first: Caller, waiting: seq<Caller>, caller: Caller)
    ensures Waits([first] + waiting, caller) == (if first == caller then 1 else 0) + Waits(waiting, caller)
  {
    assert ([first] + waiting)[1..] == waiting;
  }

  lemma HandleCallPlaces(s: State, m: Msg, ms: seq<Msg>, caller: Caller)
    requires m.Req? && Knows(s, m.caller, m.path) && s.mailbox == [m] + ms && caller < |s.calls|
    ensures Places(HandleCall(s.(mailbox := ms), m.caller, m.path), caller) == Places(s, caller)
  {
    AskedHead(m, ms, caller);
    if m.path in s.files { ToldAppend(s.replies, Reply(m.caller, True), caller); }
    else if s.offline { ToldAppend(s.replies, Reply(m.caller, False), caller); }
    else { WaitsHead(m.caller, Waiting(s.requests, m.path), caller); }
  }

  lemma HandleCaller(s: State, caller: Caller)
    requires WorkersInv(s) && CallersInv(s) && Enabled(s, Handle) && caller < |s.calls|
    ensures Places(Apply(s, Handle), caller) == 1
  {
    var m, ms := s.mailbox[0], s.mailbox[1..];
    var s0 := s.(mailbox := ms);
    assert s.mailbox == [m] + ms;
    assert Places(s, caller) == 1 && m in s.mailbox;
    match m
    case Req(c, path) => HandleCallPlaces(s, m, ms, caller);
    case Result(_, path, status) => AnsweredPlaces(s0, path, status, caller);
    case Down(pid, err) =>
      HeadFrom(s);
      if err.Some? { AnsweredPlaces(s0, s.workers[pid], Fault(err.value), caller); }
  }

  lemma ReplyAllTo(waiting: seq<Caller>, status: Status, r: Reply)
    requires r in ReplyAll(waiting, status)
    ensures r.caller in waiting && r.status == status
  {}

  lemma AnsweredKnown(s: State, path: Path, status: Status)
    requires forall path, caller :: caller in Waiting(s.requests, path) ==> Knows(s, caller, path)
    ensures var s' := Answered(s, path, status);
            && (forall path, caller :: caller in Waiting(s'.requests, path) ==> Knows(s', caller, path))
            && (forall r :: r in s'.replies ==> r in s.replies || (Knows(s, r.caller, path) && r.status == status))
  {
    var s' := Answered(s, path, status);
    forall r | r in s'.replies ensures r in s.replies || (Knows(s, r.caller, path) && r.status == status) {
      if r !in s.replies { ReplyAllTo(Waiting(s.requests, path), status, r); }
    }
    forall p, caller | caller in Waiting(s'.requests, p) ensures Knows(s', caller, p) {
      assert caller in Waiting(s.requests, p);
    }
  }

  lemma HandleCallKnown(s: State, caller: Caller, path: Path)
    requires Knows(s, caller, path)
    requires forall path, caller :: caller in Waiting(s.requests, path) ==> Knows(s, caller, path)
    ensures var s' := HandleCall(s, caller, path);
            && (forall path, caller :: caller in Waiting(s'.requests, path) ==> Knows(s', caller, path))
            && (forall r :: r in s'.replies ==>
                  r in s.replies || (r.caller == caller && (r.status.True? ==> path in s.files)))
  {
    var s' := HandleCall(s, caller, path);
    forall p, c | c in Waiting(s'.requests, p) ensures Knows(s', c, p) {
      if c !in Waiting(s.requests, p) { assert c == caller && p == path; }
    }
  }

  /** Who is answered by handling a message, and with what. */
  lemma HandleReplies(s: State)
    requires WorkersInv(s) && CallersInv(s) && Enabled(s, Handle)
    ensures var s' := Apply(s, Handle);
            && (forall path, caller :: caller in Waiting(s'.requests, path) ==> Knows(s, caller, path))
            && (forall r :: r in s'.replies ==>
                  r in s.replies || (r.caller < |s.calls| && (r.status.True? ==> s.calls[r.caller] in s.files)))
  {
    var m, s0 := s.mailbox[0], s.(mailbox := s.mailbox[1..]);
    assert m in s.mailbox;
    match m
    case Req(caller, path) => HandleCallKnown(s0, caller, path);
    case Result(pid, path, status) =>
      HeadFrom(s);
      assert WorkerAt(s, pid);
      OldestFirst(s.spawned[pid], pid, m, From(s.mailbox[1..], pid), Monitored(s, pid), s.files);
      AnsweredKnown(s0, path, status);
    case Down(pid, err) =>
      HeadFrom(s);
      if err.Some? { AnsweredKnown(s0, s.workers[pid], Fault(err.value)); }
  }

  lemma HandleKnown(s: State)
    requires WorkersInv(s) && CallersInv(s) && Enabled(s, Handle)
    ensures var s' := Apply(s, Handle);
            && s'.calls == s.calls
            && (forall m :: m in s'.mailbox && m.Req? ==> Knows(s', m.caller, m.path))
            && (forall path, caller :: caller in Waiting(s'.requests, path) ==> Knows(s', caller, path))
            && (forall r :: r in s'.replies ==> r.caller < |s'.calls|)
  {
    HandleReplies(s);
    if !s.mailbox[0].Req? { HeadFrom(s); }
  }

  lemma CallersStep(s: State, e: Event)
    requires WorkersInv(s) && CallersInv(s) && Enabled(s, e)
    ensures CallersInv(Apply(s, e))
  {
    var s' := Apply(s, e);
    if e.Handle? { HandleKnown(s); }
    forall caller | 0 <= caller < |s'.calls| ensures Places(s', caller) == 1 {
      if e.Handle? { HandleCaller(s, caller); }
      else if caller < |s.calls| { MoveCaller(s, e, caller); }
      else { NewCaller(s, e.path); }
    }
  }

  // ---------- nobody is stranded ----------

  predicate Unsent(ph: Phase) { !ph.Sent? && !ph.Ended? }

  predicate On(s: State, pid: Pid, path: Path) { pid < |s.spawned| && s.spawned[pid].path == path }

  /** A worker whose result is still to come. */
  predicate Active(s: State, pid: Pid, path: Path) {
    && On(s, pid, path)
    && var ms := From(s.mailbox, pid);
       (Unsent(s.spawned[pid].phase) || (ms != [] && ms[0].Result?))
  }

  /** A worker that has died without a result, which the server has still to learn. */
  predicate Abandoned(s: State, pid: Pid, path: Path) {
    && On(s, pid, path)
    && var ph := s.spawned[pid].phase;
       (ph.Ended? && ph.err.Some? && !ph.sent && From(s.mailbox, pid) == [Down(pid, ph.err)])
  }

  /** The worker last spawned for a path is the one that the callers on its list wait for. */
  ghost predicate Latest(s: State, pid: Pid, path: Path) {
    On(s, pid, path) && forall q :: pid < q < |s.spawned| ==> s.spawned[q].path != path
  }

  ghost predicate Awaited(s: State, pid: Pid, path: Path) {
    Latest(s, pid, path) && (Active(s, pid, path) || Abandoned(s, pid, path))
  }

  ghost predicate Owed(s: State, path: Path) { exists pid :: Awaited(s, pid, path) }

  ghost predicate OwedInv(s: State) {
    forall path :: Waiting(s.requests, path) != [] ==> Owed(s, path)
  }

  lemma AfterPath(w: Worker, e: Event)
    requires Takes(w, e)
    ensures After(w, e).path == w.path
  {}

  lemma MovePaths(s: State, e: Event)
    requires Enabled(s, e) && !e.Handle?
    ensures |Apply(s, e).spawned| == |s.spawned|
    ensures forall q :: 0 <= q < |s.spawned| ==> Apply(s, e).spawned[q].path == s.spawned[q].path
  {
    if !External(e) { AfterPath(s.spawned[e.pid], e); }
  }

  lemma MoveLatest(s: State, e: Event, pid: Pid, path: Path)
    requires Enabled(s, e) && !e.Handle? && Latest(s, pid, path)
    ensures Latest(Apply(s, e), pid, path)
  {
    MovePaths(s, e);
  }

  lemma MoveActive(s: State, e: Event, pid: Pid, path: Path)
    requires WorkersInv(s) && Enabled(s, e) && !e.Handle? && Active(s, pid, path)
    ensures Active(Apply(s, e), pid, path) || Abandoned(Apply(s, e), pid, path)
  {
    assert WorkerAt(s, pid);
    MoveFrom(s, e, pid);
  }

  lemma MoveAbandoned(s: State, e: Event, pid: Pid, path: Path)
    requires Enabled(s, e) && !e.Handle? && Abandoned(s, pid, path)
    ensures Abandoned(Apply(s, e), pid, path)
  {
    MoveFrom(s, e, pid);
  }

  lemma MoveAwaited(s: State, e: Event, pid: Pid, path: Path)
    requires WorkersInv(s) && Enabled(s, e) && !e.Handle? && Awaited(s, pid, path)
    ensures Awaited(Apply(s, e), pid, path)
  {
    MoveLatest(s, e, pid, path);
    if Active(s, pid, path) { MoveActive(s, e, pid, path); } else { MoveAbandoned(s, e, pid, path); }
  }

  /** A worker with a message at the head of the mailbox is no longer awaited, as that message
      empties the list of its path. */
  lemma HandlePays(s: State, pid: Pid, path: Path)
    requires WorkersInv(s) && Enabled(s, Handle) && Of(s.mailbox[0], pid)
    requires Active(s, pid, path) || Abandoned(s, pid, path)
    ensures Waiting(Apply(s, Handle).requests, path) == []
  {
    assert WorkerAt(s, pid);
    HeadFrom(s);
    OldestFirst(s.spawned[pid], pid, s.mailbox[0], From(s.mailbox[1..], pid), Monitored(s, pid), s.files);
  }

  lemma HandleSpawns(s: State)
    requires WorkersInv(s) && Enabled(s, Handle)
    ensures var m, s' := s.mailbox[0], Apply(s, Handle);
            && s'.mailbox == s.mailbox[1..] && s'.files == s.files && s'.offline == s.offline
            && (s'.spawned == s.spawned ||
                (m.Req? && Waiting(s.requests, m.path) == [] && s'.spawned == s.spawned + [NewWorker(m.path)]))
  {
    if !s.mailbox[0].Req? { HeadFrom(s); }
  }

  lemma HandleKeeps(s: State, pid: Pid, path: Path)
    requires WorkersInv(s) && Enabled(s, Handle) && !Of(s.mailbox[0], pid)
    ensures Active(s, pid, path) ==> Active(Apply(s, Handle), pid, path)
    ensures Abandoned(s, pid, path) ==> Abandoned(Apply(s, Handle), pid, path)
  {
    if On(s, pid, path) { HandleFrom(s, pid); }
  }

  lemma HandleAwaited(s: State, pid: Pid, path: Path)
    requires WorkersInv(s) && Enabled(s, Handle) && Awaited(s, pid, path) && Waiting(s.requests, path) != []
    ensures Awaited(Apply(s, Handle), pid, path) || Waiting(Apply(s, Handle).requests, path) == []
  {
    if Of(s.mailbox[0], pid) {
      HandlePays(s, pid, path);
    } else {
      HandleKeeps(s, pid, path);
      HandleSpawns(s);
    }
  }

  lemma HandleStarts(s: State, path: Path)
    requires WorkersInv(s) && Enabled(s, Handle)
    requires Waiting(Apply(s, Handle).requests, path) != [] && Waiting(s.requests, path) == []
    ensures Awaited(Apply(s, Handle), |s.spawned|, path)
  {
    if !s.mailbox[0].Req? { HeadFrom(s); }
  }

  lemma OwedStep(s: State, e: Event)
    requires WorkersInv(s) && OwedInv(s) && Enabled(s, e)
    ensures OwedInv(Apply(s, e))
  {
    var s' := Apply(s, e);
    forall path | Waiting(s'.requests, path) != [] ensures Owed(s', path) {
      if Waiting(s.requests, path) != [] {
        var pid :| Awaited(s, pid, path);
        if e.Handle? { HandleAwaited(s, pid, path); } else { MoveAwaited(s, e, pid, path); }
      } else if e.Handle? {
        HandleStarts(s, path);
      }
    }
  }

  // ---------- files ----------

  ghost predicate FilesInv(s: State) {
    forall r :: r in s.replies && r.status.True? ==> r.caller < |s.calls| && s.calls[r.caller] in s.files
  }

  lemma FilesStep(s: State, e: Event)
    requires WorkersInv(s) && CallersInv(s) && FilesInv(s) && Enabled(s, e)
    ensures FilesInv(Apply(s, e))
  {
    if e.Handle? {
      HandleReplies(s);
      if !s.mailbox[0].Req? { HeadFrom(s); }
    }
  }

  // ---------- whole runs ----------

  ghost predicate Inv(s: State) { WorkersInv(s) && CallersInv(s) && OwedInv(s) && FilesInv(s) }

  lemma {:induction false} RunInv(es: seq<Event>, ss: seq<State>, i: nat)
    requires IsRun(es, ss) && i <= |es|
    ensures Inv(ss[i])
  {
    if i > 0 {
      RunInv(es, ss, i - 1);
      WorkersStep(ss[i - 1], es[i - 1]);
      CallersStep(ss[i - 1], es[i - 1]);
      OwedStep(ss[i - 1], es[i - 1]);
      FilesStep(ss[i - 1], es[i - 1]);
    }
  }

  /** No call is answered twice, and the server never meets a DOWN of a process it does not know. */
  lemma AnsweredAtMostOnce(es: seq<Event>, ss: seq<State>, i: nat, caller: Caller)
    requires IsRun(es, ss) && i <= |es|
    ensures !ss[i].crashed && Told(ss[i].replies, caller) <= 1
    ensures Told(ss[i].replies, caller) == 1 ==> caller < |ss[i].calls|
  {
    RunInv(es, ss, i);
    if caller < |ss[i].calls| { assert Places(ss[i], caller) == 1; } else { NotTold(ss[i].replies, caller); }
  }

  /** Whoever waits on a path waits for the worker last spawned on it, and the result of that
      worker, or its death without one, is still to be handled. */
  lemma NobodyStranded(es: seq<Event>, ss: seq<State>, i: nat, path: Path)
    requires IsRun(es, ss) && i <= |es| && Waiting(ss[i].requests, path) != []
    ensures exists pid :: Awaited(ss[i], pid, path)
  {
    RunInv(es, ss, i);
    assert Owed(ss[i], path);
  }

  /** The workers have ended and the server has handled everything. */
  predicate Settled(s: State) {
    s.mailbox == [] && forall pid :: 0 <= pid < |s.spawned| ==> s.spawned[pid].phase.Ended?
  }

  /** Then every call has had exactly one reply and nothing is left in the server's state. */
  lemma AllAnswered(es: seq<Event>, ss: seq<State>, i: nat)
    requires IsRun(es, ss) && i <= |es| && Settled(ss[i])
    ensures forall caller :: 0 <= caller < |ss[i].calls| ==> Told(ss[i].replies, caller) == 1
    ensures ss[i].workers == map[] && forall path :: Waiting(ss[i].requests, path) == []
  {
    var s := ss[i];
    RunInv(es, ss, i);
    forall path ensures !Owed(s, path) {}
    forall caller | 0 <= caller < |s.calls| ensures Told(s.replies, caller) == 1 {
      assert Places(s, caller) == 1;
    }
    forall pid: Pid ensures pid !in s.workers {
      if pid < |s.spawned| { assert WorkerAt(s, pid); }
    }
  }

  /** A reply of #t goes only to callers whose file is there. */
  lemma FileThere(es: seq<Event>, ss: seq<State>, i: nat, r: Reply)
    requires IsRun(es, ss) && i <= |es| && r in ss[i].replies && r.status == True
    ensures r.caller < |ss[i].calls| && ss[i].calls[r.caller] in ss[i].files
  {
    RunInv(es, ss, i);
  }

  // ---------- what callers are told ----------

  /** Only the server replies, and only it changes who waits. */
  lemma OnlyHandleReplies(s: State, e: Event)
    requires Enabled(s, e) && !e.Handle?
    ensures Apply(s, e).replies == s.replies && Apply(s, e).requests == s.requests
  {}

  /** A call for a file that is there is told #t, offline any other is told #f, and otherwise the
      call is put on the list of its path, with a new worker if nobody waited there. */
  lemma RequestHandled(s: State, caller: Caller, path: Path)
    requires Enabled(s, Handle) && s.mailbox[0] == Req(caller, path)
    ensures var s' := Apply(s, Handle);
            && s'.mailbox == s.mailbox[1..] && s'.files == s.files && !s'.crashed
            && (path in s.files || s.offline ==>
                  && s'.replies == s.replies + [Reply(caller, if path in s.files then True else False)]
                  && s'.requests == s.requests && s'.spawned == s.spawned && s'.workers == s.workers)
            && (path !in s.files && !s.offline ==>
                  && s'.replies == s.replies
                  && path in s'.requests && s'.requests[path] == [caller] + Waiting(s.requests, path)
                  && (forall other :: other != path ==> Waiting(s'.requests, other) == Waiting(s.requests, other))
                  && |s'.spawned| == |s.spawned| + (if Waiting(s.requests, path) == [] then 1 else 0)
                  && s.spawned <= s'.spawned
                  && (|s'.spawned| > |s.spawned| ==>
                        && s'.spawned[|s.spawned|].path == path && s'.spawned[|s.spawned|].phase.Fetching?
                        && |s.spawned| in s'.workers && s'.workers[|s.spawned|] == path))
  {}

  predicate Appended(before: seq<Reply>, after: seq<Reply>, waiting: seq<Caller>, status: Status) {
    && |after| == |before| + |waiting| && before <= after
    && forall k :: 0 <= k < |waiting| ==> after[|before| + k] == Reply(waiting[k], status)
  }

  /** What has been handled for some waiting callers: each is told the same, and none waits any more. */
  ghost predicate ToldAllWaiting(s: State, s': State, path: Path, status: Status) {
    && Appended(s.replies, s'.replies, Waiting(s.requests, path), status)
    && Waiting(s'.requests, path) == []
    && (forall other :: other != path ==> Waiting(s'.requests, other) == Waiting(s.requests, other))
  }

  /** What a worker is known to have fetched. */
  function StatusOf(w: Worker, ms: seq<Msg>): Option<Status> {
    match w.phase
    case Fetching => None
    case Fetched(status) => Some(status)
    case Renamed => Some(True)
    case _ => if ms != [] && ms[0].Result? then Some(ms[0].status) else None
  }

  lemma StatusAfter(s: State, e: Event, ms: seq<Msg>)
    requires !External(e) && !e.Handle? && Enabled(s, e) && !e.Fetch?
    requires WorkerInv(s.spawned[e.pid], e.pid, ms, true, s.files)
    requires StatusOf(After(s.spawned[e.pid], e), ms + Posts(s, e)).Some?
    ensures StatusOf(s.spawned[e.pid], ms) == StatusOf(After(s.spawned[e.pid], e), ms + Posts(s, e))
  {}

  lemma StatusBack(s: State, e: Event, pid: Pid)
    requires WorkersInv(s) && Enabled(s, e) && pid < |s.spawned| && !(e.Fetch? && e.pid == pid)
    requires pid < |Apply(s, e).spawned| && StatusOf(Apply(s, e).spawned[pid], From(Apply(s, e).mailbox, pid)).Some?
    ensures StatusOf(s.spawned[pid], From(s.mailbox, pid)) ==
            StatusOf(Apply(s, e).spawned[pid], From(Apply(s, e).mailbox, pid))
    ensures Apply(s, e).spawned[pid].path == s.spawned[pid].path
  {
    assert WorkerAt(s, pid);
    var w, ms := s.spawned[pid], From(s.mailbox, pid);
    if e.Handle? {
      HandleFrom(s, pid);
      var m, rest := s.mailbox[0], From(s.mailbox[1..], pid);
      if Of(m, pid) { OldestFirst(w, pid, m, rest, Monitored(s, pid), s.files); } else { assert ms == rest; }
    } else {
      MovePaths(s, e);
      MoveFrom(s, e, pid);
      if Takes1(e, pid) { StatusAfter(s, e, ms); } else { assert ms + [] == ms; }
    }
  }

  lemma FetchStatus(s: State, e: Event)
    requires WorkersInv(s) && Enabled(s, e) && e.Fetch?
    ensures var s' := Apply(s, e);
            && StatusOf(s'.spawned[e.pid], From(s'.mailbox, e.pid)) == Some(e.status)
            && s'.spawned[e.pid].path == s.spawned[e.pid].path
  {
    MovePaths(s, e);
  }

  lemma OnlySpawns(s: State, e: Event, pid: Pid)
    requires WorkersInv(s) && Enabled(s, e) && pid < |Apply(s, e).spawned|
    ensures pid >= |s.spawned| ==> Apply(s, e).spawned[pid].phase.Fetching?
  {
    if e.Handle? { HandleSpawns(s); } else { MovePaths(s, e); }
  }

  function StatusAt(s: State, pid: Pid): Option<Status>
    requires pid < |s.spawned|
  {
    StatusOf(s.spawned[pid], From(s.mailbox, pid))
  }

  lemma StatusStep(s: State, e: Event, pid: Pid, status: Status)
    requires WorkersInv(s) && Enabled(s, e) && pid < |Apply(s, e).spawned| && StatusAt(Apply(s, e), pid) == Some(status)
    ensures pid < |s.spawned| && Apply(s, e).spawned[pid].path == s.spawned[pid].path
    ensures if e.Fetch? && e.pid == pid then e.status == status else StatusAt(s, pid) == Some(status)
  {
    OnlySpawns(s, e, pid);
    if e.Fetch? && e.pid == pid { FetchStatus(s, e); } else { StatusBack(s, e, pid); }
  }

  lemma StatusEarlier(es: seq<Event>, ss: seq<State>, i: nat, pid: Pid, status: Status)
    requires IsRun(es, ss) && 0 < i <= |es| && pid < |ss[i].spawned| && StatusAt(ss[i], pid) == Some(status)
    ensures pid < |ss[i - 1].spawned| && ss[i].spawned[pid].path == ss[i - 1].spawned[pid].path
    ensures if es[i - 1].Fetch? && es[i - 1].pid == pid then es[i - 1].status == status
            else StatusAt(ss[i - 1], pid) == Some(status)
  {
    RunInv(es, ss, i - 1);
    StatusStep(ss[i - 1], es[i - 1], pid, status);
  }

  /** What a worker has fetched, puts in place or sends is what it fetched in an earlier step. */
  lemma {:induction false} FetchedBefore(es: seq<Event>, ss: seq<State>, i: nat, pid: Pid, status: Status)
    returns (k: nat, body: seq<Byte>, n: nat)
    requires IsRun(es, ss) && i <= |es| && pid < |ss[i].spawned| && StatusAt(ss[i], pid) == Some(status)
    ensures k < i && es[k] == Fetch(pid, status, body, n)
    ensures pid < |ss[k].spawned| && ss[k].spawned[pid].path == ss[i].spawned[pid].path
  {
    assert i > 0;
    StatusEarlier(es, ss, i, pid, status);
    if es[i - 1].Fetch? && es[i - 1].pid == pid {
      k, body, n := i - 1, es[i - 1].body, es[i - 1].n;
    } else {
      k, body, n := FetchedBefore(es, ss, i - 1, pid, status);
    }
  }

  lemma RepliesAppended(before: seq<Reply>, waiting: seq<Caller>, status: Status)
    ensures Appended(before, before + ReplyAll(waiting, status), waiting, status)
  {}

  lemma AnsweredTold(s: State, path: Path, status: Status)
    ensures ToldAllWaiting(s, Answered(s, path, status), path, status)
  {
    RepliesAppended(s.replies, Waiting(s.requests, path), status);
  }

  lemma HeadStatus(s: State)
    requires WorkersInv(s) && s.mailbox != [] && s.mailbox[0].Result?
    ensures var m := s.mailbox[0];
            m.pid < |s.spawned| && StatusOf(s.spawned[m.pid], From(s.mailbox, m.pid)) == Some(m.status)
            && s.spawned[m.pid].path == m.path
  {
    HeadFrom(s);
    var m := s.mailbox[0];
    assert WorkerAt(s, m.pid);
    OldestFirst(s.spawned[m.pid], m.pid, m, From(s.mailbox[1..], m.pid), Monitored(s, m.pid), s.files);
  }

  /** A result tells all who wait on its path the status that its worker fetched for that path: #t,
      #f or where to look instead. */
  lemma ResultHandled(es: seq<Event>, ss: seq<State>, i: nat, pid: Pid, path: Path, status: Status)
    returns (k: nat, body: seq<Byte>, n: nat)
    requires IsRun(es, ss) && i < |es| && es[i].Handle? && ss[i].mailbox[0] == Result(pid, path, status)
    ensures k < i && es[k] == Fetch(pid, status, body, n) && On(ss[k], pid, path)
    ensures ToldAllWaiting(ss[i], ss[i + 1], path, status)
  {
    RunInv(es, ss, i);
    HeadStatus(ss[i]);
    k, body, n := FetchedBefore(es, ss, i, pid, status);
    AnsweredTold(ss[i].(mailbox := ss[i].mailbox[1..]), path, status);
  }

  /** A DOWN tells those who wait on the path of its worker its error; a normal one tells nobody. */
  lemma DownHandled(es: seq<Event>, ss: seq<State>, i: nat, pid: Pid, err: Option<nat>)
    requires IsRun(es, ss) && i < |es| && es[i].Handle? && ss[i].mailbox[0] == Down(pid, err)
    ensures pid < |ss[i].spawned| && ss[i + 1].workers == ss[i].workers - {pid}
    ensures if err.None? then ss[i + 1].replies == ss[i].replies && ss[i + 1].requests == ss[i].requests
            else ToldAllWaiting(ss[i], ss[i + 1], ss[i].spawned[pid].path, Fault(err.value))
  {
    RunInv(es, ss, i);
    HeadFrom(ss[i]);
    if err.Some? {
      AnsweredTold(ss[i].(mailbox := ss[i].mailbox[1..]), ss[i].spawned[pid].path, Fault(err.value));
    }
  }

  /** A file comes to be only from outside, or from a worker that has fetched #t for its path. */
  lemma FileFetched(es: seq<Event>, ss: seq<State>, i: nat, path: Path)
    returns (k: nat, pid: Pid, body: seq<Byte>, n: nat)
    requires IsRun(es, ss) && i < |es| && path in ss[i + 1].files && path !in ss[i].files && es[i] != Appear(path)
    ensures k < i && es[i] == Rename(pid) && es[k] == Fetch(pid, True, body, n) && On(ss[k], pid, path)
  {
    RunInv(es, ss, i);
    if es[i].Handle? { HandleSpawns(ss[i]); }
    pid := es[i].pid;
    assert WorkerAt(ss[i], pid);
    k, body, n := FetchedBefore(es, ss, i, pid, True);
  }

  // ---------- progress ----------

  /** Unless everything has ended, the server has a message to handle or some worker can go on
      with its work. */
  lemma NeverStuck(es: seq<Event>, ss: seq<State>, i: nat)
    requires IsRun(es, ss) && i <= |es|
    ensures Settled(ss[i]) || exists e :: Enabled(ss[i], e) && !External(e) && !e.Crash?
  {
    var s := ss[i];
    RunInv(es, ss, i);
    if s.mailbox != [] {
      assert Enabled(s, Handle);
    } else if pid :| 0 <= pid < |s.spawned| && !s.spawned[pid].phase.Ended? {
      match s.spawned[pid].phase
      case Fetching => assert Enabled(s, Fetch(pid, False, [], 0));
      case Fetched(status) => assert if status == True then Enabled(s, Rename(pid)) else Enabled(s, Send(pid));
      case Renamed => assert Enabled(s, Send(pid));
      case Sent => assert if s.spawned[pid].closed then Enabled(s, Exit(pid)) else Enabled(s, Close(pid));
    }
  }

  function MsgWork(m: Msg): nat { if m.Req? then 8 else 1 }

  function WorkerWork(w: Worker): nat {
    match w.phase
    case Fetching => 7
    case Fetched(_) => 6
    case Renamed => 5
    case Sent => if w.closed then 2 else 3
    case Ended(_, _) => 0
  }

  function MailWork(ms: seq<Msg>): nat {
    if ms == [] then 0 else MsgWork(ms[0]) + MailWork(ms[1..])
  }

  function WorkersWork(ws: seq<Worker>): nat {
    if ws == [] then 0 else WorkersWork(ws[..|ws| - 1]) + WorkerWork(ws[|ws| - 1])
  }

  lemma {:induction false} MailAppend(ms: seq<Msg>, more: seq<Msg>)
    ensures MailWork(ms + more) == MailWork(ms) + MailWork(more)
  {
    if ms == [] {
      assert ms + more == more;
    } else {
      MailAppend(ms[1..], more);
      assert (ms + more)[1..] == ms[1..] + more;
    }
  }

  lemma WorkersAppend(ws: seq<Worker>, w: Worker)
    ensures WorkersWork(ws + [w]) == WorkersWork(ws) + WorkerWork(w)
  {
    assert (ws + [w])[..|ws|] == ws;
  }

  lemma {:induction false} WorkersUpdate(ws: seq<Worker>, pid: nat, w: Worker)
    requires pid < |ws|
    ensures WorkersWork(ws[pid := w]) + WorkerWork(ws[pid]) == WorkersWork(ws) + WorkerWork(w)
  {
    var n := |ws| - 1;
    if pid < n {
      WorkersUpdate(ws[..n], pid, w);
      assert ws[pid := w][..n] == ws[..n][pid := w];
    } else {
      assert ws[pid := w][..n] == ws[..n];
    }
  }

  function Work(s: State): nat { MailWork(s.mailbox) + WorkersWork(s.spawned) }

  lemma WorkerMoves(s: State, e: Event)
    requires Enabled(s, e) && !External(e) && !e.Handle?
    ensures Work(Apply(s, e)) < Work(s)
  {
    MailAppend(s.mailbox, Posts(s, e));
    WorkersUpdate(s.spawned, e.pid, Apply(s, e).spawned[e.pid]);
  }

  lemma WorkStep(s: State, e: Event)
    requires Enabled(s, e)
    ensures Work(Apply(s, e)) <= Work(s) + (if e.Call? then 8 else if e.Appear? then 0 else -1)
  {
    match e
    case Call(path) => MailAppend(s.mailbox, Posts(s, e));
    case Appear(_) =>
    case Handle =>
      if s.mailbox[0].Req? { WorkersAppend(s.spawned, NewWorker(s.mailbox[0].path)); }
    case _ => WorkerMoves(s, e);
  }

  function Count(es: seq<Event>, external: bool): nat {
    if es == [] then 0
    else Count(es[..|es| - 1], external) +
         if (if external then External(es[|es| - 1]) else es[|es| - 1].Call?) then 1 else 0
  }

  lemma {:induction false} WorkBound(es: seq<Event>, ss: seq<State>, i: nat)
    requires IsRun(es, ss) && i <= |es|
    ensures i + Work(ss[i]) <= Count(es[..i], true) + 8 * Count(es[..i], false)
  {
    if i > 0 {
      WorkBound(es, ss, i - 1);
      WorkStep(ss[i - 1], es[i - 1]);
      assert es[..i][..i - 1] == es[..i - 1];
    }
  }

  /** A run takes at most eight steps of its own for each call, so every run comes to an end
      where every call has had its reply. */
  lemma RunBounded(es: seq<Event>, ss: seq<State>)
    requires IsRun(es, ss)
    ensures |es| <= Count(es, true) + 8 * Count(es, false)
  {
    WorkBound(es, ss, |es|);
    assert es[..|es|] == es;
  }

  // ---------- whether a file is whole ----------

  /** No byte of what a worker has fetched is lost, and once its port is closed none is left. */
  predicate BytesInv(w: Worker) {
    w.file + w.buffer == w.body && (w.closed ==> w.buffer == [])
  }

  ghost predicate BytesKept(s: State) {
    && (forall pid :: 0 <= pid < |s.spawned| ==> BytesInv(s.spawned[pid]))
    && (forall path :: path in s.placed ==> path in s.files && On(s, s.placed[path], path))
  }

  lemma StepBytes(w: Worker, e: Event)
    requires BytesInv(w) && Takes(w, e) && (w.phase.Fetching? ==> !w.closed)
    ensures BytesInv(After(w, e))
  {
    match e
    case Fetch(_, _, body, n) => assert body[..n] + body[n..] == body;
    case Close(_) => assert w.file + w.buffer + [] == w.file + w.buffer;
    case Crash(_, _, _) => assert w.file + w.buffer + [] == w.file + w.buffer;
    case _ =>
  }

  lemma HandlePlaces(s: State)
    requires WorkersInv(s) && BytesKept(s) && Enabled(s, Handle)
    ensures BytesKept(Apply(s, Handle))
  {
    HandleSpawns(s);
  }

  lemma MovePlaces(s: State, e: Event)
    requires WorkersInv(s) && BytesKept(s) && Enabled(s, e) && !External(e) && !e.Handle?
    ensures BytesKept(Apply(s, e))
  {
    assert WorkerAt(s, e.pid);
    StepBytes(s.spawned[e.pid], e);
  }

  lemma {:induction false} BytesRun(es: seq<Event>, ss: seq<State>, i: nat)
    requires IsRun(es, ss) && i <= |es|
    ensures BytesKept(ss[i])
  {
    if i > 0 {
      BytesRun(es, ss, i - 1);
      RunInv(es, ss, i - 1);
      var s, e := ss[i - 1], es[i - 1];
      if e.Handle? { HandlePlaces(s); } else if !External(e) { MovePlaces(s, e); }
    }
  }

  lemma PrefixWhole(w: Worker)
    requires BytesInv(w)
    ensures w.file <= w.body && (w.file == w.body <==> w.buffer == [])
  {}

  lemma HandleFiles(s: State)
    requires Enabled(s, Handle)
    ensures var s' := Apply(s, Handle); s'.files == s.files && s'.calls == s.calls
  {}

  /** When a caller is told #t its file is in place. If a worker renamed it there, it holds the
      beginning of what that worker has fetched: all of it if and only if nothing is left in the
      buffer of the worker's port, as when the port has been closed. */
  lemma WholeWhenTold(es: seq<Event>, ss: seq<State>, i: nat, r: Reply)
    requires IsRun(es, ss) && i < |es| && es[i].Handle?
    requires r in ss[i + 1].replies && r !in ss[i].replies && r.status == True
    ensures r.caller < |ss[i].calls| && ss[i].calls[r.caller] in ss[i].files
    ensures var s, path := ss[i], ss[i].calls[r.caller];
            path in s.placed ==>
              && On(s, s.placed[path], path)
              && var w := s.spawned[s.placed[path]];
                 w.file <= w.body && (w.file == w.body <==> w.buffer == []) && (w.closed ==> w.file == w.body)
  {
    FileThere(es, ss, i + 1, r);
    HandleFiles(ss[i]);
    BytesRun(es, ss, i);
    var path := ss[i].calls[r.caller];
    if path in ss[i].placed { PrefixWhole(ss[i].spawned[ss[i].placed[path]]); }
  }

  /** When the worker whose file is in place has ended normally, the file is whole. */
  lemma WholeWhenEnded(es: seq<Event>, ss: seq<State>, i: nat, path: Path)
    requires IsRun(es, ss) && i <= |es| && path in ss[i].placed
    ensures On(ss[i], ss[i].placed[path], path)
    ensures var w := ss[i].spawned[ss[i].placed[path]];
            w.phase == Ended(None, true) ==> w.file == w.body
  {
    BytesRun(es, ss, i);
    RunInv(es, ss, i);
    var pid := ss[i].placed[path];
    assert WorkerAt(ss[i], pid) && BytesInv(ss[i].spawned[pid]);
    PrefixWhole(ss[i].spawned[pid]);
  }

  /** The end of a run. */
  ghost predicate Reached(es: seq<Event>, ss: seq<State>, s: State) { IsRun(es, ss) && ss[|es|] == s }

  lemma Extend(es: seq<Event>, ss: seq<State>, s: State, e: Event) returns (es': seq<Event>, ss': seq<State>)
    requires Reached(es, ss, s) && Enabled(s, e)
    ensures Reached(es', ss', Apply(s, e)) && es' == es + [e] && ss' == ss + [Apply(s, e)]
  {
    es', ss' := es + [e], ss + [Apply(s, e)];
  }

  /** One caller waits for one worker. */
  function FirstSpawned(path: Path): State {
    State(false, [path], map[path := [0]], map[0 := path], [], [NewWorker(path)], {}, map[], [], false)
  }

  lemma FirstSpawn(path: Path) returns (es: seq<Event>, ss: seq<State>)
    ensures Reached(es, ss, FirstSpawned(path))
  {
    var s := Init(false, {});
    es, ss := [], [s];
    es, ss := Extend(es, ss, s, Call(path));
    s := Apply(s, Call(path));
    es, ss := Extend(es, ss, s, Handle);
    s := Apply(s, Handle);
    assert [0] + Waiting(map[], path) == [0];
    assert s.requests == map[path := [0]];
    assert s == FirstSpawned(path);
  }

  /** A worker in some phase that has fetched a body, n bytes of which are in its file. */
  function Holding(path: Path, ph: Phase, body: seq<Byte>, n: nat): Worker
    requires n <= |body|
  {
    Worker(path, ph, body, body[..n], body[n..], false)
  }

  /** A worker has sent its file's result, unhandled, ahead of closing its port. */
  function SentOpen(path: Path, body: seq<Byte>, n: nat): State
    requires n <= |body|
  {
    State(false, [path], map[path := [0]], map[0 := path], [Result(0, path, True)], [Holding(path, Sent, body, n)],
          {path}, map[path := 0], [], false)
  }

  lemma SendsOpen(path: Path, body: seq<Byte>, n: nat) returns (es: seq<Event>, ss: seq<State>)
    requires n <= |body|
    ensures Reached(es, ss, SentOpen(path, body, n))
  {
    var s := FirstSpawned(path);
    es, ss := FirstSpawn(path);
    es, ss := Extend(es, ss, s, Fetch(0, True, body, n));
    s := Apply(s, Fetch(0, True, body, n));
    es, ss := Extend(es, ss, s, Rename(0));
    s := Apply(s, Rename(0));
    es, ss := Extend(es, ss, s, Send(0));
    assert Apply(s, Send(0)) == SentOpen(path, body, n);
  }

  /** The result is sent before the port is closed. If the worker dies in between, its caller has
      been told #t and the file keeps just the bytes that were written out: however few they were,
      and also when they were all of them. */
  lemma ToldBeforeClosing(path: Path, err: nat, body: seq<Byte>, n: nat)
    requires n <= |body|
    ensures exists es, ss, s: State ::
              && Reached(es, ss, s) && Settled(s) && s.calls == [path] && s.replies == [Reply(0, True)]
              && s.placed == map[path := 0] && |s.spawned| == 1
              && s.spawned[0].body == body && s.spawned[0].file == body[..n]
  {
    var s := SentOpen(path, body, n);
    var es, ss := SendsOpen(path, body, n);
    es, ss := Extend(es, ss, s, Handle);
    s := Apply(s, Handle);
    es, ss := Extend(es, ss, s, Crash(0, err, false));
    s := Apply(s, Crash(0, err, false));
    es, ss := Extend(es, ss, s, Handle);
    s := Apply(s, Handle);
    assert s.replies == [Reply(0, True)];
  }

  // ---------- how many workers fetch a path ----------

  /** Somebody waits for each worker whose result is still to come, and no two are on one path. */
  ghost predicate Good(s: State) {
    && (forall pid, path :: Active(s, pid, path) ==> Waiting(s.requests, path) != [])
    && (forall pid, pid', path :: Active(s, pid, path) && Active(s, pid', path) ==> pid == pid')
  }

  /** The server handles the abnormal DOWN of one worker while another is on its path. */
  ghost predicate Misdirected(s: State, e: Event) {
    && e.Handle? && s.mailbox != []
    && var m := s.mailbox[0];
       m.Down? && m.err.Some? && m.pid in s.workers && exists pid :: Active(s, pid, s.workers[m.pid])
  }

  lemma MoveActiveBack(s: State, e: Event, pid: Pid, path: Path)
    requires WorkersInv(s) && Enabled(s, e) && !e.Handle? && Active(Apply(s, e), pid, path)
    ensures Active(s, pid, path)
  {
    assert WorkerAt(s, pid);
    MoveFrom(s, e, pid);
  }

  /** Whoever is active after a message has been handled was so before and did not send it, or has
      just been spawned on a path nobody waited on. */
  lemma HandleActiveBack(s: State, pid: Pid, path: Path)
    requires WorkersInv(s) && Enabled(s, Handle) && Active(Apply(s, Handle), pid, path)
    ensures if pid < |s.spawned| then Active(s, pid, path) && !Of(s.mailbox[0], pid)
            else pid == |s.spawned| && Waiting(s.requests, path) == [] && s.mailbox[0].Req? && s.mailbox[0].path == path
  {
    HandleSpawns(s);
    if pid < |s.spawned| {
      var m, ms := s.mailbox[0], From(s.mailbox[1..], pid);
      HandleFrom(s, pid);
      assert WorkerAt(s, pid);
      if Of(m, pid) { OldestFirst(s.spawned[pid], pid, m, ms, Monitored(s, pid), s.files); }
      else { assert From(s.mailbox, pid) == ms; }
    }
  }

  /** A list is emptied only when its worker is done, unless by a misdirected DOWN. */
  lemma HandleKeepsWaiting(s: State, pid: Pid, path: Path)
    requires WorkersInv(s) && Good(s) && Enabled(s, Handle) && !Misdirected(s, Handle)
    requires Active(Apply(s, Handle), pid, path)
    ensures Waiting(Apply(s, Handle).requests, path) != []
  {
    HandleActiveBack(s, pid, path);
    var m := s.mailbox[0];
    if !m.Req? {
      HeadFrom(s);
      if m.Result? {
        assert WorkerAt(s, m.pid);
        OldestFirst(s.spawned[m.pid], m.pid, m, From(s.mailbox[1..], m.pid), Monitored(s, m.pid), s.files);
        assert Active(s, m.pid, m.path);
      }
    }
  }

  /** A misdirected DOWN leaves a worker on a path that nobody waits on any more. */
  lemma MisdirectedLeaves(s: State) returns (pid: Pid, path: Path)
    requires WorkersInv(s) && Enabled(s, Handle) && Misdirected(s, Handle)
    ensures path == s.workers[s.mailbox[0].pid] && Active(s, pid, path) && Active(Apply(s, Handle), pid, path)
    ensures Waiting(Apply(s, Handle).requests, path) == []
  {
    var m := s.mailbox[0];
    path := s.workers[m.pid];
    pid :| Active(s, pid, path);
    HeadFrom(s);
    assert WorkerAt(s, pid);
    HandleKeeps(s, pid, path);
  }

  /** A step keeps single workers and their callers together if and only if it is not misdirected. */
  lemma GoodStep(s: State, e: Event)
    requires WorkersInv(s) && Good(s) && Enabled(s, e)
    ensures Good(Apply(s, e)) <==> !Misdirected(s, e)
  {
    var s' := Apply(s, e);
    if Misdirected(s, e) {
      var pid, path := MisdirectedLeaves(s);
      assert !Good(s');
    } else {
      forall pid, path | Active(s', pid, path) ensures Waiting(s'.requests, path) != [] {
        if e.Handle? { HandleKeepsWaiting(s, pid, path); } else { MoveActiveBack(s, e, pid, path); }
      }
      forall pid, pid', path | Active(s', pid, path) && Active(s', pid', path) ensures pid == pid' {
        if e.Handle? { HandleActiveBack(s, pid, path); HandleActiveBack(s, pid', path); }
        else { MoveActiveBack(s, e, pid, path); MoveActiveBack(s, e, pid', path); }
      }
    }
  }

  ghost predicate NoneMisdirected(es: seq<Event>, ss: seq<State>, n: nat)
    requires n <= |es| <= |ss|
  {
    forall i :: 0 <= i < n ==> !Misdirected(ss[i], es[i])
  }

  ghost predicate LatestActive(s: State) {
    forall pid, path :: Active(s, pid, path) ==> Latest(s, pid, path)
  }

  lemma LatestStep(s: State, e: Event)
    requires WorkersInv(s) && Good(s) && LatestActive(s) && Enabled(s, e)
    ensures LatestActive(Apply(s, e))
  {
    var s' := Apply(s, e);
    forall pid: Pid, path | Active(s', pid, path) ensures Latest(s', pid, path) {
      if e.Handle? {
        HandleActiveBack(s, pid, path);
        HandleSpawns(s);
      } else {
        MoveActiveBack(s, e, pid, path);
        MoveLatest(s, e, pid, path);
      }
    }
  }

  lemma {:induction false} GoodRun(es: seq<Event>, ss: seq<State>, i: nat)
    requires IsRun(es, ss) && i <= |es| && NoneMisdirected(es, ss, i)
    ensures Good(ss[i]) && LatestActive(ss[i])
  {
    if i > 0 {
      GoodRun(es, ss, i - 1);
      RunInv(es, ss, i - 1);
      GoodStep(ss[i - 1], es[i - 1]);
      LatestStep(ss[i - 1], es[i - 1]);
    }
  }

  /** As long as no DOWN is misdirected, two workers are never at work on the same path. */
  lemma OneFetchPerPath(es: seq<Event>, ss: seq<State>, i: nat, pid: Pid, pid': Pid)
    requires IsRun(es, ss) && i <= |es| && NoneMisdirected(es, ss, i) && pid < pid' < |ss[i].spawned|
    requires Unsent(ss[i].spawned[pid].phase) && Unsent(ss[i].spawned[pid'].phase)
    ensures ss[i].spawned[pid].path != ss[i].spawned[pid'].path
  {
    GoodRun(es, ss, i);
    var path := ss[i].spawned[pid].path;
    assert Active(ss[i], pid, path);
    assert On(ss[i], pid', path) ==> Active(ss[i], pid', path);
  }

  predicate AtWork(s: State, pid: Pid, path: Path) { On(s, pid, path) && Unsent(s.spawned[pid].phase) }

  ghost predicate TwoAtWork(s: State, path: Path) {
    exists pid, pid' :: pid != pid' && AtWork(s, pid, path) && AtWork(s, pid', path)
  }

  lemma HandleElse(s: State, path: Path)
    requires WorkersInv(s) && Enabled(s, Handle) && Waiting(s.requests, path) == []
    requires !(s.mailbox[0].Req? && s.mailbox[0].path == path)
    ensures Waiting(Apply(s, Handle).requests, path) == []
  {
    if !s.mailbox[0].Req? { HeadFrom(s); }
  }

  /** The server alone, on its way to a request for a path nobody waits on. */
  lemma {:induction false} SpawnsAgain(es: seq<Event>, ss: seq<State>, s: State, pid: Pid, path: Path)
    returns (es': seq<Event>, ss': seq<State>, s': State)
    requires Reached(es, ss, s) && AtWork(s, pid, path) && Waiting(s.requests, path) == []
    requires !s.offline && path !in s.files && exists m :: m in s.mailbox && m.Req? && m.path == path
    ensures Reached(es', ss', s') && TwoAtWork(s', path)
    ensures es <= es' && forall k :: |es| <= k < |es'| ==> es'[k] == Handle
    decreases |s.mailbox|
  {
    RunInv(es, ss, |es|);
    var m := s.mailbox[0];
    s' := Apply(s, Handle);
    es', ss' := Extend(es, ss, s, Handle);
    HandleSpawns(s);
    HandleFrom(s, pid);
    if m.Req? && m.path == path {
      assert AtWork(s', pid, path) && AtWork(s', |s.spawned|, path);
    } else {
      HandleElse(s, path);
      assert forall r :: r in s.mailbox ==> r == m || r in s'.mailbox;
      es', ss', s' := SpawnsAgain(es', ss', s', pid, path);
    }
  }

  /** After a misdirected DOWN for a path being fetched, one more call and the server's next steps
      have a second worker at work on it, online and with the file not there. */
  lemma MisdirectedFetchesTwice(es: seq<Event>, ss: seq<State>, path: Path, pid: Pid)
    returns (es': seq<Event>, ss': seq<State>, s': State)
    requires IsRun(es, ss) && Enabled(ss[|es|], Handle) && Misdirected(ss[|es|], Handle)
    requires path == ss[|es|].workers[ss[|es|].mailbox[0].pid] && AtWork(ss[|es|], pid, path)
    requires !ss[|es|].offline && path !in ss[|es|].files
    ensures Reached(es', ss', s') && TwoAtWork(s', path)
    ensures es + [Handle, Call(path)] <= es' && forall k :: |es| + 2 <= k < |es'| ==> es'[k] == Handle
  {
    var s := ss[|es|];
    RunInv(es, ss, |es|);
    HeadFrom(s);
    HandleFrom(s, pid);
    HandleSpawns(s);
    es', ss' := Extend(es, ss, s, Handle);
    s := Apply(s, Handle);
    es', ss' := Extend(es', ss', s, Call(path));
    MoveFrom(s, Call(path), pid);
    s := Apply(s, Call(path));
    assert s.mailbox[|s.mailbox| - 1] in s.mailbox;
    assert es' == es + [Handle, Call(path)];
    es', ss', s' := SpawnsAgain(es', ss', s, pid, path);
  }

  // ---------- whose error callers are told ----------

  /** An abnormal DOWN gives its error to all who wait on the path. They wait for the worker last
      spawned on it: that is the one that died, or it is still on its way and the DOWN is
      misdirected, or it has died itself, without a result, and its DOWN is still to come. */
  lemma WhoseError(es: seq<Event>, ss: seq<State>, i: nat, path: Path) returns (l: Pid)
    requires IsRun(es, ss) && i < |es| && es[i].Handle?
    requires ss[i].mailbox[0].Down? && ss[i].mailbox[0].err.Some?
    requires On(ss[i], ss[i].mailbox[0].pid, path) && Waiting(ss[i].requests, path) != []
    ensures ss[i + 1].replies ==
            ss[i].replies + ReplyAll(Waiting(ss[i].requests, path), Fault(ss[i].mailbox[0].err.value))
    ensures Latest(ss[i], l, path)
    ensures || l == ss[i].mailbox[0].pid
            || (Active(ss[i], l, path) && Misdirected(ss[i], es[i]))
            || Abandoned(ss[i], l, path)
    ensures Active(ss[i], l, path) ==> l != ss[i].mailbox[0].pid && !Abandoned(ss[i], l, path)
  {
    var s := ss[i];
    RunInv(es, ss, i);
    HeadFrom(s);
    assert Owed(s, path);
    l :| Awaited(s, l, path);
    assert WorkerAt(s, l);
    if l == s.mailbox[0].pid { HandleFrom(s, l); }
  }

  /** Up to the first misdirected DOWN, one is misdirected exactly when the awaited worker is still
      on its way. */
  lemma MisdirectedFirst(es: seq<Event>, ss: seq<State>, i: nat, path: Path, l: Pid)
    requires IsRun(es, ss) && i < |es| && NoneMisdirected(es, ss, i) && es[i].Handle?
    requires ss[i].mailbox[0].Down? && ss[i].mailbox[0].err.Some?
    requires On(ss[i], ss[i].mailbox[0].pid, path) && Latest(ss[i], l, path)
    ensures Misdirected(ss[i], es[i]) <==> Active(ss[i], l, path)
  {
    var s := ss[i];
    RunInv(es, ss, i);
    GoodRun(es, ss, i);
    HeadFrom(s);
    if Misdirected(s, es[i]) {
      var q :| Active(s, q, path);
      assert Latest(s, q, path);
      assert q == l;
    }
  }

  // ---------- two runs with a late death ----------

  /** The first worker has sent its result. */
  function FirstSent(path: Path): State {
    State(false, [path], map[path := [0]], map[0 := path], [Result(0, path, False)], [Holding(path, Sent, [], 0)],
          {}, map[], [], false)
  }

  /** It has answered the first caller. */
  function FirstAnswered(path: Path): State {
    State(false, [path], map[], map[0 := path], [], [Holding(path, Sent, [], 0)], {}, map[], [Reply(0, False)], false)
  }

  /** The second caller waits for the second worker, and the first worker has died. */
  function SecondWaits(path: Path, err: nat): State {
    State(false, [path, path], map[path := [1]], map[0 := path, 1 := path], [Down(0, Some(err))],
          [Holding(path, Ended(Some(err), true), [], 0), NewWorker(path)], {}, map[], [Reply(0, False)], false)
  }

  lemma FirstSends(path: Path) returns (es: seq<Event>, ss: seq<State>)
    ensures Reached(es, ss, FirstSent(path))
  {
    var s := FirstSpawned(path);
    es, ss := FirstSpawn(path);
    es, ss := Extend(es, ss, s, Fetch(0, False, [], 0));
    s := Apply(s, Fetch(0, False, [], 0));
    es, ss := Extend(es, ss, s, Send(0));
    assert Apply(s, Send(0)) == FirstSent(path);
  }

  lemma FirstCall(path: Path) returns (es: seq<Event>, ss: seq<State>)
    ensures Reached(es, ss, FirstAnswered(path))
  {
    var s := FirstSent(path);
    es, ss := FirstSends(path);
    es, ss := Extend(es, ss, s, Handle);
    assert ReplyAll([0], False) == [Reply(0, False)];
    assert Apply(s, Handle) == FirstAnswered(path);
  }

  lemma SecondCall(path: Path, err: nat) returns (es: seq<Event>, ss: seq<State>)
    ensures Reached(es, ss, SecondWaits(path, err))
  {
    var s := FirstAnswered(path);
    es, ss := FirstCall(path);
    es, ss := Extend(es, ss, s, Call(path));
    s := Apply(s, Call(path));
    es, ss := Extend(es, ss, s, Handle);
    s := Apply(s, Handle);
    assert [1] + Waiting(map[], path) == [1];
    assert s.requests == map[path := [1]] && s.workers == map[0 := path, 1 := path];
    es, ss := Extend(es, ss, s, Crash(0, err, false));
    assert Apply(s, Crash(0, err, false)) == SecondWaits(path, err);
  }

  /** The first worker's DOWN is misdirected: it answers a caller who waits for the second, and
      the next caller has a third worker spawned beside it. */
  lemma LateDeathFetchesTwice(path: Path, err: nat)
    ensures exists es, ss, s: State ::
              && Reached(es, ss, s) && TwoAtWork(s, path)
              && s.replies == [Reply(0, False), Reply(1, Fault(err))]
  {
    var s := SecondWaits(path, err);
    var es, ss := SecondCall(path, err);
    es, ss := Extend(es, ss, s, Handle);
    s := Apply(s, Handle);
    es, ss := Extend(es, ss, s, Call(path));
    s := Apply(s, Call(path));
    es, ss := Extend(es, ss, s, Handle);
    s := Apply(s, Handle);
    assert AtWork(s, 1, path) && AtWork(s, 2, path);
  }

  /** Both workers have died, the first with its result handled and the second without one. */
  function BothDead(path: Path, err: nat, err': nat): State {
    State(false, [path, path], map[path := [1]], map[0 := path, 1 := path], [Down(0, Some(err)), Down(1, Some(err'))],
          [Holding(path, Ended(Some(err), true), [], 0), Holding(path, Ended(Some(err'), false), [], 0)],
          {}, map[], [Reply(0, False)], false)
  }

  lemma BothDie(path: Path, err: nat, err': nat) returns (es: seq<Event>, ss: seq<State>)
    ensures Reached(es, ss, BothDead(path, err, err'))
  {
    var s := SecondWaits(path, err);
    es, ss := SecondCall(path, err);
    es, ss := Extend(es, ss, s, Crash(1, err', false));
    assert Apply(s, Crash(1, err', false)) == BothDead(path, err, err');
  }

  lemma NobodyActive(path: Path, err: nat, err': nat)
    ensures var s := BothDead(path, err, err'); Abandoned(s, 1, path) && forall pid :: !Active(s, pid, path)
  {
    var s := BothDead(path, err, err');
    assert From(s.mailbox[1..][1..], 0) == From(s.mailbox[1..][1..], 1) == [];
    assert From(s.mailbox, 1) == [Down(1, Some(err'))];
    assert From(s.mailbox, 0) == [Down(0, Some(err))];
  }

  /** The second worker dies as well before the first one's DOWN is handled: nothing is
      misdirected, and the second caller is told the first worker's error all the same. */
  lemma LateDeathSpeaksForAnother(path: Path, err: nat, err': nat)
    ensures exists es, ss, s: State ::
              && Reached(es, ss, s) && !Misdirected(s, Handle) && Enabled(s, Handle)
              && Abandoned(s, 1, path) && s.mailbox[0] == Down(0, Some(err))
              && Apply(s, Handle).replies == [Reply(0, False), Reply(1, Fault(err))]
  {
    var es, ss := BothDie(path, err, err');
    NobodyActive(path, err, err');
    assert ReplyAll([1], Fault(err)) == [Reply(1, Fault(err))];
  }
}
