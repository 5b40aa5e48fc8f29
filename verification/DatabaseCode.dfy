/**
 The code over `database_t` and its intrusive list of statement records, one method
 for each stretch between two points where a thread can be held up. Every method is
 one step of the protocol; the list is kept in place through prev and next pointers.
 */
module DatabaseCode {
  import opened Options
  import opened DatabaseProtocol

  const EINVAL: int := -22
  const EBUSY: int := -16

  class Statement {
    const id: nat              // its address
    var stmt: Option<nat>      // sqlite3_stmt*, None is null
    var database: StatementList?
    var prev: Statement?
    var next: Statement?

    constructor (id: nat, d: StatementList, next: Statement?)
      ensures this.id == id && stmt == Some(id) && database == d && prev == null && this.next == next
    {
      this.id := id;
      this.stmt := Some(id);
      this.database := d;
      this.prev := null;
      this.next := next;
    }
  }

  function Ids(q: seq<Statement>): seq<nat> {
    seq(|q|, i requires 0 <= i < |q| => q[i].id)
  }

  ghost function IdSet(rs: set<Statement>): set<nat> {
    set r | r in rs :: r.id
  }

  ghost function Removed(q: seq<Statement>, k: nat): seq<Statement>
    requires k < |q|
  {
    q[..k] + q[k + 1..]
  }

  function Skip(i: nat, k: nat): nat {
    if i < k then i else i + 1
  }

  lemma RemovedAt(q: seq<Statement>, k: nat)
    requires k < |q|
    ensures |Removed(q, k)| == |q| - 1
    ensures forall i :: 0 <= i < |Removed(q, k)| ==> Removed(q, k)[i] == q[Skip(i, k)]
  {}

  lemma {:induction false} IdsRemoved(q: seq<Statement>, k: nat)
    requires k < |q| && Distinct(Ids(q))
    ensures Without(Ids(q), q[k].id) == Ids(Removed(q, k))
  {
    assert Ids(q) == [q[0].id] + Ids(q[1..]);
    if k == 0 {
      assert Removed(q, 0) == q[1..];
    } else {
      assert Ids(q)[k] == q[k].id;
      ConsDistinct(q[0].id, Ids(q[1..]));
      IdsRemoved(q[1..], k - 1);
      assert Removed(q, k) == [q[0]] + Removed(q[1..], k - 1);
      assert Ids(Removed(q, k)) == [q[0].id] + Ids(Removed(q[1..], k - 1));
    }
  }

  /** The statements of one database: the `statement` field with all it leads to, the records
      that close_worker has cut loose, and what SQLite knows of them. */
  class StatementList {
    var statement: Statement?
    var open: set<nat>           // prepared and not finalized
    var next: nat
    var refinalized: bool
    // the records that have not been freed
    ghost var contents: seq<Statement>
    ghost var detached: set<Statement>
    ghost var draining: bool     // the head points back at a record no longer on the list

    ghost function View(): Statements
      reads this
    {
      Statements(Ids(contents), IdSet(detached), open, next, refinalized)
    }

    ghost predicate Linked()
      reads this, contents
    {
      && (forall i, j :: 0 <= i < j < |contents| ==> contents[i] != contents[j])
      && statement == (if contents == [] then null else contents[0])
      && (forall i {:trigger contents[i].next} :: 0 <= i < |contents| ==>
            contents[i].next == if i + 1 < |contents| then contents[i + 1] else null)
      && (forall i {:trigger contents[i].prev} :: 0 < i < |contents| ==> contents[i].prev == contents[i - 1])
      && (contents != [] && !draining ==> contents[0].prev == null)
    }

    ghost predicate Owned()
      reads this, contents, detached
    {
      && (forall r :: r in contents ==> r !in detached && r.database == this && r.stmt == Some(r.id))
      && (forall r :: r in detached ==> r.database == null && r.stmt == None && r.prev == null && r.next == null)
      && (forall r, t :: r in detached && t in detached && r.id == t.id ==> r == t)
    }

    ghost predicate Valid()
      reads this, contents, detached
    {
      Linked() && Owned() && ListInv(View()) && (draining ==> contents != [])
    }

    constructor ()
      ensures Valid() && View() == DatabaseProtocol.Init().list && !draining
    {
      statement, open, next, refinalized := null, {}, 0, false;
      contents, detached, draining := [], {}, false;
    }

    method LinkFirst(id: nat) returns (s: Statement)
      requires Linked() && !draining
      modifies this`statement, this`contents, contents
      ensures Linked() && contents == [s] + old(contents)
      ensures fresh(s) && s.id == id && s.stmt == Some(id) && s.database == this
      ensures forall r :: r in old(contents) ==> r.stmt == old(r.stmt) && r.database == old(r.database)
    {
      s := new Statement(id, this, statement);
      if statement != null {
        statement.prev := s;
      }
      statement := s;
      contents := [s] + contents;
    }

    method UnlinkFirst() returns (s: Statement)
      requires Linked() && contents != []
      modifies this`statement, this`contents, this`draining, contents
      ensures Linked() && s == old(contents[0]) && contents == old(contents[1..])
      ensures draining == (contents != [])
      ensures s.stmt == None && s.database == null && s.prev == null && s.next == null
      ensures forall r :: r in contents ==> r.stmt == old(r.stmt) && r.database == old(r.database)
    {
      s := statement;
      statement := s.next;
      s.stmt := None;
      s.database := null;
      s.prev := null;
      s.next := null;
      contents := contents[1..];
      draining := contents != [];
    }

    method Unlink(s: Statement, ghost k: nat)
      requires Linked() && !draining && k < |contents| && contents[k] == s
      modifies this`statement, this`contents, contents
      ensures Linked() && contents == Removed(old(contents), k)
      ensures forall r :: r in old(contents) ==> r.stmt == old(r.stmt) && r.database == old(r.database)
    {
      if s.prev != null {
        s.prev.next := s.next;
      } else {
        statement := s.next;
      }
      if s.next != null {
        s.next.prev := s.prev;
      }
      ghost var q := contents;
      contents := Removed(contents, k);
      RemovedAt(q, k);
      forall i | 0 <= i < |contents|
        ensures contents[i].next == if i + 1 < |contents| then contents[i + 1] else null
        ensures 0 < i ==> contents[i].prev == contents[i - 1]
      {
        assert contents[i] == q[Skip(i, k)] && q[Skip(i, k)] != s;
        if i + 1 < |contents| { assert contents[i + 1] == q[Skip(i + 1, k)]; }
        if 0 < i { assert contents[i - 1] == q[Skip(i - 1, k)]; }
      }
    }

    /** The list part of prepare_worker; the new record is the head. */
    method Prepend()
      requires Valid() && !draining
      modifies this`statement, this`open, this`next, this`contents, contents
      ensures Valid() && View() == Prepended(old(View()))
      ensures contents != [] && contents[1..] == old(contents) && fresh(contents[0]) && contents[0].id == old(next)
    {
      ghost var before := View();
      open := open + {next};
      var s := LinkFirst(next);
      next := next + 1;
      assert Ids(contents) == [s.id] + before.attached;
      PrependedInv(before);
    }

    /** One turn of close_worker's loop; false when the list is empty. */
    method DrainFirst() returns (more: bool)
      requires Valid()
      modifies this, contents
      ensures Valid() && draining == (contents != [] && (more || old(draining)))
      ensures more == (old(contents) != [])
      ensures more ==> View() == Drained(old(View())) && contents == old(contents[1..])
                       && detached == old(detached) + {old(contents[0])}
      ensures !more ==> View() == old(View()) && contents == [] && detached == old(detached)
    {
      ghost var before := View();
      if statement == null { return false; }
      refinalized := refinalized || statement.id !in open;
      open := open - {statement.id};
      var s := UnlinkFirst();
      detached := detached + {s};
      assert before.attached[0] == s.id && before.attached[1..] == Ids(contents);
      assert IdSet(detached) == before.detached + {s.id};
      DrainedInv(before);
      more := true;
    }

    /** osi_finalize_statement; the record is freed unless its database is busy. */
    method Finalize(s: Statement, busy: bool) returns (done: bool)
      requires Valid() && (s in contents || s in detached) && (!busy ==> !draining)
      modifies this, contents
      ensures Valid() && draining == old(draining) && done == (old(s in detached) || !busy)
      ensures old(s in detached) <==> s.id in old(View()).detached
      ensures View() == if done then Finalized(old(View()), s.id) else old(View())
      ensures done ==> s !in contents && s !in detached
    {
      if s.database == null {
        Free(s);
        return true;
      }
      ghost var k: nat :| k < |contents| && contents[k] == s;
      assert Ids(contents)[k] == s.id;
      if busy { return false; }
      FinalizeAttached(s, k);
      done := true;
    }

    method FinalizeAttached(s: Statement, ghost k: nat)
      requires Valid() && !draining && k < |contents| && contents[k] == s
      modifies this`statement, this`open, this`refinalized, this`contents, contents
      ensures Valid() && View() == Finalized(old(View()), s.id)
      ensures s !in contents && s !in detached
    {
      ghost var before := View();
      assert Ids(contents)[k] == s.id;
      IdsRemoved(contents, k);
      refinalized := refinalized || s.id !in open;
      open := open - {s.id};
      Unlink(s, k);
      FinalizedInv(before, s.id);
    }

    ghost method Free(s: Statement)
      requires Valid() && s in detached
      modifies this`detached
      ensures Valid() && View() == Finalized(old(View()), s.id) && s !in detached
      ensures s.id in old(View()).detached
    {
      ghost var before := View();
      assert s.id in IdSet(detached);
      detached := detached - {s};
      assert IdSet(detached) == before.detached - {s.id};
    }
  }

  class Database {
    const list: StatementList
    var busy: bool
    var work: Option<Kind>
    var callback: Option<nat>
    var onDone: Option<Kind>
    var data: Data
    var rc: int
    var token: bool
    var main: MainPC
    var worker: WorkerPC

    ghost function View(): State
      reads this, list
    {
      State(main, worker, busy, work, callback, onDone, data, rc, token, list.View())
    }

    ghost predicate Valid()
      reads this, list, list.contents, list.detached
    {
      && list.Valid()
      && (list.draining ==> worker == Working(Closing))
      && Inv(View())
    }

    constructor ()
      ensures Valid() && View() == DatabaseProtocol.Init()
    {
      list := new StatementList();
      busy, work, callback, onDone, data := false, None, None, None, NoData;
      rc, token, main, worker := OK, false, Free, Starting;
    }

    /** The head of osi_close_database, osi_prepare_statement, osi_step_statement and
        osi_bulk_execute, up to the mutex; s is the statement of the request if it has one. */
    method Submit(req: Request, s: Statement?) returns (error: int)
      requires Valid() && main.Free?
      requires req.Step? || req.Bulk? ==>
                 s != null && (s in list.contents || s in list.detached)
                 && s.id == if req.Step? then req.statement else req.first
      modifies this
      ensures Enabled(old(View()), Event.Submit(req)) && View() == Apply(old(View()), Event.Submit(req)) && Valid()
      ensures error == if (req.Step? || req.Bulk?) && s in list.detached then EINVAL else if old(busy) then EBUSY else 0
      ensures error == 0 <==> !Refused(old(View()), req)
    {
      ghost var before := View();
      if s != null && s in list.contents {
        ghost var k :| 0 <= k < |list.contents| && list.contents[k] == s;
        assert Ids(list.contents)[k] == s.id;
      }
      assert s != null && s in list.detached ==> s.id in IdSet(list.detached);
      InvStep(before, Event.Submit(req));
      if (req.Step? || req.Bulk?) && s.database == null { return EINVAL; }
      if busy { return EBUSY; }
      if !req.Bulk? {
        onDone := Some(req.Kind());
      }
      main := Storing(req);
      error := 0;
    }

    /** The critical section of a submission. */
    method Store()
      requires Valid() && main.Storing? && !worker.HasMutex()
      modifies this
      ensures Valid() && View() == Apply(old(View()), Event.Store)
      ensures var req := old(main.req);
              busy && work == Some(req.Kind()) && callback == Some(req.cb) && data == req.Data() && main == Signalling
    {
      InvStep(View(), Event.Store);
      var req := main.req;
      if req.Bulk? {
        onDone := Some(Bulking);
      }
      busy := true;
      work := Some(req.Kind());
      callback := Some(req.cb);
      data := req.Data();
      main := Signalling;
    }

    method Signal()
      requires Valid() && main.Signalling?
      modifies this
      ensures Valid() && View() == Apply(old(View()), Event.Signal)
    {
      InvStep(View(), Event.Signal);
      if worker.Sleeping? {
        worker := Starting;
      }
      main := Free;
    }

    /** async_cb and the callback it calls. A successful close has still to join the worker;
        otherwise the Scheme callback is queued with the code and the statement at the head. */
    method Complete() returns (done: Option<Entry>)
      requires Valid() && main.Free? && token
      modifies this
      ensures Valid() && View() == Apply(old(View()), Event.Complete)
      ensures done == old(Emits(View(), Event.Complete))
      ensures done.None? ==> main == Joining(old(callback).value) && old(onDone) == Some(Closing) && rc == OK
      ensures done.Some? ==>
                done.value.cb == old(callback).value && done.value.k == old(onDone).value && done.value.rc == rc
      ensures done.Some? && done.value.k.Preparing? && done.value.rc == OK ==> done.value.made.Some?
    {
      CompletionMade(View());
      InvStep(View(), Event.Complete);
      token := false;
      var cb := callback.value;
      busy := false;
      callback := None;
      var d := data;
      data := NoData;
      if onDone == Some(Closing) && rc == OK {
        main := Joining(cb);
        return None;
      }
      var made: Option<nat> := None;
      if onDone == Some(Preparing) && rc == OK && list.statement != null {
        made := Some(list.statement.id);
      }
      done := Some(Completed(cb, onDone.value, d, rc, made));
    }

    /** The rest of close_cb, once the worker thread has ended. */
    method Join()
      requires Valid() && main.Joining? && worker.Exited?
      modifies this
      ensures Valid() && View() == Apply(old(View()), Event.Join)
      ensures list.contents == []
    {
      InvStep(View(), Event.Join);
      main := Gone;
      assert |Ids(list.contents)| == |list.contents|;
    }

    method FinalizeStatement(s: Statement) returns (done: bool)
      requires Valid() && (s in list.contents || s in list.detached)
      requires main.Free? || (main.Gone? && s in list.detached)
      modifies list, list.contents
      ensures Enabled(old(View()), Finalize(s.id)) && View() == Apply(old(View()), Finalize(s.id)) && Valid()
      ensures done == (old(s in list.detached) || !busy)
    {
      ghost var before := View();
      if s in list.contents {
        ghost var k :| 0 <= k < |list.contents| && list.contents[k] == s;
        assert Ids(list.contents)[k] == s.id;
      }
      assert s in list.detached ==> s.id in IdSet(list.detached);
      done := list.Finalize(s, busy);
      InvStep(before, Finalize(s.id));
    }

    // ---------- the worker thread ----------

    /** The top of database_worker's loop, from the mutex to the work function or the wait. */
    method Look()
      requires Valid() && worker.Starting?
      modifies this
      ensures Valid() && View() == Apply(Apply(old(View()), WorkerLock), Check)
    {
      InvStep(View(), WorkerLock);
      InvStep(Apply(View(), WorkerLock), Check);
      worker := if work.Some? then Working(work.value) else Sleeping;
    }

    method CloseWorkerTurn() returns (more: bool)
      requires Valid() && worker == Working(Closing)
      modifies list, list.contents
      ensures Valid() && more == (old(list.contents) != [])
      ensures more ==> Enabled(old(View()), Drain) && View() == Apply(old(View()), Drain)
      ensures !more ==> View() == old(View()) && list.contents == []
    {
      ghost var before := View();
      assert |Ids(list.contents)| == |list.contents|;
      more := list.DrainFirst();
      if more { InvStep(before, Drain); }
    }

    /** prepare_worker once SQLite has prepared a statement. */
    method LinkPrepared(mallocOk: bool)
      requires list.Valid() && !list.draining && rc == OK
      modifies this`rc, list, list.contents
      ensures list.Valid() && !list.draining && list.detached == old(list.detached)
      ensures rc == if mallocOk then OK else NOMEM
      ensures list.View() == if mallocOk then Prepended(old(list.View())) else old(list.View())
    {
      if mallocOk {
        list.Prepend();
      } else {
        rc := NOMEM;
      }
    }

    /** The end of a work function with the code that SQLite gave it; prepare_worker links in
        a record unless malloc fails. */
    method WorkDone(result: int, mallocOk: bool)
      requires Valid() && worker.Working? && (worker.k.Closing? ==> list.contents == [])
      modifies this, list, list.contents
      ensures Enabled(old(View()), Finish(result, mallocOk))
      ensures View() == Apply(old(View()), Finish(result, mallocOk)) && Valid()
      ensures rc == if old(worker.k.Preparing?) && result == OK && !mallocOk then NOMEM else result
    {
      ghost var before := View();
      assert |Ids(list.contents)| == |list.contents|;
      rc := result;
      if worker.k.Preparing? && result == OK {
        LinkPrepared(mallocOk);
      }
      worker := Finishing(worker.k);
      InvStep(before, Finish(result, mallocOk));
    }

    method PostDone()
      requires Valid() && worker.Finishing?
      modifies this
      ensures Valid() && View() == Apply(Apply(old(View()), Relock), Post)
    {
      InvStep(View(), Relock);
      InvStep(Apply(View(), Relock), Post);
      work := None;
      token := true;
      worker := Posted(worker.k);
    }

    method WaitOrExit()
      requires Valid() && worker.Posted?
      modifies this
      ensures Valid() && View() == Apply(old(View()), Decide)
    {
      InvStep(View(), Decide);
      worker := if worker.k.Closing? && rc == OK then Exited else Sleeping;
    }
  }
}
