/**
 The code of `osi_send_request` and of its async callback over the global
 `g_send_request`, one method for each stretch between two points where a thread
 can be held up. Every method is one or two steps of the protocol.
 */
module SendRequestCode {
  import opened Options
  import opened SendRequestProtocol

  class SendRequest {
    const scheme: Tid
    var code: nat
    var payload: nat
    var sender: Option<Tid>
    var token: bool            // set by uv_async_send
    var owner: Option<Owner>   // of the mutex
    var live: set<Tid>         // the callers' condition variables
    var threads: seq<PC>
    var loop: LoopPC

    function View(): State
      reads this
    {
      State(scheme, threads, loop, owner, token, code, payload, sender, live, false)
    }

    /** osi_init */
    constructor (n: nat, scheme: Tid)
      ensures View() == Init(n, scheme)
    {
      this.scheme := scheme;
      code, payload, sender := 0, 0, None;
      token, owner, live := false, None, {};
      threads, loop := seq(n, i => Idle), Polling;
    }

    /** Up to the mutex: a null handler or a call from the Scheme thread is refused. */
    method Enter(t: Tid, req: Request) returns (rc: Option<int>)
      requires Enabled(View(), Event.Enter(t, req))
      modifies this
      ensures View() == Apply(old(View()), Event.Enter(t, req))
      ensures rc == if req.code == 0 then Some(EINVAL) else if t == scheme then Some(EPERM) else None
      ensures rc.Some? <==> old(Emits(View(), Event.Enter(t, req))) == Some(Refused(t, rc.GetOr(0)))
    {
      if req.code == 0 { return Some(EINVAL); }
      if t == scheme { return Some(EPERM); }
      threads := threads[t := Locking(req)];
      rc := None;
    }

    method Acquire(t: Tid)
      requires At(View(), t) && threads[t].WantsMutex() && owner.None?
      modifies this
      ensures View() == Apply(old(View()), if old(threads[t].Relocking?) then Relock(t) else Lock(t))
    {
      threads := threads[t := if threads[t].Relocking? then Retesting(threads[t].req) else Testing(threads[t].req)];
      owner := Some(Caller(t));
    }

    /** From the test of `sender` to the next wait, with the result of uv_async_send given. */
    method TakeTurn(t: Tid, sent: int) returns (rc: Option<int>)
      requires At(View(), t) && threads[t].Testing?
      modifies this
      ensures old(sender).Some? ==> rc == None && View() == Apply(old(View()), Wait(t))
      ensures old(sender).None? && sent != 0 ==> rc == Some(sent) && View() == Apply(old(View()), SendFails(t, sent))
      ensures old(sender).None? && sent == 0 ==>
                rc == None && View() == Apply(Apply(old(View()), Send(t)), Register(t))
    {
      var req := threads[t].req;
      owner := None;
      if sender.Some? {
        threads := threads[t := Queued(req)];
        return None;
      }
      if sent != 0 {
        threads := threads[t := Idle];
        return Some(sent);
      }
      token := true;
      code := req.code;
      payload := req.payload;
      live := live + {t};
      sender := Some(t);
      threads := threads[t := Waiting(req)];
      rc := None;
    }

    /** From the test of its own registration to the next wait or the return. */
    method Retest(t: Tid, woken: Option<Tid>) returns (rc: Option<int>)
      requires At(View(), t) && threads[t].Retesting? && Wakes(View(), woken)
      modifies this
      ensures old(sender) == Some(t) ==> rc == None && View() == Apply(old(View()), Rewait(t))
      ensures old(sender) != Some(t) ==>
                rc == Some(0) && View() == Apply(Apply(old(View()), Destroy(t)), Leave(t, woken))
    {
      owner := None;
      if sender == Some(t) {
        threads := threads[t := Waiting(threads[t].req)];
        return None;
      }
      live := live - {t};
      if woken.Some? {
        threads := threads[woken.value := Woken(threads[woken.value])];
      }
      threads := threads[t := Idle];
      rc := Some(0);
    }

    /** uv_run finds the wake-up and enters the callback. */
    method EnterCallback()
      requires loop.Polling? && token
      modifies this
      ensures View() == Apply(old(View()), Callback)
    {
      token := false;
      loop := Called;
    }

    /** The body of send_request_async_cb once it has the mutex; `ran` is what it called.
        In a state of any run it has a handler to call and a live condition variable to signal. */
    method AsyncCallback() returns (ran: Request)
      requires Inv(View()) && loop.Called? && owner.None?
      modifies this
      ensures View() == Apply(Apply(old(View()), LoopLock), Run)
      ensures ran.code != 0 && old(sender).Some?
      ensures Emits(Apply(old(View()), LoopLock), Run) == Some(Ran(old(sender).value, ran))
    {
      assert sender.Some? && ThreadInv(View(), sender.value);
      ran := Request(code, payload);
      var self := sender.value;
      code := 0;
      payload := 0;
      sender := None;
      threads := threads[self := Woken(threads[self])];
      loop := Polling;
    }
  }
}
