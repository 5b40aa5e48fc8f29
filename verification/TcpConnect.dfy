/**
 TCP connect: the resolved addresses are tried in turn, across attempts that fail at once and
 attempts that fail later, until one connects or none is left. libuv answers each attempt with
 `rcs[i]` at once and, when that is not negative, with `statuses[i]` in a callback.
 */
module TcpConnect {

  const ENOMEM: int := -12

  datatype Reply = Connected | Failed(who: string, error: int)

  datatype Answer = Accepted | Refused(who: string, error: int)

  /** Which callback libuv owes. */
  datatype Awaiting = Resolver | Connection | Nobody

  datatype Handle = Absent | Open | Closing

  datatype Conn = Conn(
    awaiting: Awaiting,
    ai: nat,                // the next address; past the last one, the null pointer
    tried: seq<nat>,        // the attempts made
    request: bool,          // the tcp_connect_t is allocated
    locked: bool,           // the callback
    addresses: bool,        // the list from getaddrinfo is allocated
    handle: Handle,
    replies: seq<Reply>)    // through the callback

  const BEFORE: Conn := Conn(Nobody, 0, [], false, false, false, Absent, [])
  const STARTED: Conn := Conn(Resolver, 0, [], true, true, false, Open, [])

  function Attempt(c: Conn): Conn { c.(tried := c.tried + [c.ai], ai := c.ai + 1) }

  function GiveUp(c: Conn, who: string, error: int): Conn {
    c.(awaiting := Nobody, request := false, locked := false, addresses := false, handle := Closing,
       replies := c.replies + [Failed(who, error)])
  }

  function Finish(c: Conn): Conn {
    c.(awaiting := Nobody, request := false, locked := false, addresses := false, replies := c.replies + [Connected])
  }

  /** The loop of connect_tcp_cb from an attempt that failed. */
  function Retry(c: Conn, rcs: seq<int>, status: int): Conn
    requires c.ai <= |rcs|
    decreases |rcs| - c.ai
  {
    if status >= 0 then c.(awaiting := Connection)
    else if c.ai == |rcs| then GiveUp(c, "uv_tcp_connect", status)
    else Retry(Attempt(c), rcs, rcs[c.ai])
  }

  function OnResolved(c: Conn, rcs: seq<int>, status: int): Conn
    requires c.ai == 0 < |rcs|
  {
    if status < 0 then GiveUp(c, "uv_getaddrinfo", status)
    else Retry(Attempt(c.(awaiting := Nobody, addresses := true)), rcs, rcs[0])
  }

  function OnConnected(c: Conn, rcs: seq<int>, status: int): Conn
    requires c.ai <= |rcs|
  {
    if status < 0 then Retry(c.(awaiting := Nobody), rcs, status) else Finish(c)
  }

  // ---------- whole runs ----------

  /** How the attempt on an address ends: at once, or in the callback. */
  function Outcome(rcs: seq<int>, statuses: seq<int>, i: nat): int
    requires i < |rcs| == |statuses|
  {
    if rcs[i] < 0 then rcs[i] else statuses[i]
  }

  function UpTo(n: nat): seq<nat> { seq(n, i => i) }

  predicate AllFail(rcs: seq<int>, statuses: seq<int>, n: nat)
    requires n <= |rcs| == |statuses|
  {
    forall i :: 0 <= i < n ==> Outcome(rcs, statuses, i) < 0
  }

  /** Between callbacks: one attempt is open, on an address whose predecessors have all failed,
      and nothing has been released or reported. */
  predicate Waiting(c: Conn, rcs: seq<int>, statuses: seq<int>)
    requires |rcs| == |statuses|
  {
    && c.awaiting.Connection? && 0 < c.ai <= |rcs|
    && c == Conn(Connection, c.ai, UpTo(c.ai), true, true, true, Open, [])
    && rcs[c.ai - 1] >= 0 && AllFail(rcs, statuses, c.ai - 1)
  }

  predicate Exhausted(c: Conn, rcs: seq<int>, statuses: seq<int>)
    requires 0 < |rcs| == |statuses|
  {
    var n := |rcs|;
    && AllFail(rcs, statuses, n)
    && c == Conn(Nobody, n, UpTo(n), false, false, false, Closing,
                 [Failed("uv_tcp_connect", Outcome(rcs, statuses, n - 1))])
  }

  /** Connected to address k, the first whose attempt does not fail. */
  predicate ConnectedTo(c: Conn, rcs: seq<int>, statuses: seq<int>, k: nat)
    requires k < |rcs| == |statuses|
  {
    && AllFail(rcs, statuses, k) && Outcome(rcs, statuses, k) >= 0
    && c == Conn(Nobody, k + 1, UpTo(k + 1), false, false, false, Open, [Connected])
  }

  lemma {:induction false} RetryEnds(c: Conn, rcs: seq<int>, statuses: seq<int>, status: int)
    requires 0 < c.ai <= |rcs| == |statuses|
    requires c == Conn(c.awaiting, c.ai, UpTo(c.ai), true, true, true, Open, []) && AllFail(rcs, statuses, c.ai - 1)
    requires if status < 0 then Outcome(rcs, statuses, c.ai - 1) == status else rcs[c.ai - 1] == status
    ensures var d := Retry(c, rcs, status);
            d.ai >= c.ai && (Waiting(d, rcs, statuses) || Exhausted(d, rcs, statuses))
    ensures status < 0 ==> var d := Retry(c, rcs, status); d.ai > c.ai || Exhausted(d, rcs, statuses)
    decreases |rcs| - c.ai
  {
    if status < 0 && c.ai < |rcs| {
      assert UpTo(c.ai) + [c.ai] == UpTo(c.ai + 1);
      RetryEnds(Attempt(c), rcs, statuses, rcs[c.ai]);
    }
  }

  lemma ResolvedEnds(rcs: seq<int>, statuses: seq<int>, status: int)
    requires 0 < |rcs| == |statuses| && status >= 0
    ensures var d := OnResolved(STARTED, rcs, status); Waiting(d, rcs, statuses) || Exhausted(d, rcs, statuses)
  {
    var c := Attempt(STARTED.(awaiting := Nobody, addresses := true));
    assert c.tried == UpTo(1);
    RetryEnds(c, rcs, statuses, rcs[0]);
  }

  lemma ConnectedEnds(c: Conn, rcs: seq<int>, statuses: seq<int>)
    requires 0 < |rcs| == |statuses| && Waiting(c, rcs, statuses)
    ensures var d := OnConnected(c, rcs, statuses[c.ai - 1]);
            || (Waiting(d, rcs, statuses) && d.ai > c.ai)
            || Exhausted(d, rcs, statuses) || ConnectedTo(d, rcs, statuses, c.ai - 1)
  {
    var status := statuses[c.ai - 1];
    if status < 0 { RetryEnds(c.(awaiting := Nobody), rcs, statuses, status); }
  }

  /** The connection after libuv has made all the callbacks that it owes. */
  function Settled(c: Conn, rcs: seq<int>, statuses: seq<int>): Conn
    requires 0 < |rcs| == |statuses| && (c.awaiting.Connection? ==> Waiting(c, rcs, statuses))
    decreases c.awaiting.Connection?, |rcs| - c.ai
  {
    if !c.awaiting.Connection? then c
    else
      ConnectedEnds(c, rcs, statuses);
      Settled(OnConnected(c, rcs, statuses[c.ai - 1]), rcs, statuses)
  }

  lemma {:induction false} SettledEnds(c: Conn, rcs: seq<int>, statuses: seq<int>)
    requires 0 < |rcs| == |statuses|
    requires || Waiting(c, rcs, statuses) || Exhausted(c, rcs, statuses)
             || exists k :: 0 <= k < |rcs| && ConnectedTo(c, rcs, statuses, k)
    ensures var d := Settled(c, rcs, statuses);
            Exhausted(d, rcs, statuses) || exists k :: 0 <= k < |rcs| && ConnectedTo(d, rcs, statuses, k)
    decreases c.awaiting.Connection?, |rcs| - c.ai
  {
    if c.awaiting.Connection? {
      ConnectedEnds(c, rcs, statuses);
      SettledEnds(OnConnected(c, rcs, statuses[c.ai - 1]), rcs, statuses);
    }
  }

  /** A name that is not resolved: no address is tried, and the one reply is the resolver's error. */
  predicate Unresolved(c: Conn, status: int) {
    c == Conn(Nobody, 0, [], false, false, false, Closing, [Failed("uv_getaddrinfo", status)])
  }

  lemma {:induction false} FirstOf(d: Conn, rcs: seq<int>, statuses: seq<int>)
    requires 0 < |rcs| == |statuses|
    requires Exhausted(d, rcs, statuses) || exists k :: 0 <= k < |rcs| && ConnectedTo(d, rcs, statuses, k)
    ensures AllFail(rcs, statuses, |rcs|) <==> Exhausted(d, rcs, statuses)
    ensures forall k :: 0 <= k < |rcs| ==>
              (AllFail(rcs, statuses, k) && Outcome(rcs, statuses, k) >= 0 <==> ConnectedTo(d, rcs, statuses, k))
  {
    if !Exhausted(d, rcs, statuses) {
      var k :| 0 <= k < |rcs| && ConnectedTo(d, rcs, statuses, k);
      assert !AllFail(rcs, statuses, |rcs|);
      forall j | 0 <= j < |rcs| && AllFail(rcs, statuses, j) && Outcome(rcs, statuses, j) >= 0 ensures j == k {}
    }
  }

  /** For every answer of the resolver, every list of addresses and every mixture of failures: the
      run ends, the callback gets one reply and is unlocked once, and the list is freed once. If the
      name is not resolved the reply is that error. Otherwise the addresses are tried in order and
      each once, and the reply is the port for the first that connects; if there is none, the last
      error, and the port is closed. */
  lemma {:induction false} FirstThatConnects(rcs: seq<int>, statuses: seq<int>, status: int)
    requires 0 < |rcs| == |statuses|
    ensures var d := OnResolved(STARTED, rcs, status);
            d.awaiting.Connection? ==> Waiting(d, rcs, statuses)
    ensures var d := Settled(OnResolved(STARTED, rcs, status), rcs, statuses);
            && (status < 0 <==> Unresolved(d, status))
            && (status >= 0 && AllFail(rcs, statuses, |rcs|) <==> Exhausted(d, rcs, statuses))
            && forall k :: 0 <= k < |rcs| ==>
                 (status >= 0 && AllFail(rcs, statuses, k) && Outcome(rcs, statuses, k) >= 0
                  <==> ConnectedTo(d, rcs, statuses, k))
  {
    if status >= 0 {
      ResolvedEnds(rcs, statuses, status);
      var c := OnResolved(STARTED, rcs, status);
      SettledEnds(c, rcs, statuses);
      FirstOf(Settled(c, rcs, statuses), rcs, statuses);
    }
  }

  // ---------- the code ----------

  class TcpRequest {
    var awaiting: Awaiting
    var ai: nat
    var tried: seq<nat>
    var request: bool
    var locked: bool
    var addresses: bool
    var handle: Handle
    var replies: seq<Reply>

    function View(): Conn
      reads this
    {
      Conn(awaiting, ai, tried, request, locked, addresses, handle, replies)
    }

    constructor ()
      ensures View() == BEFORE
    {
      awaiting, ai, tried := Nobody, 0, [];
      request, locked, addresses, handle := false, false, false, Absent;
      replies := [];
    }

    method UnlockCallback()
      requires locked
      modifies this`locked
      ensures !locked
    {
      locked := false;
    }

    method FreeRequest()
      requires request
      modifies this`request
      ensures !request
    {
      request := false;
    }

    method FreeAddresses()
      requires addresses
      modifies this`addresses
      ensures !addresses
    {
      addresses := false;
    }

    method CloseHandle()
      requires handle.Open?
      modifies this`handle
      ensures handle == Closing
    {
      handle := Closing;
    }

    method AddCallback(reply: Reply)
      modifies this`replies
      ensures replies == old(replies) + [reply]
    {
      replies := replies + [reply];
    }

    /** osi_connect_tcp, with the answers of malloc, uv_tcp_init and uv_getaddrinfo. On an error
        the caller learns it at once and nothing stays locked or allocated but a handle being closed. */
    method Start(memory: bool, memory2: bool, initialized: int, resolving: int) returns (answer: Answer)
      requires View() == BEFORE
      modifies this
      ensures memory && memory2 && initialized >= 0 && resolving >= 0 ==> answer == Accepted && View() == STARTED
      ensures !(memory && memory2 && initialized >= 0 && resolving >= 0) ==>
                && View() == BEFORE.(handle := if memory && memory2 && initialized >= 0 then Closing else Absent)
                && answer == if !memory || !memory2 then Refused("osi_connect_tcp", ENOMEM)
                            else if initialized < 0 then Refused("uv_tcp_init", initialized)
                            else Refused("uv_getaddrinfo", resolving)
    {
      if !memory { return Refused("osi_connect_tcp", ENOMEM); }
      request := true;
      if !memory2 {
        FreeRequest();
        return Refused("osi_connect_tcp", ENOMEM);
      }
      if initialized < 0 {
        FreeRequest();
        return Refused("uv_tcp_init", initialized);
      }
      handle := Open;
      locked := true;
      if resolving < 0 {
        UnlockCallback();
        CloseHandle();
        FreeRequest();
        return Refused("uv_getaddrinfo", resolving);
      }
      awaiting := Resolver;
      answer := Accepted;
    }

    /** connect_tcp_cb; releases nothing twice. */
    method ConnectCallback(rcs: seq<int>, status: int)
      requires ai <= |rcs| && request && locked && addresses && handle.Open?
      modifies this
      ensures View() == if status < 0 then Retry(old(View()).(awaiting := Nobody), rcs, status) else Finish(old(View()))
      ensures status >= 0 ==>
                View() == Conn(Nobody, old(ai), old(tried), false, false, false, Open, old(replies) + [Connected])
    {
      awaiting := Nobody;
      var last := status;
      if last < 0 {
        ghost var final := Retry(View(), rcs, last);
        while last < 0
          invariant awaiting.Nobody? && ai <= |rcs| && request && locked && addresses && handle.Open?
          invariant Retry(View(), rcs, last) == final
          decreases |rcs| - ai, last < 0
        {
          if ai == |rcs| {
            UnlockCallback();
            CloseHandle();
            FreeAddresses();
            FreeRequest();
            AddCallback(Failed("uv_tcp_connect", last));
            return;
          }
          last := rcs[ai];
          tried := tried + [ai];
          ai := ai + 1;
        }
        awaiting := Connection;
        return;
      }
      UnlockCallback();
      FreeAddresses();
      FreeRequest();
      AddCallback(Connected);
    }

    /** connect_tcp_addrinfo_cb, given a list of at least one address when it succeeds. */
    method AddressCallback(rcs: seq<int>, status: int)
      requires View() == STARTED && 0 < |rcs|
      modifies this
      ensures View() == OnResolved(STARTED, rcs, status)
      ensures status < 0 ==>
                View() == Conn(Nobody, 0, [], false, false, false, Closing, [Failed("uv_getaddrinfo", status)])
      ensures status >= 0 && rcs[0] >= 0 ==> View() == Conn(Connection, 1, [0], true, true, true, Open, [])
    {
      awaiting := Nobody;
      if status < 0 {
        UnlockCallback();
        CloseHandle();
        FreeRequest();
        AddCallback(Failed("uv_getaddrinfo", status));
        return;
      }
      addresses := true;
      tried := tried + [0];
      ai := 1;
      if rcs[0] < 0 {
        ConnectCallback(rcs, rcs[0]);
      } else {
        awaiting := Connection;
      }
    }
  }
}
