/**
  The asynchronous context as the library keeps it: flags and a linked queue of
  callbacks, changed in place; every method is one function of AsyncMachine.
 */
module AsyncContext {
  import opened Wrappers
  import opened RespGrammar
  import opened AsyncMachine

  class Node {
    const cb: Callback
    var next: Node?

    constructor (cb: Callback)
      ensures this.cb == cb && next == null
    {
      this.cb := cb;
      next := null;
    }
  }

  function Values(nodes: seq<Node>): (r: seq<Callback>)
    ensures |r| == |nodes|
  {
    seq(|nodes|, i requires 0 <= i < |nodes| => nodes[i].cb)
  }

  class CallbackList {
    var head: Node?
    var tail: Node?
    ghost var nodes: seq<Node>

    ghost predicate Valid()
      reads this, nodes
    {
      && (forall i, j :: 0 <= i < j < |nodes| ==> nodes[i] != nodes[j])
      && (forall i :: 0 <= i < |nodes| - 1 ==> nodes[i].next == nodes[i + 1])
      && (if |nodes| == 0 then head == null && tail == null
          else head == nodes[0] && tail == nodes[|nodes| - 1] && nodes[|nodes| - 1].next == null)
    }

    ghost function Contents(): seq<Callback>
      reads this
    {
      Values(nodes)
    }

    constructor ()
      ensures Valid() && Contents() == [] && nodes == []
    {
      head, tail, nodes := null, null, [];
    }

    method Push(source: Callback)
      requires Valid()
      modifies this, nodes
      ensures Valid() && Contents() == old(Contents()) + [source]
      ensures |nodes| > 0 && nodes[..|nodes| - 1] == old(nodes) && fresh(nodes[|nodes| - 1])
    {
      var cb := new Node(source);
      if head == null {
        head := cb;
      }
      if tail != null {
        tail.next := cb;
      }
      tail := cb;
      nodes := nodes + [cb];
    }

    method Shift() returns (target: Option<Callback>)
      requires Valid()
      modifies this
      ensures Valid()
      ensures if |old(nodes)| == 0 then target == None && nodes == []
              else target == Some(old(Contents())[0]) && nodes == old(nodes)[1..] && Contents() == old(Contents())[1..]
    {
      var cb := head;
      if cb == null {
        return None;
      }
      head := cb.next;
      if cb == tail {
        tail := null;
      }
      nodes := nodes[1..];
      return Some(cb.cb);
    }
  }

  class AsyncContext {
    var connected: bool
    var disconnecting: bool
    var freeing: bool
    var inCallback: bool
    var err: bool
    var obuf: seq<Byte>
    const replies: CallbackList
    const handlers: Handlers
    var greeted: Option<Status>
    var closed: Option<Status>
    var fate: Fate
    ghost var written: seq<Byte>
    ghost var accepted: seq<Request>
    ghost var served: seq<Service>
    ghost var invoked: seq<Service>
    ghost var answers: seq<Reply>

    ghost function Footprint(): set<object>
      reads this, replies
    {
      {this, replies} + set n | n in replies.nodes
    }

    ghost predicate Valid()
      reads this, replies, replies.nodes
    {
      replies.Valid()
    }

    ghost function Abs(): Context
      reads this, replies
    {
      Context(Flags(connected, disconnecting, freeing, inCallback), err, Outbox(written, obuf),
              Ledger(replies.Contents(), accepted, served, invoked, answers),
              handlers, Notices(greeted, closed), fate)
    }

    constructor (handlers: Handlers)
      ensures Valid() && Abs() == Fresh(handlers) && fresh(Footprint())
    {
      connected, disconnecting, freeing, inCallback, err := false, false, false, false, false;
      obuf, greeted, closed, fate := [], None, None, Live;
      replies := new CallbackList();
      this.handlers := handlers;
      written, accepted, served, invoked, answers := [], [], [], [], [];
    }

    method Command(cb: Callback, cmd: seq<Byte>)
      requires Valid()
      modifies Footprint()
      ensures Valid() && fresh(Footprint() - old(Footprint()))
      ensures Abs() == AsyncCommand(old(Abs()), cb, cmd)
    {
      if disconnecting || freeing {
        return;
      }
      replies.Push(cb);
      accepted := accepted + [Request(cb, cmd)];
      obuf := obuf + cmd;
    }

    method RunCallback(cb: Callback, outcome: Outcome)
      requires Valid() && !inCallback
      modifies Footprint()
      ensures Valid() && fresh(Footprint() - old(Footprint()))
      ensures Abs() == AsyncMachine.RunCallback(old(Abs()), cb, outcome)
      decreases 1
    {
      hide CallbackList.Valid, AsyncFree, AsyncDisconnect, Enqueue;
      if cb.hasFn {
        inCallback := true;
        invoked := invoked + [Service(cb, outcome)];
        ghost var start := Abs();
        var script := cb.script;
        assert script[0..] == script;
        for i := 0 to |script|
          invariant Valid() && inCallback && fresh(Footprint() - old(Footprint()))
          invariant RunScript(Abs(), script[i..]) == RunScript(start, script)
        {
          assert script[i..][0] == script[i] && script[i..][1..] == script[i + 1..];
          PerformIsTheApi(Abs());
          match script[i] {
            case Issue(issued, cmd) => Command(issued, cmd);
            case Disconnect => Disconnect();
            case Free => Free();
          }
        }
        inCallback := false;
      }
    }

    /** Shifts the next callback, if there is one, and runs it with an outcome. */
    method ServeNext(outcome: Outcome) returns (cb: Option<Callback>)
      requires Valid() && !inCallback
      modifies Footprint()
      ensures Valid() && !inCallback && fresh(Footprint() - old(Footprint()))
      ensures if |old(replies.nodes)| == 0 then cb == None && Abs() == old(Abs()) && replies.nodes == []
              else cb == Some(old(Abs()).ledger.queue[0]) && Abs() == Serve(old(Abs()), outcome)
      decreases 2
    {
      hide AsyncMachine.RunCallback, CallbackList.Valid;
      ghost var before := Abs();
      cb := replies.Shift();
      if cb.Some? {
        served := served + [Service(cb.value, outcome)];
        if outcome.Got? {
          answers := answers + [outcome.reply];
        }
        assert Abs() == before.(ledger := AsyncMachine.Shift(before.ledger, outcome));
        RunCallback(cb.value, outcome);
        ServeFlags(before, outcome);
      }
    }

    lemma ServeFlags(c: Context, outcome: Outcome)
      requires |c.ledger.queue| > 0 && !c.flags.inCallback
      ensures !Serve(c, outcome).flags.inCallback && Serve(c, outcome).fate == c.fate
    {
      var cb, s := c.ledger.queue[0], c.(ledger := AsyncMachine.Shift(c.ledger, outcome));
      ScriptQueues(Called(s, cb, outcome), cb.script);
    }

    method FreeNow()
      requires Valid() && !inCallback && (Refusing(Abs()) || replies.nodes == [])
      modifies Footprint()
      ensures Abs() == AsyncMachine.FreeNow(old(Abs())) && fate == Freed
      decreases 3
    {
      hide Serve, CallbackList.Valid;
      ghost var start := Abs();
      ghost var before := start;
      var cb := ServeNext(Null);
      if cb.Some? {
        ServeQueues(start, Null);
      }
      while cb.Some?
        invariant Valid() && !inCallback && fresh(Footprint() - old(Footprint()))
        invariant Refusing(Abs()) || Abs().ledger.queue == []
        invariant Drain(Abs()) == Drain(start)
        invariant cb.None? ==> Abs().ledger.queue == []
        decreases |Abs().ledger.queue|, cb.Some?
      {
        before := Abs();
        cb := ServeNext(Null);
        if cb.Some? {
          ServeQueues(before, Null);
        }
      }
      if handlers.onDisconnect && connected {
        closed := Some(if freeing || !err then Ok else Err);
      }
      fate := Freed;
    }

    method Free()
      requires Valid()
      modifies Footprint()
      ensures old(inCallback) ==> Valid() && inCallback && fresh(Footprint() - old(Footprint()))
      ensures Abs() == AsyncFree(old(Abs()))
      decreases if inCallback then 0 else 4
    {
      freeing := true;
      if !inCallback {
        FreeNow();
      }
    }

    method DisconnectNow()
      requires Valid() && !inCallback
      modifies Footprint()
      ensures Abs() == AsyncMachine.DisconnectNow(old(Abs())) && fate != Live
      decreases 4
    {
      if !err {
        if replies.head != null {
          fate := PendingAssertion;
          return;
        }
      } else {
        disconnecting := true;
      }
      FreeNow();
    }

    method Disconnect()
      requires Valid()
      modifies Footprint()
      ensures old(inCallback) ==> Valid() && inCallback && fresh(Footprint() - old(Footprint()))
      ensures Abs() == AsyncDisconnect(old(Abs()))
      decreases if inCallback then 0 else 5
    {
      disconnecting := true;
      if !inCallback && replies.head == null {
        DisconnectNow();
      }
    }

    method ProcessCallbacks(available: seq<Reply>, end: ReaderEnd)
      requires Valid() && !inCallback && fate == Live
      modifies Footprint()
      ensures Abs() == AsyncMachine.ProcessCallbacks(old(Abs()), available, end)
      ensures fate == Live ==> Valid() && fresh(Footprint() - old(Footprint()))
      decreases 5
    {
      hide Serve, AsyncMachine.DisconnectNow, AsyncMachine.FreeNow, CallbackList.Valid;
      ghost var start := Abs();
      var i := 0;
      assert available[0..] == available;
      while i < |available|
        invariant Valid() && !inCallback && fate == Live && fresh(Footprint() - old(Footprint()))
        invariant i <= |available|
        invariant AsyncMachine.ProcessCallbacks(Abs(), available[i..], end) ==
                  AsyncMachine.ProcessCallbacks(start, available, end)
      {
        ghost var before := Abs();
        assert available[i..][0] == available[i] && available[i..][1..] == available[i + 1..];
        var reply := available[i];
        var cb := ServeNext(Got(reply));
        if cb.None? {
          if reply.Error? {
            err := true;
            DisconnectNow();
          } else {
            fate := StrayAssertion;
          }
          return;
        }
        ServeFlags(before, Got(reply));
        if cb.value.hasFn && freeing {
          FreeNow();
          return;
        }
        i := i + 1;
      }
      if end.BadStream? {
        err := true;
        DisconnectNow();
      } else if disconnecting && obuf == [] {
        DisconnectNow();
      }
    }

    /** The first read or write event finds out whether the connection was made. */
    method HandleConnect(made: bool)
      requires Valid() && !inCallback && fate == Live && !connected
      modifies Footprint()
      ensures Abs() == Step(old(Abs()), if made then ConnectDone else ConnectRefused)
      ensures fate == Live ==> Valid()
    {
      hide AsyncMachine.DisconnectNow;
      if !made {
        if handlers.onConnect {
          greeted := Some(Err);
        }
        err := true;
        DisconnectNow();
        return;
      }
      connected := true;
      if handlers.onConnect {
        greeted := Some(Ok);
      }
    }

    /** A read event on a connection: the socket was read, or failed. */
    method HandleRead(ok: bool, available: seq<Reply>, end: ReaderEnd)
      requires Valid() && !inCallback && fate == Live && connected
      modifies Footprint()
      ensures Abs() == Step(old(Abs()), if ok then Read(available, end) else ReadFailed)
      ensures fate == Live ==> Valid()
    {
      hide AsyncMachine.DisconnectNow, AsyncMachine.ProcessCallbacks;
      if ok {
        ProcessCallbacks(available, end);
      } else {
        err := true;
        DisconnectNow();
      }
    }

    /** A write event on a connection: `n` bytes left the output buffer, or writing failed. */
    method HandleWrite(ok: bool, n: nat)
      requires Valid() && !inCallback && fate == Live && connected && n <= |obuf|
      modifies Footprint()
      ensures Abs() == Step(old(Abs()), if ok then Wrote(n) else WriteFailed)
      ensures fate == Live ==> Valid()
    {
      hide AsyncMachine.DisconnectNow;
      if ok {
        written := written + obuf[..n];
        obuf := obuf[n..];
      } else {
        err := true;
        DisconnectNow();
      }
    }
  }
}
