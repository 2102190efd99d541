/**
  Matching replies to callbacks in the asynchronous client.

  AsyncMachine is the context on values: every call and event is a function, and the main
  result over all runs is that callbacks are served first come, first served and exactly
  once.  AsyncContext is the class with its linked callback queue, updated in place and
  proved equal to the machine.  Contexts here never subscribe and never monitor.
 */
module AsyncMachine {
  import opened Wrappers
  import opened RespGrammar

  /**
    A registered callback: whether it has a function (NULL is allowed), and everything
    the function does to the context when it is invoked.
   */
  datatype Callback = Callback(hasFn: bool, script: seq<Action>)

  datatype Action = Issue(callback: Callback, cmd: seq<Byte>) | Disconnect | Free

  datatype Outcome = Null | Got(reply: Reply)

  /** An accepted command: the callback registered for it and the bytes to send. */
  datatype Request = Request(callback: Callback, cmd: seq<Byte>)

  /** A callback leaving the queue, and the reply it was given. */
  datatype Service = Service(callback: Callback, outcome: Outcome)

  // Alive, freed, or stopped by one of the two assertions: that nothing is pending at a clean
  // disconnect, or that a reply nobody waits for comes to a subscriber.
  datatype Fate = Live | Freed | PendingAssertion | StrayAssertion

  datatype Status = Ok | Err

  datatype Flags = Flags(connected: bool, disconnecting: bool, freeing: bool, inCallback: bool)

  datatype Ledger = Ledger(
    queue: seq<Callback>,        // callbacks waiting for their reply
    accepted: seq<Request>,      // every command accepted so far
    served: seq<Service>,        // every callback taken off the queue so far
    invoked: seq<Service>,       // every callback function called so far
    answers: seq<Reply>)         // every reply matched to a callback so far

  // The bytes sent so far and those still in the output buffer.
  datatype Outbox = Outbox(written: seq<Byte>, pending: seq<Byte>)

  // Which handlers are set.
  datatype Handlers = Handlers(onConnect: bool, onDisconnect: bool)

  // What the connect handler and the disconnect handler were told.
  datatype Notices = Notices(greeted: Option<Status>, closed: Option<Status>)

  datatype Context = Context(
    flags: Flags,
    err: bool,
    out: Outbox,
    ledger: Ledger,
    handlers: Handlers,
    told: Notices,
    fate: Fate)

  const EMPTY: Ledger := Ledger([], [], [], [], [])

  function Fresh(handlers: Handlers): Context {
    Context(Flags(false, false, false, false), false, Outbox([], []), EMPTY, handlers, Notices(None, None), Live)
  }

  /** New commands are refused while the connection is being closed. */
  predicate Refusing(c: Context) {
    c.flags.disconnecting || c.flags.freeing
  }

  function Disconnecting(c: Context): Context { c.(flags := c.flags.(disconnecting := true)) }
  function Freeing(c: Context): Context { c.(flags := c.flags.(freeing := true)) }
  function InCallback(c: Context, b: bool): Context { c.(flags := c.flags.(inCallback := b)) }

  function CallbacksOf(requests: seq<Request>): (r: seq<Callback>)
    ensures |r| == |requests| && forall k :: 0 <= k < |requests| ==> r[k] == requests[k].callback
  {
    seq(|requests|, k requires 0 <= k < |requests| => requests[k].callback)
  }

  /** The commands one after another. */
  function Commands(requests: seq<Request>): seq<Byte> {
    if |requests| == 0 then [] else Commands(requests[..|requests| - 1]) + requests[|requests| - 1].cmd
  }

  function Enqueue(l: Ledger, requests: seq<Request>): Ledger {
    l.(queue := l.queue + CallbacksOf(requests), accepted := l.accepted + requests)
  }

  function Buffer(o: Outbox, bytes: seq<Byte>): Outbox {
    o.(pending := o.pending + bytes)
  }

  /** The first bytes of the output buffer leave. */
  function Send(o: Outbox, n: nat): Outbox
    requires n <= |o.pending|
  {
    Outbox(o.written + o.pending[..n], o.pending[n..])
  }

  function AsyncCommand(c: Context, cb: Callback, cmd: seq<Byte>): Context {
    if Refusing(c) then c else c.(ledger := Enqueue(c.ledger, [Request(cb, cmd)]), out := Buffer(c.out, cmd))
  }

  /** What a callback does runs inside the callback: closing is only noted down. */
  function Perform(c: Context, a: Action): Context {
    match a
    case Issue(cb, cmd) => AsyncCommand(c, cb, cmd)
    case Disconnect => Disconnecting(c)
    case Free => Freeing(c)
  }

  function RunScript(c: Context, script: seq<Action>): Context
    decreases |script|
  {
    if |script| == 0 then c else RunScript(Perform(c, script[0]), script[1..])
  }

  /** The commands a script gets accepted. */
  function Issued(c: Context, script: seq<Action>): seq<Request>
    decreases |script|
  {
    if |script| == 0 then []
    else
      (if script[0].Issue? && !Refusing(c) then [Request(script[0].callback, script[0].cmd)] else [])
      + Issued(Perform(c, script[0]), script[1..])
  }

  /** Invokes a callback that was just taken off the queue; a NULL function is skipped. */
  function RunCallback(c: Context, cb: Callback, outcome: Outcome): Context {
    if cb.hasFn then InCallback(RunScript(Called(c, cb, outcome), cb.script), false) else c
  }

  function Called(c: Context, cb: Callback, outcome: Outcome): Context {
    InCallback(c.(ledger := c.ledger.(invoked := c.ledger.invoked + [Service(cb, outcome)])), true)
  }

  /** The head of the queue is taken off with an outcome. */
  function Shift(l: Ledger, outcome: Outcome): Ledger
    requires |l.queue| > 0
  {
    l.(queue := l.queue[1..], served := l.served + [Service(l.queue[0], outcome)],
       answers := if outcome.Got? then l.answers + [outcome.reply] else l.answers)
  }

  function Serve(c: Context, outcome: Outcome): Context
    requires |c.ledger.queue| > 0
  {
    RunCallback(c.(ledger := Shift(c.ledger, outcome)), c.ledger.queue[0], outcome)
  }

  lemma EnqueueNone(l: Ledger)
    ensures Enqueue(l, []) == l
  {
    assert l.queue + CallbacksOf([]) == l.queue && l.accepted + [] == l.accepted;
  }

  lemma EnqueueMore(l: Ledger, a: seq<Request>, b: seq<Request>)
    ensures Enqueue(Enqueue(l, a), b) == Enqueue(l, a + b)
  {
    assert CallbacksOf(a + b) == CallbacksOf(a) + CallbacksOf(b);
    Regroup(l.queue, CallbacksOf(a), CallbacksOf(b));
    Regroup(l.accepted, a, b);
  }

  lemma {:induction false} CommandsMore(a: seq<Request>, b: seq<Request>)
    ensures Commands(a + b) == Commands(a) + Commands(b)
    decreases |b|
  {
    if |b| == 0 {
      assert a + b == a;
    } else {
      var init, last := b[..|b| - 1], b[|b| - 1].cmd;
      assert (a + b)[..|a + b| - 1] == a + init;
      CommandsMore(a, init);
      Regroup(Commands(a), Commands(init), last);
    }
  }

  lemma CommandsNone()
    ensures Commands([]) == []
  {
  }

  lemma CommandsOne(q: Request)
    ensures Commands([q]) == q.cmd
  {
    assert [q][..0] == [] && Commands([]) == [];
    assert [] + q.cmd == q.cmd;
  }

  lemma {:induction false} CommandsInner(a: seq<Request>, q: Request, b: seq<Request>)
    ensures Commands(a) + q.cmd <= Commands(a + [q] + b)
  {
    hide Commands;
    CommandsMore(a + [q], b);
    CommandsMore(a, [q]);
    CommandsOne(q);
  }

  /** Where a command stands: right behind those accepted before it. */
  lemma {:induction false} CommandsAt(requests: seq<Request>, k: nat)
    requires k < |requests|
    ensures Commands(requests[..k]) + requests[k].cmd <= Commands(requests)
  {
    hide Commands;
    var a, q, b := requests[..k], requests[k], requests[k + 1..];
    assert a + [q] == requests[..k + 1];
    assert a + [q] + b == requests;
    CommandsInner(a, q, b);
  }

  lemma BufferNone(o: Outbox)
    ensures Buffer(o, []) == o
  {
    assert o.pending + [] == o.pending;
  }

  lemma BufferMore(o: Outbox, a: seq<Byte>, b: seq<Byte>)
    ensures Buffer(Buffer(o, a), b) == Buffer(o, a + b)
  {
    Regroup(o.pending, a, b);
  }

  /** A script only queues callbacks, buffers their commands in order, and notes down closing. */
  lemma {:induction false} ScriptQueues(c: Context, script: seq<Action>)
    ensures var r := RunScript(c, script);
            && r.ledger == Enqueue(c.ledger, Issued(c, script))
            && r.out == Buffer(c.out, Commands(Issued(c, script)))
            && r == c.(ledger := r.ledger, out := r.out, flags := r.flags)
            && r.flags.connected == c.flags.connected && r.flags.inCallback == c.flags.inCallback
            && (Refusing(c) ==> Refusing(r) && Issued(c, script) == [])
    decreases |script|
  {
    hide Buffer, Enqueue, Commands;
    if |script| == 0 {
      EnqueueNone(c.ledger);
      CommandsNone();
      BufferNone(c.out);
    } else {
      var d := Perform(c, script[0]);
      var more := Issued(d, script[1..]);
      ScriptQueues(d, script[1..]);
      if script[0].Issue? && !Refusing(c) {
        var q := Request(script[0].callback, script[0].cmd);
        EnqueueMore(c.ledger, [q], more);
        CommandsOne(q);
        CommandsMore([q], more);
        BufferMore(c.out, q.cmd, Commands(more));
      } else {
        assert [] + more == more;
      }
    }
  }

  /** Serving a callback takes one off the queue and may add others behind, unless closing has begun. */
  lemma ServeQueues(c: Context, outcome: Outcome)
    requires |c.ledger.queue| > 0
    ensures var d := Serve(c, outcome);
            && |d.ledger.queue| >= |c.ledger.queue| - 1
            && (Refusing(c) ==> Refusing(d) && |d.ledger.queue| == |c.ledger.queue| - 1)
  {
    var cb, s := c.ledger.queue[0], c.(ledger := Shift(c.ledger, outcome));
    ScriptQueues(Called(s, cb, outcome), cb.script);
  }

  /** All pending callbacks run with a NULL reply. */
  function Drain(c: Context): Context
    requires Refusing(c) || c.ledger.queue == []
    decreases |c.ledger.queue|
  {
    if |c.ledger.queue| == 0 then c
    else
      ServeQueues(c, Null);
      Drain(Serve(c, Null))
  }

  function Close(c: Context): Context {
    var closed := if c.handlers.onDisconnect && c.flags.connected
                  then Some(if c.flags.freeing || !c.err then Ok else Err)
                  else c.told.closed;
    c.(told := c.told.(closed := closed), fate := Freed)
  }

  function FreeNow(c: Context): Context
    requires Refusing(c) || c.ledger.queue == []
  {
    Close(Drain(c))
  }

  function AsyncFree(c: Context): Context {
    if c.flags.inCallback then Freeing(c) else FreeNow(Freeing(c))
  }

  /** A clean disconnect asserts that no callback is pending. */
  function DisconnectNow(c: Context): Context {
    if c.err then FreeNow(Disconnecting(c))
    else if |c.ledger.queue| == 0 then FreeNow(c)
    else c.(fate := PendingAssertion)
  }

  function AsyncDisconnect(c: Context): Context {
    var d := Disconnecting(c);
    if !c.flags.inCallback && |c.ledger.queue| == 0 then DisconnectNow(d) else d
  }

  function Broken(c: Context): Context {
    DisconnectNow(c.(err := true))
  }

  // How the reader stands after the replies it had.
  datatype ReaderEnd = NoMore | BadStream

  function ProcessCallbacks(c: Context, replies: seq<Reply>, end: ReaderEnd): Context
    decreases |replies|
  {
    if |replies| == 0 then
      if end.BadStream? then Broken(c)
      else if c.flags.disconnecting && c.out.pending == [] then DisconnectNow(c)
      else c
    else if |c.ledger.queue| == 0 then
      // A reply nobody asked for: an error closes the connection, anything else is asserted away.
      if replies[0].Error? then Broken(c) else c.(fate := StrayAssertion)
    else
      var d := Serve(c, Got(replies[0]));
      if c.ledger.queue[0].hasFn && d.flags.freeing then FreeNow(d) else ProcessCallbacks(d, replies[1..], end)
  }

  datatype Event =
    | Command(callback: Callback, cmd: seq<Byte>)
    | UserDisconnect
    | UserFree
    | ConnectDone
    | ConnectRefused
    | Read(replies: seq<Reply>, end: ReaderEnd)
    | ReadFailed
    | Wrote(n: nat)
    | WriteFailed

  /** The connect handler is told how connecting ended. */
  function Told(c: Context, status: Status): Context {
    if c.handlers.onConnect then c.(told := c.told.(greeted := Some(status))) else c
  }

  /** One call or event; nothing happens to a context that is gone. */
  function Step(c: Context, e: Event): Context {
    if c.fate != Live then c
    else match e
      case Command(cb, cmd) => AsyncCommand(c, cb, cmd)
      case UserDisconnect => AsyncDisconnect(c)
      case UserFree => AsyncFree(c)
      case ConnectDone => if c.flags.connected then c else Told(c, Ok).(flags := c.flags.(connected := true))
      case ConnectRefused => if c.flags.connected then c else Broken(Told(c, Err))
      case Read(replies, end) => if c.flags.connected then ProcessCallbacks(c, replies, end) else c
      case ReadFailed => if c.flags.connected then Broken(c) else c
      case Wrote(n) => if c.flags.connected && n <= |c.out.pending| then c.(out := Send(c.out, n)) else c
      case WriteFailed => if c.flags.connected then Broken(c) else c
  }

  function Run(c: Context, events: seq<Event>): Context
    decreases |events|
  {
    if |events| == 0 then c else Run(Step(c, events[0]), events[1..])
  }

  // ---------------------------------------------------------------- what every run keeps

  function Callbacks(served: seq<Service>): (r: seq<Callback>)
    ensures |r| == |served|
  {
    seq(|served|, k requires 0 <= k < |served| => served[k].callback)
  }

  /** The services whose callback has a function. */
  function WithFn(served: seq<Service>): seq<Service> {
    if |served| == 0 then []
    else
      var last := served[|served| - 1];
      WithFn(served[..|served| - 1]) + if last.callback.hasFn then [last] else []
  }

  /** Accepted callbacks leave the queue in order. */
  ghost predicate InOrder(l: Ledger) {
    Callbacks(l.served) + l.queue == CallbacksOf(l.accepted)
  }

  /** Replies go to the first callbacks, one each; later ones got NULL. */
  ghost predicate Matched(l: Ledger) {
    && |l.answers| <= |l.served|
    && (forall k :: 0 <= k < |l.answers| ==> l.served[k].outcome == Got(l.answers[k]))
    && (forall k :: |l.answers| <= k < |l.served| ==> l.served[k].outcome == Null)
  }

  /** ... and those taken off were called if they have a function. */
  ghost predicate Books(l: Ledger) {
    InOrder(l) && Matched(l) && l.invoked == WithFn(l.served)
  }

  /** ... and what was sent and what is still to be sent are the accepted commands, in order. */
  ghost predicate Kept(l: Ledger, o: Outbox) {
    Books(l) && o.written + o.pending == Commands(l.accepted)
  }

  /** The connect handler is told of a connection exactly when there is one. */
  predicate Greeted(c: Context) {
    && (c.told.greeted == Some(Ok) <==> c.handlers.onConnect && c.flags.connected)
    && (c.told.greeted.Some? ==> c.handlers.onConnect)
  }

  ghost predicate Inv(c: Context) {
    && Kept(c.ledger, c.out) && !c.flags.inCallback
    && (c.fate == Live ==> |c.ledger.served| == |c.ledger.answers| && !c.err && c.told.closed.None? && !c.flags.freeing)
    && (c.fate == Live ==> c.told.greeted != Some(Err)) && Greeted(c)
    && (c.fate == Freed ==>
          c.ledger.queue == [] && (c.told.closed.Some? <==> c.handlers.onDisconnect && c.flags.connected))
  }

  predicate SameHandlers(c: Context, d: Context) {
    d.handlers == c.handlers && d.told.greeted == c.told.greeted
  }

  lemma EnqueueKeeps(l: Ledger, o: Outbox, requests: seq<Request>)
    requires Kept(l, o)
    ensures Kept(Enqueue(l, requests), Buffer(o, Commands(requests)))
  {
    assert CallbacksOf(l.accepted + requests) == CallbacksOf(l.accepted) + CallbacksOf(requests);
    Regroup(Callbacks(l.served), l.queue, CallbacksOf(requests));
    CommandsMore(l.accepted, requests);
    Regroup(o.written, o.pending, Commands(requests));
  }

  lemma CommandKeeps(l: Ledger, o: Outbox, cb: Callback, cmd: seq<Byte>)
    requires Kept(l, o)
    ensures Kept(Enqueue(l, [Request(cb, cmd)]), Buffer(o, cmd))
  {
    hide Kept, Enqueue, Buffer;
    CommandsOne(Request(cb, cmd));
    EnqueueKeeps(l, o, [Request(cb, cmd)]);
  }

  lemma SendKeeps(l: Ledger, o: Outbox, n: nat)
    requires Kept(l, o) && n <= |o.pending|
    ensures Kept(l, Send(o, n))
  {
    assert o.pending == o.pending[..n] + o.pending[n..];
    Regroup(o.written, o.pending[..n], o.pending[n..]);
  }

  lemma ShiftInOrder(l: Ledger, outcome: Outcome)
    requires InOrder(l) && |l.queue| > 0
    ensures forall i :: InOrder(Shift(l, outcome).(invoked := i))
  {
    var m := Shift(l, outcome);
    assert Callbacks(m.served) == Callbacks(l.served) + [l.queue[0]];
    assert l.queue == [l.queue[0]] + m.queue;
    Regroup(Callbacks(l.served), [l.queue[0]], m.queue);
  }

  /** A reply goes to the next callback, NULL after all replies. */
  lemma ShiftMatched(l: Ledger, outcome: Outcome)
    requires Matched(l) && |l.queue| > 0 && (outcome.Got? ==> |l.served| == |l.answers|)
    ensures forall i :: Matched(Shift(l, outcome).(invoked := i))
  {
  }

  lemma WithFnLast(served: seq<Service>, last: Service)
    ensures WithFn(served + [last]) == WithFn(served) + if last.callback.hasFn then [last] else []
  {
    assert (served + [last])[..|served|] == served;
  }

  /** Taking the head off and calling it if it has a function keeps the books. */
  lemma ServeKeepsBooks(l: Ledger, outcome: Outcome)
    requires Books(l) && |l.queue| > 0 && (outcome.Got? ==> |l.served| == |l.answers|)
    ensures var cb, m := l.queue[0], Shift(l, outcome);
            Books(if cb.hasFn then m.(invoked := l.invoked + [Service(cb, outcome)]) else m)
  {
    hide InOrder, Matched, WithFn;
    ShiftInOrder(l, outcome);
    ShiftMatched(l, outcome);
    WithFnLast(l.served, Service(l.queue[0], outcome));
    var m := Shift(l, outcome);
    assert m == m.(invoked := l.invoked);
  }

  lemma ServeKeeps(c: Context, outcome: Outcome)
    requires Kept(c.ledger, c.out) && |c.ledger.queue| > 0 && !c.flags.inCallback
    requires outcome.Got? ==> |c.ledger.served| == |c.ledger.answers|
    ensures var d := Serve(c, outcome);
            && Kept(d.ledger, d.out) && d.fate == c.fate && d.err == c.err && d.told.closed == c.told.closed
            && d.flags.connected == c.flags.connected && SameHandlers(c, d) && !d.flags.inCallback
            && (Refusing(c) ==> Refusing(d) && |d.ledger.queue| == |c.ledger.queue| - 1)
            && (outcome.Got? ==> |d.ledger.served| == |d.ledger.answers|)
            && (!c.ledger.queue[0].hasFn ==> d.flags == c.flags)
  {
    hide Books, Buffer, Commands;
    ServeKeepsBooks(c.ledger, outcome);
    ServeQueues(c, outcome);
    var cb, s := c.ledger.queue[0], c.(ledger := Shift(c.ledger, outcome));
    if cb.hasFn {
      var e := Called(s, cb, outcome);
      ScriptQueues(e, cb.script);
      EnqueueKeeps(e.ledger, e.out, Issued(e, cb.script));
    }
  }

  lemma {:induction false} DrainKeeps(c: Context)
    requires Kept(c.ledger, c.out) && !c.flags.inCallback && (Refusing(c) || c.ledger.queue == [])
    ensures var d := Drain(c);
            && Kept(d.ledger, d.out) && !d.flags.inCallback && d.ledger.queue == [] && d.fate == c.fate
            && d.err == c.err && d.told.closed == c.told.closed
            && d.flags.connected == c.flags.connected && SameHandlers(c, d)
    decreases |c.ledger.queue|
  {
    hide Kept, Serve;
    if |c.ledger.queue| > 0 {
      ServeKeeps(c, Null);
      DrainKeeps(Serve(c, Null));
    }
  }

  lemma FreeNowKeeps(c: Context)
    requires Kept(c.ledger, c.out) && Greeted(c) && !c.flags.inCallback && c.told.closed.None?
    requires Refusing(c) || c.ledger.queue == []
    ensures Inv(FreeNow(c)) && FreeNow(c).fate == Freed
  {
    hide Kept, Drain;
    DrainKeeps(c);
  }

  lemma DisconnectNowKeeps(c: Context)
    requires Kept(c.ledger, c.out) && Greeted(c) && !c.flags.inCallback && c.told.closed.None?
    ensures Inv(DisconnectNow(c))
    ensures DisconnectNow(c).fate == if c.err || c.ledger.queue == [] then Freed else PendingAssertion
  {
    hide Kept, FreeNow;
    if c.err {
      FreeNowKeeps(Disconnecting(c));
    } else if |c.ledger.queue| == 0 {
      FreeNowKeeps(c);
    }
  }

  lemma {:induction false} ProcessKeeps(c: Context, replies: seq<Reply>, end: ReaderEnd)
    requires Inv(c) && c.fate == Live
    ensures Inv(ProcessCallbacks(c, replies, end))
    decreases |replies|
  {
    hide Kept, Serve, DisconnectNow, FreeNow;
    DisconnectNowKeeps(c.(err := true));
    if |replies| == 0 {
      DisconnectNowKeeps(c);
    } else if |c.ledger.queue| > 0 {
      ServeKeeps(c, Got(replies[0]));
      var d := Serve(c, Got(replies[0]));
      if c.ledger.queue[0].hasFn && d.flags.freeing {
        FreeNowKeeps(d);
      } else {
        ProcessKeeps(d, replies[1..], end);
      }
    }
  }

  lemma StepKeeps(c: Context, e: Event)
    requires Inv(c)
    ensures Inv(Step(c, e))
  {
    hide Kept, DisconnectNow, FreeNow, ProcessCallbacks;
    if c.fate == Live {
      DisconnectNowKeeps(c.(err := true));
      match e
      case Command(cb, cmd) => CommandKeeps(c.ledger, c.out, cb, cmd);
      case Wrote(n) => if n <= |c.out.pending| { SendKeeps(c.ledger, c.out, n); }
      case UserDisconnect => DisconnectNowKeeps(Disconnecting(c));
      case ConnectRefused => if !c.flags.connected { DisconnectNowKeeps(Told(c, Err).(err := true)); }
      case UserFree => FreeNowKeeps(Freeing(c));
      case Read(replies, end) => ProcessKeeps(c, replies, end);
      case _ =>
    }
  }

  lemma {:induction false} RunKeeps(c: Context, events: seq<Event>)
    requires Inv(c)
    ensures Inv(Run(c, events))
    decreases |events|
  {
    hide Inv, Step;
    if |events| > 0 {
      StepKeeps(c, events[0]);
      RunKeeps(Step(c, events[0]), events[1..]);
    }
  }

  // ---------------------------------------------------------------- the main result

  /**
    Main result.  In every run the k-th reply goes to the k-th accepted callback, and a
    run that ends with the context freed has taken every accepted callback off the queue
    once, in order, and called exactly those that have a function, with their reply or
    with NULL, whatever callbacks issue, disconnect or free on the way.  The bytes sent,
    and behind them those still to be sent, are the commands in the order of their
    callbacks, so that the k-th command the server meets is the k-th callback's.
   */
  lemma ExactlyOnceInOrder(handlers: Handlers, events: seq<Event>)
    ensures var c := Run(Fresh(handlers), events); var l := c.ledger;
            && |l.answers| <= |l.served| <= |l.accepted|
            && (forall k :: 0 <= k < |l.answers| ==>
                  l.served[k] == Service(l.accepted[k].callback, Got(l.answers[k])))
            && c.out.written + c.out.pending == Commands(l.accepted)
            && (forall k :: 0 <= k < |l.accepted| ==>
                  Commands(l.accepted[..k]) + l.accepted[k].cmd <= c.out.written + c.out.pending)
            && l.invoked == WithFn(l.served)
            && (c.told.greeted == Some(Ok) <==> c.handlers.onConnect && c.flags.connected)
            && (c.fate == Freed ==>
                  && |l.served| == |l.accepted|
                  && (forall k :: 0 <= k < |l.accepted| ==>
                        l.served[k] ==
                        Service(l.accepted[k].callback, if k < |l.answers| then Got(l.answers[k]) else Null))
                  && (c.told.closed.Some? <==> c.handlers.onDisconnect && c.flags.connected))
  {
    hide Run, Commands;
    assert Commands([]) == [] by { CommandsNone(); }
    RunKeeps(Fresh(handlers), events);
    var l := Run(Fresh(handlers), events).ledger;
    assert forall k :: 0 <= k < |l.served| ==> l.accepted[k].callback == Callbacks(l.served)[k];
    forall k | 0 <= k < |l.accepted|
      ensures Commands(l.accepted[..k]) + l.accepted[k].cmd <= Commands(l.accepted)
    {
      CommandsAt(l.accepted, k);
    }
  }

  /** Closing calls made inside a callback are exactly the actions of its script. */
  lemma PerformIsTheApi(c: Context)
    requires c.flags.inCallback
    ensures AsyncFree(c) == Perform(c, Free) && AsyncDisconnect(c) == Perform(c, Disconnect)
  {
  }

  // ---------------------------------------------------------------- what one event does

  predicate Frees(cb: Callback) { cb.hasFn && Free in cb.script }

  predicate AnyFrees(queue: seq<Callback>) { exists k :: 0 <= k < |queue| && Frees(queue[k]) }

  /** A script's closing actions leave their flags. */
  lemma {:induction false} ScriptCloses(c: Context, script: seq<Action>)
    ensures RunScript(c, script).flags.disconnecting <==> c.flags.disconnecting || Disconnect in script
    ensures RunScript(c, script).flags.freeing <==> c.flags.freeing || Free in script
    decreases |script|
  {
    if |script| > 0 {
      ScriptCloses(Perform(c, script[0]), script[1..]);
      assert forall a :: a in script <==> a == script[0] || a in script[1..];
    }
  }

  /** Its commands are accepted in the order written, up to the first closing action. */
  lemma {:induction false} ScriptIssues(c: Context, script: seq<Action>, k: nat)
    requires !Refusing(c) && k <= |script|
    requires (forall i :: 0 <= i < k ==> script[i].Issue?) && (k < |script| ==> !script[k].Issue?)
    ensures |Issued(c, script)| == k
    ensures forall i :: 0 <= i < k ==> Issued(c, script)[i] == Request(script[i].callback, script[i].cmd)
    decreases |script|
  {
    if |script| > 0 {
      var d, rest := Perform(c, script[0]), script[1..];
      if k > 0 {
        ScriptIssues(d, rest, k - 1);
      } else {
        ScriptQueues(d, rest);
      }
    }
  }

  /** Serving the head of the queue: freeing is asked for exactly if it was, or its function asks. */
  lemma ServeFrees(c: Context, outcome: Outcome)
    requires |c.ledger.queue| > 0
    ensures var d := Serve(c, outcome);
            && (d.flags.freeing <==> c.flags.freeing || Frees(c.ledger.queue[0]))
            && (d.flags.disconnecting <==>
                  c.flags.disconnecting || (c.ledger.queue[0].hasFn && Disconnect in c.ledger.queue[0].script))
            && d.ledger.answers == c.ledger.answers + (if outcome.Got? then [outcome.reply] else [])
            && (Refusing(c) ==> d.ledger.queue == c.ledger.queue[1..])
            && (Refusing(c) ==> d.ledger.accepted == c.ledger.accepted && d.out == c.out)
  {
    var cb, s := c.ledger.queue[0], c.(ledger := Shift(c.ledger, outcome));
    ScriptCloses(Called(s, cb, outcome), cb.script);
    ScriptQueues(Called(s, cb, outcome), cb.script);
    EnqueueNone(s.ledger);
    CommandsNone();
    BufferNone(s.out);
  }

  /** Freeing gives no more replies, and ends up asked for by any of the functions it calls. */
  lemma {:induction false} DrainFrees(c: Context)
    requires Refusing(c) || c.ledger.queue == []
    ensures var d := Drain(c);
            && (d.flags.freeing <==> c.flags.freeing || AnyFrees(c.ledger.queue))
            && d.ledger.answers == c.ledger.answers
            && d.ledger.accepted == c.ledger.accepted && d.out == c.out
    decreases |c.ledger.queue|
  {
    hide Serve;
    if |c.ledger.queue| > 0 {
      ServeQueues(c, Null);
      ServeFrees(c, Null);
      var d := Serve(c, Null);
      DrainFrees(d);
      assert forall k :: 0 <= k < |d.ledger.queue| ==> d.ledger.queue[k] == c.ledger.queue[k + 1];
      if k :| 0 <= k < |c.ledger.queue| && Frees(c.ledger.queue[k]) {
        assert k > 0 ==> Frees(d.ledger.queue[k - 1]);
      }
    }
  }

  /** Freed, with no command or reply more, and the disconnect handler told so if there was a connection. */
  predicate Gone(c: Context, d: Context, status: Status) {
    && d.fate == Freed && d.ledger.queue == [] && d.ledger.accepted == c.ledger.accepted && d.out == c.out
    && d.ledger.answers == c.ledger.answers
    && d.told.closed == if c.handlers.onDisconnect && c.flags.connected then Some(status) else None
  }

  lemma FreeNowOutcome(c: Context)
    requires Kept(c.ledger, c.out) && Greeted(c) && !c.flags.inCallback && c.told.closed.None?
    requires Refusing(c) || c.ledger.queue == []
    ensures Gone(c, FreeNow(c), if c.flags.freeing || !c.err || AnyFrees(c.ledger.queue)
                                then Ok else Err)
  {
    hide Kept, Drain;
    FreeNowKeeps(c);
    DrainKeeps(c);
    DrainFrees(c);
  }

  /**
    How the connection goes down.  After an error the disconnect handler hears of an error,
    unless one of the callbacks that got no reply frees the context on the way.
   */
  lemma BrokenOutcome(c: Context)
    requires Inv(c) && c.fate == Live
    ensures Gone(c, Broken(c), if AnyFrees(c.ledger.queue) then Ok else Err)
  {
    hide Kept, FreeNow;
    FreeNowOutcome(Disconnecting(c.(err := true)));
  }

  lemma FreeNowGreets(c: Context)
    requires Kept(c.ledger, c.out) && !c.flags.inCallback && (Refusing(c) || c.ledger.queue == [])
    ensures FreeNow(c).told.greeted == c.told.greeted
  {
    hide Kept, Drain;
    DrainKeeps(c);
  }

  /** What every call and event other than a read does. */
  lemma StepOutcome(c: Context, e: Event)
    requires Inv(c) && c.fate == Live && !e.Read?
    ensures var d := Step(c, e);
            match e
            case Command(cb, cmd) =>
              d == if c.flags.disconnecting then c
                   else c.(out := Outbox(c.out.written, c.out.pending + cmd),
                           ledger := c.ledger.(queue := c.ledger.queue + [cb],
                                               accepted := c.ledger.accepted + [Request(cb, cmd)]))
            case UserFree => Gone(c, d, Ok)
            case UserDisconnect =>
              if c.ledger.queue == [] then Gone(c, d, Ok)
              else d == c.(flags := Flags(c.flags.connected, true, false, false))
            case ConnectDone =>
              d == if c.flags.connected then c
                   else c.(flags := Flags(true, c.flags.disconnecting, false, false),
                           told := Notices(if c.handlers.onConnect then Some(Ok) else None, None))
            case ConnectRefused =>
              if c.flags.connected then d == c
              else Gone(c, d, Err) && d.told == Notices(if c.handlers.onConnect then Some(Err) else None, None)
            case Wrote(n) =>
              if !c.flags.connected || n > |c.out.pending| then d == c
              else && d == c.(out := d.out) && |d.out.pending| == |c.out.pending| - n
                   && d.out.written + d.out.pending == c.out.written + c.out.pending
            case _ =>
              if !c.flags.connected then d == c
              else Gone(c, d, if AnyFrees(c.ledger.queue) then Ok else Err)
  {
    hide Kept, FreeNow;
    match e
    case Command(cb, cmd) =>
      assert CallbacksOf([Request(cb, cmd)]) == [cb];
    case UserFree =>
      FreeNowOutcome(Freeing(c));
    case UserDisconnect =>
      if c.ledger.queue == [] { FreeNowOutcome(Disconnecting(c)); }
    case ConnectRefused =>
      if !c.flags.connected {
        var t := Told(c, Err).(err := true);
        FreeNowOutcome(Disconnecting(t));
        DrainKeeps(Disconnecting(t));
        FreeNowGreets(Disconnecting(t));
      }
    case Wrote(n) =>
      if n <= |c.out.pending| {
        assert c.out.pending == c.out.pending[..n] + c.out.pending[n..];
        Regroup(c.out.written, c.out.pending[..n], c.out.pending[n..]);
      }
    case ConnectDone =>
    case _ =>
      BrokenOutcome(c);
  }

  /** A read that brings no reply: a broken stream breaks the connection, an awaited disconnect is done. */
  lemma QuietReadOutcome(c: Context, end: ReaderEnd)
    requires Inv(c) && c.fate == Live && c.flags.connected
    ensures var d := Step(c, Read([], end));
            if end.BadStream? then
              Gone(c, d, if AnyFrees(c.ledger.queue) then Ok else Err)
            else if c.flags.disconnecting && c.out.pending == [] then
              if c.ledger.queue == [] then Gone(c, d, Ok) else d == c.(fate := PendingAssertion)
            else d == c
  {
    hide Kept, FreeNow;
    BrokenOutcome(c);
    if c.ledger.queue == [] {
      FreeNowOutcome(c);
    }
  }

  /** A reply nobody waits for: an error breaks the connection, any other stops at the assertion. */
  lemma StrayReplyOutcome(c: Context, replies: seq<Reply>, end: ReaderEnd)
    requires Inv(c) && c.fate == Live && c.flags.connected && c.ledger.queue == [] && |replies| > 0
    ensures var d := Step(c, Read(replies, end));
            if replies[0].Error? then Gone(c, d, Err) else d == c.(fate := StrayAssertion)
  {
    hide Kept, FreeNow;
    BrokenOutcome(c);
  }

  /** A callback that frees the context when given its reply gets the last one. */
  lemma FreeingReplyOutcome(c: Context, replies: seq<Reply>, end: ReaderEnd)
    requires Inv(c) && c.fate == Live && c.flags.connected && |replies| > 0
    requires |c.ledger.queue| > 0 && Frees(c.ledger.queue[0])
    ensures var d := Step(c, Read(replies, end));
            && d.fate == Freed && d.ledger.answers == c.ledger.answers + [replies[0]]
            && d.told.closed == if c.handlers.onDisconnect then Some(Ok) else None
  {
    hide Kept, FreeNow, Serve;
    ServeKeeps(c, Got(replies[0]));
    ServeFrees(c, Got(replies[0]));
    FreeNowOutcome(Serve(c, Got(replies[0])));
  }

  // ---------------------------------------------------------------- the clean disconnect

  /** The context once a read's replies are handed out, unless that already ends it. */
  function HandOut(c: Context, replies: seq<Reply>): Option<Context>
    decreases |replies|
  {
    if |replies| == 0 then Some(c)
    else if |c.ledger.queue| == 0 then None
    else
      var d := Serve(c, Got(replies[0]));
      if c.ledger.queue[0].hasFn && d.flags.freeing then None else HandOut(d, replies[1..])
  }

  /** Asked to disconnect, with everything written and callbacks still waiting. */
  predicate Hanging(c: Context) {
    c.flags.disconnecting && c.out.pending == [] && c.ledger.queue != []
  }

  lemma {:induction false} ProcessHangsIff(c: Context, replies: seq<Reply>, end: ReaderEnd)
    requires Inv(c) && c.fate == Live
    ensures ProcessCallbacks(c, replies, end).fate == PendingAssertion <==>
            end.NoMore? && var h := HandOut(c, replies); h.Some? && Hanging(h.value)
    decreases |replies|
  {
    hide Kept, Serve, DisconnectNow, FreeNow;
    DisconnectNowKeeps(c.(err := true));
    if |replies| == 0 {
      DisconnectNowKeeps(c);
    } else if |c.ledger.queue| > 0 {
      ServeKeeps(c, Got(replies[0]));
      var d := Serve(c, Got(replies[0]));
      if c.ledger.queue[0].hasFn && d.flags.freeing {
        FreeNowKeeps(d);
      } else {
        ProcessHangsIff(d, replies[1..], end);
      }
    }
  }

  /**
    A disconnect promises to wait for all remaining replies, and the clean disconnect
    asserts that none is missing.  Of all calls and events only a read can break the
    assertion, and it does exactly when it runs out of replies in a context that, once
    those were handed out without a callback freeing it, was asked to disconnect and has
    written everything while callbacks still wait.
   */
  lemma CleanDisconnectFailsIff(c: Context, e: Event)
    requires Inv(c) && c.fate == Live
    ensures Step(c, e).fate == PendingAssertion <==>
            && e.Read? && c.flags.connected && e.end.NoMore?
            && var h := HandOut(c, e.replies); h.Some? && Hanging(h.value)
  {
    hide Kept, DisconnectNow, FreeNow, ProcessCallbacks, HandOut, Hanging;
    DisconnectNowKeeps(c.(err := true));
    match e
    case UserDisconnect => DisconnectNowKeeps(Disconnecting(c));
    case ConnectRefused => if !c.flags.connected { DisconnectNowKeeps(Told(c, Err).(err := true)); }
    case UserFree => FreeNowKeeps(Freeing(c));
    case Read(replies, end) => ProcessHangsIff(c, replies, end);
    case _ =>
  }

  /** A callback that only issues commands, whose callbacks are like that too. */
  predicate Calm(cb: Callback) {
    forall a :: a in cb.script ==> a.Issue? && Calm(a.callback)
  }

  predicate CalmFront(queue: seq<Callback>, n: nat) {
    forall k :: 0 <= k < n && k < |queue| ==> Calm(queue[k])
  }

  lemma {:induction false} CalmScript(c: Context, script: seq<Action>)
    requires forall a :: a in script ==> a.Issue? && Calm(a.callback)
    ensures RunScript(c, script).flags == c.flags
    ensures Refusing(c) ==> RunScript(c, script).out.pending == c.out.pending
    ensures forall q :: q in Issued(c, script) ==> Calm(q.callback)
    decreases |script|
  {
    if |script| > 0 {
      assert script[0] in script;
      CalmScript(Perform(c, script[0]), script[1..]);
    }
  }

  /** Handing a reply to a calm callback closes nothing and queues calm callbacks only. */
  lemma CalmServe(c: Context, outcome: Outcome, n: nat)
    requires |c.ledger.queue| > 0 && CalmFront(c.ledger.queue, n + 1) && !c.flags.inCallback
    ensures var d := Serve(c, outcome);
            && d.flags == c.flags && CalmFront(d.ledger.queue, n)
            && (Refusing(c) ==> d.out.pending == c.out.pending)
  {
    var cb, s := c.ledger.queue[0], c.(ledger := Shift(c.ledger, outcome));
    assert Calm(cb);
    assert CalmFront(s.ledger.queue, n);
    if cb.hasFn {
      ScriptQueues(Called(s, cb, outcome), cb.script);
      CalmScript(Called(s, cb, outcome), cb.script);
    }
  }

  lemma {:induction false} CalmHandOut(c: Context, replies: seq<Reply>)
    requires Inv(c) && c.fate == Live && CalmFront(c.ledger.queue, |replies|)
    ensures var h := HandOut(c, replies);
            h.Some? && Hanging(h.value) <==>
            |replies| < |c.ledger.queue| && c.flags.disconnecting && c.out.pending == []
    decreases |replies|
  {
    hide Kept, Serve, CalmFront;
    if |replies| > 0 && |c.ledger.queue| > 0 {
      var d := Serve(c, Got(replies[0]));
      ServeKeeps(c, Got(replies[0]));
      CalmServe(c, Got(replies[0]), |replies| - 1);
      CalmHandOut(d, replies[1..]);
    }
  }

  /**
    While the callbacks that get a reply neither disconnect nor free, the failure can be
    foreseen: it takes a connection asked to disconnect, an empty output buffer, and fewer
    replies than waiting callbacks.
   */
  lemma CalmReadFailsIff(c: Context, replies: seq<Reply>)
    requires Inv(c) && c.fate == Live && c.flags.connected && CalmFront(c.ledger.queue, |replies|)
    ensures Step(c, Read(replies, NoMore)).fate == PendingAssertion <==>
            c.flags.disconnecting && c.out.pending == [] && |replies| < |c.ledger.queue|
  {
    CleanDisconnectFailsIff(c, Read(replies, NoMore));
    CalmHandOut(c, replies);
  }

  /**
    With everything written and a disconnect asked for, while the callbacks that get a
    reply are calm: as many replies as callbacks complete the disconnect, fewer hang, and
    the first one too many is a stray one.
   */
  lemma {:induction false} CalmDisconnectOutcome(c: Context, replies: seq<Reply>)
    requires Inv(c) && c.fate == Live && c.flags.connected && CalmFront(c.ledger.queue, |replies|)
    requires c.flags.disconnecting && c.out.pending == []
    ensures var d, n, q := Step(c, Read(replies, NoMore)), |replies|, |c.ledger.queue|;
            && d.fate == (if n < q then PendingAssertion
                          else if n == q || replies[q].Error? then Freed
                          else StrayAssertion)
            && d.ledger.answers == c.ledger.answers + replies[..if n < q then n else q]
            && (d.fate == Freed ==>
                  d.told.closed == if c.handlers.onDisconnect then Some(if n == q then Ok else Err) else None)
    decreases |replies|
  {
    hide Kept, Serve, CalmFront, FreeNow, DisconnectNow;
    if |replies| == 0 {
      QuietReadOutcome(c, NoMore);
      assert c.ledger.answers + replies[..0] == c.ledger.answers;
    } else if |c.ledger.queue| == 0 {
      StrayReplyOutcome(c, replies, NoMore);
      assert c.ledger.answers + replies[..0] == c.ledger.answers;
    } else {
      var got, rest := Got(replies[0]), replies[1..];
      ServeKeeps(c, got);
      ServeFrees(c, got);
      CalmServe(c, got, |rest|);
      var d, m := Serve(c, got), if |rest| < |c.ledger.queue| - 1 then |rest| else |c.ledger.queue| - 1;
      CalmDisconnectOutcome(d, rest);
      assert [replies[0]] + rest[..m] == replies[..m + 1];
      Regroup(c.ledger.answers, [replies[0]], rest[..m]);
    }
  }

  lemma RunFive(c: Context, a: Event, b: Event, d: Event, e: Event, f: Event)
    ensures Run(c, [a, b, d, e, f]) == Step(Step(Step(Step(Step(c, a), b), d), e), f)
  {
    hide Step;
    assert [a, b, d, e, f][1..] == [b, d, e, f];
    assert [b, d, e, f][1..] == [d, e, f];
    assert [d, e, f][1..] == [e, f];
    assert [e, f][1..] == [f];
    assert [f][1..] == [];
    var c2 := Step(Step(c, a), b);
    assert Run(c, [a, b, d, e, f]) == Run(c2, [d, e, f]);
    var c4 := Step(Step(c2, d), e);
    assert Run(c2, [d, e, f]) == Run(c4, [f]);
    assert Run(c4, [f]) == Run(Step(c4, f), []);
  }

  /** It happens: a command is sent, a disconnect is asked for, and the reply is still on its way. */
  lemma QuietReadFails(cb: Callback, cmd: seq<Byte>)
    ensures var events := [ConnectDone, Command(cb, cmd), UserDisconnect, Wrote(|cmd|), Read([], NoMore)];
            Run(Fresh(Handlers(true, true)), events).fate == PendingAssertion
  {
    var c1 := Step(Fresh(Handlers(true, true)), ConnectDone);
    var c2 := Step(c1, Command(cb, cmd));
    assert c2.out.pending == cmd && c2.ledger.queue == [cb];
    var c3 := Step(c2, UserDisconnect);
    var c4 := Step(c3, Wrote(|cmd|));
    assert c4.out.pending == [] && c4.ledger.queue == [cb] && c4.flags.disconnecting && !c4.err;
    var c5 := Step(c4, Read([], NoMore));
    assert c5.fate == PendingAssertion;
    RunFive(Fresh(Handlers(true, true)), ConnectDone, Command(cb, cmd), UserDisconnect, Wrote(|cmd|), Read([], NoMore));
  }

  lemma DisconnectScript(c: Context)
    ensures RunScript(c, [Disconnect]) == Disconnecting(c)
  {
    assert [Disconnect][1..] == [];
    assert RunScript(Disconnecting(c), []) == Disconnecting(c);
  }

  /** It also happens when the first of two callbacks asks for the disconnect itself. */
  lemma CallbackDisconnectFails(cb: Callback, cmd: seq<Byte>, r: Reply)
    ensures var first := Callback(true, [Disconnect]);
            var events := [ConnectDone, Command(first, cmd), Command(cb, cmd), Wrote(|cmd| + |cmd|), Read([r], NoMore)];
            Run(Fresh(Handlers(true, true)), events).fate == PendingAssertion
  {
    var first := Callback(true, [Disconnect]);
    var c1 := Step(Fresh(Handlers(true, true)), ConnectDone);
    var c2 := Step(c1, Command(first, cmd));
    var c3 := Step(c2, Command(cb, cmd));
    assert c3.out.pending == cmd + cmd && c3.ledger.queue == [first, cb];
    var c4 := Step(c3, Wrote(|cmd| + |cmd|));
    assert c4.out.pending == [] && c4.ledger.queue == [first, cb] && !c4.err;
    var d := Serve(c4, Got(r));
    DisconnectScript(Called(c4.(ledger := Shift(c4.ledger, Got(r))), first, Got(r)));
    assert d.flags.disconnecting && !d.flags.freeing && d.out.pending == [] && d.ledger.queue == [cb];
    assert [r][1..] == [];
    assert ProcessCallbacks(c4, [r], NoMore) == ProcessCallbacks(d, [], NoMore) == DisconnectNow(d);
    RunFive(Fresh(Handlers(true, true)),
            ConnectDone, Command(first, cmd), Command(cb, cmd), Wrote(|cmd| + |cmd|), Read([r], NoMore));
  }
}
