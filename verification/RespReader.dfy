/**
  The resumable reply reader: a byte buffer with a cursor and an explicit stack of nine
  read tasks that survives arbitrary cuts of the input.

  RespMachine is the reader on values, one function per step, and its two main results:
  the replies do not depend on how the stream is cut, and they are the ones the
  recursive-descent parser of RespGrammar reads.  RespReader is the class that updates
  its fields in place, each method proved equal to a step.
 */
module RespMachine {
  import opened Wrappers
  import opened RespGrammar

  // One slot of the task stack.  `kids` are the finished children of an open array.
  datatype Task = Task(kind: Option<Kind>, elements: int, idx: int, parent: int, kids: seq<Reply>)

  const ROOT: Task := Task(None, -1, -1, -1, [])

  // What the reader remembers: unread bytes, open tasks, a finished root reply, an error.
  datatype Config = Config(unread: seq<Byte>, stack: seq<Task>, reply: Option<Reply>, error: Option<ProtocolError>)

  const FRESH: Config := Config([], [ROOT], None, None)

  function Broken(e: ProtocolError): Config {
    Config([], [ROOT], None, Some(e))
  }

  /** `prv` is an array that still wants children and has finished those before `cur`. */
  predicate Below(prv: Task, cur: Task) {
    prv.kind == Some(KArray) && |prv.kids| == cur.idx && 0 <= cur.idx < prv.elements
  }

  /** Every slot but the last is the open array the next slot is a child of. */
  predicate Linked(st: seq<Task>): (b: bool)
    ensures b ==> |st| <= MAX_DEPTH + 1
  {
    && |st| <= MAX_DEPTH + 1
    && (|st| == 0 ||
        var last := |st| - 1;
        && st[last].parent == last - 1
        && if last == 0 then st[0].idx == -1 else Linked(st[..last]) && Below(st[last - 1], st[last]))
  }

  /** Slot by slot: the parent is the slot before, an open array with this child still to come. */
  lemma {:induction false} LinkedSlots(st: seq<Task>)
    ensures Linked(st) <==>
            && |st| <= MAX_DEPTH + 1 && (|st| > 0 ==> st[0].idx == -1)
            && forall i :: 0 <= i < |st| ==> st[i].parent == i - 1 && (i > 0 ==> Below(st[i - 1], st[i]))
  {
    if |st| > 1 {
      var front := st[..|st| - 1];
      LinkedSlots(front);
      hide Below;
      assert forall i :: 0 <= i < |front| ==> front[i] == st[i];
      if Linked(st) {
        forall i | 0 <= i < |st| ensures st[i].parent == i - 1 && (i > 0 ==> Below(st[i - 1], st[i])) {
          if i < |front| {
            assert front[i] == st[i];
            if i > 0 {
              assert front[i - 1] == st[i - 1];
            }
          }
        }
      }
    }
  }

  ghost predicate ValidStack(st: seq<Task>) {
    && Linked(st)
    && (|st| > 0 ==>
          var top := st[|st| - 1];
          top.kids == [] && top.elements == -1 && (|st| > MAX_DEPTH ==> top.kind != Some(KArray)))
  }

  /** The invariant between items. */
  ghost predicate Valid(c: Config) {
    && ValidStack(c.stack)
    && (c.stack == [] <==> c.reply.Some?)
    && (c.error.Some? ==> c == Broken(c.error.value))
  }

  // ---------------------------------------------------------------- one step

  datatype Completed = Completed(stack: seq<Task>, root: Option<Reply>)

  /** The top task is finished with reply `r`: hand it down, closing arrays that are full. */
  function Complete(st: seq<Task>, r: Reply): Completed
    requires |st| > 0
  {
    var last := |st| - 1;
    if last == 0 then Completed([], Some(r))
    else
      var prv := st[last - 1].(kids := st[last - 1].kids + [r]);
      if st[last].idx == prv.elements - 1 then Complete(st[..last], Arr(prv.kids))
      else Completed(st[..last - 1] + [prv, Task(None, -1, st[last].idx + 1, st[last].parent, [])], None)
  }

  /** The links do not depend on what the top task has read so far. */
  lemma RetopLinked(st: seq<Task>, t: Task)
    requires |st| > 0 && Linked(st)
    requires t.parent == st[|st| - 1].parent && t.idx == st[|st| - 1].idx
    ensures Linked(st[|st| - 1 := t])
  {
    assert st[|st| - 1 := t][..|st| - 1] == st[..|st| - 1];
  }

  lemma {:induction false} CompleteValid(st: seq<Task>, r: Reply)
    requires |st| > 0 && Linked(st)
    ensures var c := Complete(st, r);
            ValidStack(c.stack) && (c.stack == [] <==> c.root.Some?)
            && (c.stack != [] ==> c.stack[|c.stack| - 1].kind.None?)
  {
    var last := |st| - 1;
    if last > 0 {
      if st[last].idx == st[last - 1].elements - 1 {
        CompleteValid(st[..last], Arr(st[last - 1].kids + [r]));
      } else {
        RetopLinked(st[..last], st[last - 1].(kids := st[last - 1].kids + [r]));
        assert Complete(st, r).stack[..last] == st[..last][last - 1 := st[last - 1].(kids := st[last - 1].kids + [r])];
      }
    }
  }

  function Push(st: seq<Task>, n: nat): seq<Task>
    requires |st| > 0
  {
    var last := |st| - 1;
    st[last := st[last].(elements := n)] + [Task(None, -1, 0, last, [])]
  }

  datatype Stepped = Stepped(config: Config, ok: bool)

  /** The item of the top task, whose kind is `k`, is read from `c.unread`. */
  function StepBody(c: Config, k: Kind): Stepped
    requires |c.stack| > 0
  {
    var last := |c.stack| - 1;
    var st := c.stack[last := c.stack[last].(kind := Some(k))];
    match ReadItem(k, c.unread, last)
    case Wait => Stepped(c.(stack := st), false)
    case Fail(e) => Stepped(Broken(e), false)
    case Leaf(r, rest) =>
      var done := Complete(st, r);
      Stepped(Config(rest, done.stack, done.root, None), true)
    case Open(n, rest) => Stepped(Config(rest, Push(st, n), None, None), true)
  }

  /** One item; the type byte is consumed even when the rest of the item is missing. */
  function Step(c: Config): Stepped
    requires |c.stack| > 0
  {
    match c.stack[|c.stack| - 1].kind
    case Some(k) => StepBody(c, k)
    case None =>
      if |c.unread| == 0 then Stepped(c, false)
      else match KindOf(c.unread[0])
        case None => Stepped(Broken(BadTypeByte(c.unread[0])), false)
        case Some(k) => StepBody(c.(unread := c.unread[1..]), k)
  }

  /** What a step does, by what the item turns out to be. */
  lemma StepBodyIs(c: Config, k: Kind)
    requires |c.stack| > 0 && c.stack[|c.stack| - 1].kind == Some(k)
    ensures match ReadItem(k, c.unread, |c.stack| - 1)
            case Wait => StepBody(c, k) == Stepped(c, false)
            case Fail(e) => StepBody(c, k) == Stepped(Broken(e), false)
            case Leaf(r, rest) =>
              StepBody(c, k) == Stepped(Config(rest, Complete(c.stack, r).stack, Complete(c.stack, r).root, None), true)
            case Open(n, rest) => StepBody(c, k) == Stepped(Config(rest, Push(c.stack, n), None, None), true)
  {
    hide Complete, ReadItem;
    var last := |c.stack| - 1;
    assert c.stack[last := c.stack[last].(kind := Some(k))] == c.stack;
  }

  lemma PushValid(st: seq<Task>, n: nat)
    requires ValidStack(st) && 0 < |st| <= MAX_DEPTH && n > 0 && st[|st| - 1].kind == Some(KArray)
    ensures Push(st, n) != [] && ValidStack(Push(st, n))
  {
    var last := |st| - 1;
    var top := st[last].(elements := n);
    RetopLinked(st, top);
    assert Push(st, n)[..last + 1] == st[last := top];
  }

  lemma StepBodyValid(c: Config, k: Kind)
    requires Valid(c) && c.error.None? && c.stack != []
    ensures var s := StepBody(c, k);
            && Valid(s.config)
            && (s.ok ==> s.config.error.None? && |s.config.unread| + 2 <= |c.unread|)
            && (s.config.error.None? && !s.ok ==> s.config.stack != [])
  {
    hide Complete, Push, FindCrlf, ReadLongLong;
    var last := |c.stack| - 1;
    var top := c.stack[last].(kind := Some(k));
    var st := c.stack[last := top];
    RetopLinked(c.stack, top);
    match ReadItem(k, c.unread, last)
    case Leaf(r, rest) => CompleteValid(st, r);
    case Open(n, rest) => PushValid(st, n);
    case _ =>
  }

  /** A step keeps the invariant, and a successful one consumes at least two bytes. */
  lemma StepValid(c: Config)
    requires Valid(c) && c.error.None? && c.stack != []
    ensures var s := Step(c);
            && Valid(s.config)
            && (s.ok ==> s.config.error.None? && |s.config.unread| + 2 <= |c.unread|)
            && (s.config.error.None? && !s.ok ==> s.config.stack != [])
  {
    match c.stack[|c.stack| - 1].kind
    case Some(k) => StepBodyValid(c, k);
    case None =>
      if |c.unread| > 0 && KindOf(c.unread[0]).Some? {
        StepBodyValid(c.(unread := c.unread[1..]), KindOf(c.unread[0]).value);
      }
  }

  // ---------------------------------------------------------------- the API

  /** Items are read until a reply is finished, bytes run out, or an error is set. */
  function Loop(c: Config): (r: Config)
    requires Valid(c)
    ensures Valid(r) && |r.unread| <= |c.unread|
    ensures c.error.None? && c.stack != [] && r.stack == [] ==> |r.unread| < |c.unread|
    decreases |c.unread|
  {
    if c.error.Some? || c.stack == [] then c
    else
      StepValid(c);
      var s := Step(c);
      if s.ok then Loop(s.config) else s.config
  }

  function Feed(c: Config, chunk: seq<Byte>): (r: Config)
    requires Valid(c)
    ensures Valid(r)
  {
    if c.error.Some? then c else c.(unread := c.unread + chunk)
  }

  /** With nothing to read there is no reply, whatever the open tasks are. */
  lemma NothingToRead(c: Config)
    requires Idle(c) && c.error.None? && c.unread == []
    ensures Get(c) == Got(c, None)
  {
    var last := |c.stack| - 1;
    if c.stack[last].kind.Some? {
      assert c.stack[last := c.stack[last].(kind := c.stack[last].kind)] == c.stack;
    }
  }

  function AsSeq(r: Option<Reply>): seq<Reply> {
    if r.Some? then [r.value] else []
  }

  datatype Got = Got(config: Config, reply: Option<Reply>)

  /** Between calls the stack is never empty: a finished reader waits at a fresh root. */
  ghost predicate Idle(c: Config) {
    Valid(c) && c.stack != []
  }

  lemma IdleMeans(c: Config)
    requires Idle(c)
    ensures Valid(c) && c.stack != []
  {
  }

  lemma TopHasNoKids(c: Config)
    requires Idle(c)
    ensures c.stack != [] && c.stack[|c.stack| - 1].kids == []
  {
    hide Linked;
  }

  /** Reads on and hands out at most one reply. */
  function Get(c: Config): (g: Got)
    requires Idle(c)
    ensures Idle(g.config)
    ensures g.reply.Some? ==> |g.config.unread| < |c.unread|
  {
    var l := Loop(c);
    if l.stack == [] then Got(l.(stack := [ROOT], reply := None), l.reply) else Got(l, None)
  }

  /** All replies the unread bytes hold, handed out one call at a time. */
  function Drain(c: Config): Transcript
    requires Idle(c)
    decreases |c.unread|
  {
    var g := Get(c);
    if g.reply.None? then Transcript([], g.config.error)
    else
      var tail := Drain(g.config);
      Transcript([g.reply.value] + tail.replies, tail.error)
  }

  // ---------------------------------------------------------------- cuts do not matter

  /** A step that succeeded or failed does the same with more bytes behind it. */
  lemma StepFeed(c: Config, t: seq<Byte>)
    requires Idle(c) && c.error.None?
    ensures var s, f := Step(c), Step(Feed(c, t));
            && (s.ok ==> f == Stepped(s.config.(unread := s.config.unread + t), true))
            && (s.config.error.Some? ==> f == s)
  {
    hide Linked, Complete, Push, ReadItem;
    var last := |c.stack| - 1;
    match c.stack[last].kind
    case Some(k) => ReadItemAppend(k, c.unread, t, last);
    case None =>
      if |c.unread| > 0 && KindOf(c.unread[0]).Some? {
        assert (c.unread + t)[1..] == c.unread[1..] + t;
        ReadItemAppend(KindOf(c.unread[0]).value, c.unread[1..], t, last);
      }
  }

  lemma StepBodyAgain(c: Config, k: Kind)
    requires |c.stack| > 0
    ensures var last := |c.stack| - 1;
            StepBody(c.(stack := c.stack[last := c.stack[last].(kind := Some(k))]), k) == StepBody(c, k)
  {
    hide Complete, Push, ReadItem;
    var last := |c.stack| - 1;
    var st := c.stack[last := c.stack[last].(kind := Some(k))];
    assert st[last := st[last].(kind := Some(k))] == st;
  }

  lemma TypeByteResumes(c: Config, k: Kind, t: seq<Byte>)
    requires |c.stack| > 0 && c.stack[|c.stack| - 1].kind.None? && c.error.None?
    requires |c.unread| > 0 && KindOf(c.unread[0]) == Some(k)
    ensures var last := |c.stack| - 1;
            var read := c.(unread := c.unread[1..] + t, stack := c.stack[last := c.stack[last].(kind := Some(k))]);
            Step(read) == Step(c.(unread := c.unread + t))
  {
    hide StepBody;
    assert (c.unread + t)[1..] == c.unread[1..] + t;
    StepBodyAgain(c.(unread := c.unread[1..] + t), k);
  }

  /** A step that waits has read the type byte at most. */
  lemma StepWaits(c: Config)
    requires Idle(c) && c.error.None? && !Step(c).ok && Step(c).config.error.None?
    ensures var last := |c.stack| - 1;
            if c.stack[last].kind.None? && |c.unread| > 0
            then KindOf(c.unread[0]).Some?
                 && Step(c).config == c.(unread := c.unread[1..],
                                         stack := c.stack[last := c.stack[last].(kind := KindOf(c.unread[0]))])
            else Step(c).config == c
  {
    hide Linked, Complete, ReadItem, Push;
    var last := |c.stack| - 1;
    if c.stack[last].kind.Some? {
      assert c.stack[last := c.stack[last].(kind := c.stack[last].kind)] == c.stack;
    }
  }

  /** A step that waits may be taken before or after the next bytes arrive. */
  lemma StepResumes(c: Config, t: seq<Byte>)
    requires Idle(c) && c.error.None?
    requires !Step(c).ok && Step(c).config.error.None?
    ensures Idle(Step(c).config)
    ensures Step(Feed(Step(c).config, t)) == Step(Feed(c, t))
  {
    hide Valid, Step;
    IdleMeans(c);
    StepValid(c);
    StepWaits(c);
    if c.stack[|c.stack| - 1].kind.None? && |c.unread| > 0 {
      TypeByteResumes(c, KindOf(c.unread[0]).value, t);
    }
  }

  lemma {:induction false} LoopFeed(c: Config, t: seq<Byte>)
    requires Idle(c) && c.error.None?
    ensures var l, f := Loop(c), Loop(Feed(c, t));
            if l.error.Some? then f == l
            else if l.stack == [] then f == Feed(l, t)
            else f == Loop(Feed(l, t))
    decreases |c.unread|
  {
    StepValid(c);
    StepValid(Feed(c, t));
    var s := Step(c);
    StepFeed(c, t);
    if s.ok {
      if s.config.stack != [] {
        LoopFeed(s.config, t);
      }
    } else if s.config.error.None? {
      StepResumes(c, t);
      StepValid(Feed(s.config, t));
    }
  }

  /** Asking for a reply now or after more bytes came in gives the same replies in the end. */
  lemma GetFeed(c: Config, t: seq<Byte>)
    requires Idle(c)
    ensures var g := Get(c); var d := Drain(Feed(g.config, t));
            Drain(Feed(c, t)) == Transcript(AsSeq(g.reply) + d.replies, d.error)
  {
    hide Linked, Step;
    if c.error.None? {
      LoopFeed(c, t);
    }
  }

  datatype Op = Chunk(bytes: seq<Byte>) | Ask

  datatype Session = Session(config: Config, replies: seq<Reply>)

  /** A caller's session: any interleaving of feeding chunks and asking for a reply. */
  function Run(c: Config, ops: seq<Op>): (r: Session)
    requires Idle(c)
    ensures Idle(r.config)
    decreases |ops|
  {
    if |ops| == 0 then Session(c, [])
    else match ops[0]
      case Chunk(b) => Run(Feed(c, b), ops[1..])
      case Ask =>
        var g := Get(c);
        var tail := Run(g.config, ops[1..]);
        Session(tail.config, AsSeq(g.reply) + tail.replies)
  }

  function Stream(ops: seq<Op>): seq<Byte> {
    if |ops| == 0 then []
    else match ops[0]
      case Chunk(b) => b + Stream(ops[1..])
      case Ask => Stream(ops[1..])
  }

  lemma FeedFeed(c: Config, b: seq<Byte>, t: seq<Byte>)
    requires Valid(c)
    ensures Feed(Feed(c, b), t) == Feed(c, b + t)
    ensures Feed(c, []) == c
  {
    assert c.unread + b + t == c.unread + (b + t);
    assert c.unread + [] == c.unread;
  }

  lemma {:induction false} RunDrains(c: Config, ops: seq<Op>)
    requires Idle(c)
    ensures var r := Run(c, ops); var d := Drain(r.config);
            Drain(Feed(c, Stream(ops))) == Transcript(r.replies + d.replies, d.error)
    decreases |ops|
  {
    if |ops| == 0 {
      FeedFeed(c, [], []);
      assert [] + Drain(c).replies == Drain(c).replies;
    } else if ops[0].Chunk? {
      FeedFeed(c, ops[0].bytes, Stream(ops[1..]));
      RunDrains(Feed(c, ops[0].bytes), ops[1..]);
    } else {
      var g := Get(c);
      GetFeed(c, Stream(ops[1..]));
      RunDrains(g.config, ops[1..]);
      var tail := Run(g.config, ops[1..]);
      Regroup(AsSeq(g.reply), tail.replies, Drain(tail.config).replies);
    }
  }

  // ---------------------------------------------------------------- the stack is recursion

  /** Handing a reply down looks at the top slot's place only, not at what it has read. */
  lemma CompleteIgnoresTop(st: seq<Task>, t: Task, r: Reply)
    requires |st| > 0 && t.parent == st[|st| - 1].parent && t.idx == st[|st| - 1].idx
    ensures Complete(st[|st| - 1 := t], r) == Complete(st, r)
  {
    var last := |st| - 1;
    var st' := st[last := t];
    assert st'[..last] == st[..last];
    if last > 0 {
      assert st'[last - 1] == st[last - 1];
      assert st'[..last - 1] == st[..last - 1];
    }
  }

  /** The reader right after a reply `r` was read at the top of `st`. */
  function After(st: seq<Task>, r: Reply, rest: seq<Byte>): (c: Config)
    requires |st| > 0
    ensures c.unread == rest
  {
    var done := Complete(st, r);
    Config(rest, done.stack, done.root, None)
  }

  /** A step that does not succeed ends the loop. */
  lemma LoopStops(c: Config)
    requires Idle(c) && c.error.None? && !Step(c).ok
    ensures Loop(c) == Step(c).config && (Loop(c).error.None? ==> Loop(c).stack != [])
  {
    StepValid(c);
  }

  lemma StepLeaf(c: Config, k: Kind, r: Reply, rest: seq<Byte>)
    requires |c.stack| > 0 && c.stack[|c.stack| - 1].kind.None? && |c.unread| > 0 && KindOf(c.unread[0]) == Some(k)
    requires ReadItem(k, c.unread[1..], |c.stack| - 1) == Leaf(r, rest)
    ensures Step(c) == Stepped(After(c.stack, r, rest), true)
  {
    hide Complete, ReadItem, Push;
    var last := |c.stack| - 1;
    CompleteIgnoresTop(c.stack, c.stack[last].(kind := Some(k)), r);
  }

  /** A leaf at a fresh slot: one step, then the rest of the loop. */
  lemma LoopLeaf(c: Config, k: Kind, r: Reply, rest: seq<Byte>)
    requires Idle(c) && c.error.None? && c.stack[|c.stack| - 1].kind.None?
    requires |c.unread| > 0 && KindOf(c.unread[0]) == Some(k)
    requires ReadItem(k, c.unread[1..], |c.stack| - 1) == Leaf(r, rest)
    ensures Valid(After(c.stack, r, rest)) && Loop(c) == Loop(After(c.stack, r, rest))
  {
    hide Linked, Step, After;
    StepLeaf(c, k, r, rest);
    StepValid(c);
  }

  /** The reader right after an array header announced `n` children at the top of `st`. */
  function Opened(st: seq<Task>, n: nat, rest: seq<Byte>): Config
    requires |st| > 0
  {
    var last := |st| - 1;
    Config(rest, Push(st[last := st[last].(kind := Some(KArray))], n), None, None)
  }

  lemma StepOpen(c: Config, n: nat, rest: seq<Byte>)
    requires |c.stack| > 0 && c.stack[|c.stack| - 1].kind.None?
    requires |c.unread| > 0 && KindOf(c.unread[0]) == Some(KArray)
    requires ReadItem(KArray, c.unread[1..], |c.stack| - 1) == Open(n, rest)
    ensures Step(c) == Stepped(Opened(c.stack, n, rest), true)
  {
    hide Complete, ReadItem, Push;
  }

  lemma LoopOpen(c: Config, n: nat, rest: seq<Byte>)
    requires Idle(c) && c.error.None? && c.stack[|c.stack| - 1].kind.None?
    requires |c.unread| > 0 && KindOf(c.unread[0]) == Some(KArray)
    requires ReadItem(KArray, c.unread[1..], |c.stack| - 1) == Open(n, rest)
    ensures var c' := Opened(c.stack, n, rest);
            && Idle(c') && Loop(c) == Loop(c')
            && |c'.stack| == |c.stack| + 1 && c'.stack[|c.stack|].kind.None?
            && c'.stack[|c.stack| - 1].kids == []
            && c'.stack[|c.stack| - 1].elements - c'.stack[|c.stack|].idx == n
  {
    hide Step, Linked, ReadItem;
    StepOpen(c, n, rest);
    StepValid(c);
    TopHasNoKids(c);
  }

  lemma AfterIgnoresOpening(st: seq<Task>, n: nat, rest: seq<Byte>, r: Reply, rest': seq<Byte>)
    requires |st| > 0
    ensures After(Opened(st, n, rest).stack[..|st|], r, rest') == After(st, r, rest')
  {
    var last := |st| - 1;
    var top := st[last].(kind := Some(KArray), elements := n);
    assert Opened(st, n, rest).stack[..|st|] == st[last := top];
    CompleteIgnoresTop(st, top, r);
  }

  /** Reading whole items with the stack is reading one whole reply by recursive descent. */
  lemma {:induction false} LoopParses(c: Config)
    requires Idle(c) && c.error.None? && c.stack[|c.stack| - 1].kind.None?
    ensures match ParseReply(c.unread, |c.stack| - 1)
            case Parsed(r, rest) => Valid(After(c.stack, r, rest)) && Loop(c) == Loop(After(c.stack, r, rest))
            case More => Loop(c).error.None? && Loop(c).stack != []
            case Bad(e) => Loop(c) == Broken(e)
    decreases |c.unread|, 0
  {
    hide Linked, Complete, ReadItem, Loop, Push;
    var last := |c.stack| - 1;
    if |c.unread| > 0 && KindOf(c.unread[0]).Some? {
      var k := KindOf(c.unread[0]).value;
      assert ParseReply(c.unread, last) == ParseBody(k, c.unread[1..], last);
      match ReadItem(k, c.unread[1..], last)
      case Leaf(r, rest) => LoopLeaf(c, k, r, rest);
      case Open(n, rest) =>
        LoopOpen(c, n, rest);
        LoopParsesMany(Opened(c.stack, n, rest), n);
        var p := ParseMany(n, rest, last + 1, []);
        if p.Parsed? {
          AfterIgnoresOpening(c.stack, n, rest, p.reply, p.rest);
        }
      case _ => LoopStops(c);
    } else {
      LoopStops(c);
    }
  }

  /** A child that is not the last one leaves a fresh slot for the next. */
  lemma AfterChild(st: seq<Task>, r: Reply, rest: seq<Byte>)
    requires |st| > 1 && ValidStack(st) && st[|st| - 1].idx < st[|st| - 2].elements - 1
    ensures var last := |st| - 1; var c := After(st, r, rest);
            && Idle(c) && c.error.None? && |c.stack| == |st| && c.stack[last].kind.None?
            && c.stack[last - 1].kids == st[last - 1].kids + [r]
            && c.stack[last - 1].elements == st[last - 1].elements && c.stack[last].idx == st[last].idx + 1
            && forall a, rest' :: After(c.stack[..last], a, rest') == After(st[..last], a, rest')
  {
    CompleteValid(st, r);
    var last, c := |st| - 1, After(st, r, rest);
    var prv := st[last - 1].(kids := st[last - 1].kids + [r]);
    forall a, rest' ensures After(c.stack[..last], a, rest') == After(st[..last], a, rest') {
      assert c.stack[..last] == st[..last][last - 1 := prv];
      CompleteIgnoresTop(st[..last], prv, a);
    }
  }

  /** An open array wants at least the child at hand. */
  lemma ChildWanted(st: seq<Task>)
    requires ValidStack(st) && |st| > 1
    ensures st[|st| - 1].idx < st[|st| - 2].elements
  {
  }

  /** The last child finishes its array. */
  lemma AfterLastChild(st: seq<Task>, r: Reply, rest: seq<Byte>)
    requires |st| > 1 && st[|st| - 1].idx == st[|st| - 2].elements - 1
    ensures After(st, r, rest) == After(st[..|st| - 1], Arr(st[|st| - 2].kids + [r]), rest)
  {
  }

  lemma ParseManyFirst(n: nat, s: seq<Byte>, depth: nat, done: seq<Reply>)
    requires n > 0 && depth <= MAX_DEPTH
    ensures ParseMany(n, s, depth, done) ==
            match ParseReply(s, depth)
            case Parsed(r, rest) =>
              if n == 1 then Parsed(Arr(done + [r]), rest) else ParseMany(n - 1, rest, depth, done + [r])
            case More => More
            case Bad(e) => Bad(e)
  {
    hide ParseReply;
    match ParseReply(s, depth)
    case Parsed(r, rest) => assert n == 1 ==> ParseMany(0, rest, depth, done + [r]) == Parsed(Arr(done + [r]), rest);
    case _ =>
  }

  /** ... and reading the `n` children an array still wants is one ParseMany. */
  lemma {:induction false} LoopParsesMany(c: Config, n: nat)
    requires Idle(c) && c.error.None? && |c.stack| > 1 && c.stack[|c.stack| - 1].kind.None?
    requires n == c.stack[|c.stack| - 2].elements - c.stack[|c.stack| - 1].idx
    ensures var last := |c.stack| - 1;
            match ParseMany(n, c.unread, last, c.stack[last - 1].kids)
            case Parsed(r, rest) =>
              Valid(After(c.stack[..last], r, rest)) && Loop(c) == Loop(After(c.stack[..last], r, rest))
            case More => Loop(c).error.None? && Loop(c).stack != []
            case Bad(e) => Loop(c) == Broken(e)
    decreases |c.unread|, 1
  {
    hide Linked, After, ParseReply, ParseMany, Loop;
    var last := |c.stack| - 1;
    ChildWanted(c.stack);
    ParseManyFirst(n, c.unread, last, c.stack[last - 1].kids);
    LoopParses(c);
    match ParseReply(c.unread, last)
    case Parsed(r, rest) =>
      if n > 1 {
        AfterChild(c.stack, r, rest);
        LoopParsesMany(After(c.stack, r, rest), n - 1);
      } else {
        AfterLastChild(c.stack, r, rest);
      }
    case _ =>
  }

  /** A reader given a whole stream hands out what recursive descent reads from it. */
  lemma {:induction false} DrainParsesAll(s: seq<Byte>)
    ensures Drain(Config(s, [ROOT], None, None)) == ParseAll(s)
    decreases |s|
  {
    var c := Config(s, [ROOT], None, None);
    LoopParses(c);
    match ParseReply(s, 0)
    case Parsed(r, rest) => DrainParsesAll(rest);
    case _ =>
  }

  /**
    Main result: however a stream is cut and however often the caller asks in between,
    the replies handed out, followed by those still to come, are exactly the replies
    recursive descent reads from the whole stream, with the same error at the same place.
   */
  lemma ReaderIgnoresCuts(ops: seq<Op>)
    ensures var r := Run(FRESH, ops); var d := Drain(r.config);
            ParseAll(Stream(ops)) == Transcript(r.replies + d.replies, d.error)
  {
    RunDrains(FRESH, ops);
    assert [] + Stream(ops) == Stream(ops);
    DrainParsesAll(Stream(ops));
  }

  /** Printed replies, cut anywhere, come back in order; none is lost, changed or repeated. */
  lemma ReaderInvertsPrinter(rs: seq<Reply>, ops: seq<Op>)
    requires forall r :: r in rs ==> WellFormed(r) && Depth(r) <= MAX_DEPTH
    requires Stream(ops) == EncodeAll(rs)
    ensures var r := Run(FRESH, ops); r.replies + Drain(r.config).replies == rs && r.config.error.None?
  {
    ReaderIgnoresCuts(ops);
    ParseAllInvertsEncodeAll(rs);
  }
}

/** The reader as the library keeps it: fields updated in place. */
module RespReader {
  import opened Wrappers
  import opened RespGrammar
  import opened RespMachine

  /** The buffer is followed by a zero byte, which the scan may look at. */
  function At(s: seq<Byte>, i: nat): Byte
    requires i <= |s|
  {
    if i == |s| then 0 else s[i]
  }

  method SeekNewline(s: seq<Byte>) returns (r: Option<nat>)
    ensures r == FindCrlf(s)
  {
    var pos: nat := 0;
    var len := |s| - 1;
    while pos < len
      invariant forall j: nat :: j < pos ==> !CrlfAt(s, j)
    {
      while pos < len && s[pos] != CR
        invariant pos <= len
        invariant forall j: nat :: j < pos ==> !CrlfAt(s, j)
      {
        pos := pos + 1;
      }
      if s[pos] != CR {
        return None;
      } else if At(s, pos + 1) == LF {
        FindCrlfAt(s, pos);
        return Some(pos);
      } else {
        pos := pos + 1;
      }
    }
    return None;
  }

  method ScanLongLong(s: seq<Byte>) returns (v: int)
    requires CR in s
    ensures v == ReadLongLong(s)
  {
    v := 0;
    var i, mult := 0, 1;
    if s[0] == MINUS {
      i, mult := 1, -1;
    } else if s[0] == PLUS {
      i := 1;
    }
    while s[i] != CR
      invariant i < |s| && CR in s[i..]
      invariant ReadDigits(s[i..], v, mult) == ReadLongLong(s)
      decreases |s| - i
    {
      var dec := s[i] - ZERO;
      i := i + 1;
      assert s[i..] == s[i - 1..][1..];
      if 0 <= dec < 10 {
        v := v * 10 + dec;
      } else {
        return -1;
      }
    }
    return mult * v;
  }

  /** One round of handing a reply down: the root is done, an array is full, or its next child is due. */
  lemma CompleteStep(st: seq<Task>, done: Reply)
    requires |st| > 0 && Linked(st)
    ensures var last := |st| - 1;
            if last == 0 then Complete(st, done) == Completed([], Some(done))
            else
              var prv := st[last - 1].(kids := st[last - 1].kids + [done]);
              && prv.kind == Some(KArray) && st[last].idx < prv.elements
              && if st[last].idx == prv.elements - 1
                 then Linked(st[..last][last - 1 := prv])
                      && Complete(st[..last][last - 1 := prv], Arr(prv.kids)) == Complete(st, done)
                 else Complete(st, done) ==
                      Completed(st[..last - 1] + [prv, Task(None, -1, st[last].idx + 1, st[last].parent, [])], None)
  {
    var last := |st| - 1;
    if last > 0 {
      var prv := st[last - 1].(kids := st[last - 1].kids + [done]);
      RetopLinked(st[..last], prv);
      CompleteIgnoresTop(st[..last], prv, Arr(prv.kids));
    }
  }

  /** What a bulk string item is, by its header line. */
  lemma BulkItemIs(p: seq<Byte>, depth: nat)
    ensures match FindCrlf(p)
            case None => ReadItem(KString, p, depth) == Wait
            case Some(i) =>
              && CR in p
              && var n := ReadLongLong(p);
                 ReadItem(KString, p, depth) ==
                 if n < 0 then Leaf(Nil, p[i + 2..])
                 else if i + n + 4 <= |p| then Leaf(Str(p[i + 2..][..n]), p[i + n + 4..]) else Wait
  {
    hide ReadLongLong, FindCrlf, ReadDigits;
    match FindCrlf(p)
    case None =>
    case Some(i) =>
      assert p[i] == CR;
      var n := ReadLongLong(p);
      if n >= 0 && i + n + 4 <= |p| {
        assert p[i + 2..][n + 2..] == p[i + n + 4..];
      }
  }

  const TRIM_AT: nat := 1024

  class RedisReader {
    var buf: seq<Byte>
    var pos: nat
    var ridx: int
    const rstack: array<Task>
    var reply: Option<Reply>
    var err: Option<ProtocolError>

    ghost predicate Sized()
      reads this, rstack
    {
      rstack.Length == MAX_DEPTH + 1 && pos <= |buf| && -1 <= ridx <= MAX_DEPTH
    }

    ghost predicate Valid()
      reads this, rstack
    {
      Sized() && RespMachine.Valid(Abs())
    }

    /** The reader as a value; an empty stack with no finished reply stands for a fresh root. */
    ghost function Abs(): Config
      reads this, rstack
      requires Sized()
    {
      Config(buf[pos..], if ridx < 0 && reply.None? then [ROOT] else rstack[..ridx + 1], reply, err)
    }

    constructor ()
      ensures Valid() && fresh(rstack) && Abs() == FRESH
    {
      buf, pos, ridx, reply, err := [], 0, -1, None, None;
      rstack := new Task[MAX_DEPTH + 1](i => ROOT);
    }

    method SetError(e: ProtocolError)
      requires Sized()
      modifies this
      ensures Sized() && Abs() == Broken(e)
    {
      reply := None;
      buf, pos := [], 0;
      ridx := -1;
      err := Some(e);
    }

    method ReadLine() returns (line: Option<nat>)
      requires Sized()
      modifies this`pos
      ensures Sized() && line == FindCrlf(old(buf[pos..]))
      ensures pos == if line.Some? then old(pos) + line.value + 2 else old(pos)
    {
      line := SeekNewline(buf[pos..]);
      if line.Some? {
        pos := pos + line.value + 2;
      }
    }

    /** Hangs a finished object on its parent, or makes it the root, and moves to the next task. */
    method MoveToNextTask(obj: Reply)
      requires Sized() && ridx >= 0 && Linked(rstack[..ridx + 1]) && reply.None?
      modifies this`ridx, this`reply, rstack
      ensures Sized() && Completed(rstack[..ridx + 1], reply) == Complete(old(rstack[..ridx + 1]), obj)
      ensures ridx < 0 <==> reply.Some?
    {
      hide Complete, Linked;
      var done := obj;
      ghost var all := rstack[..ridx + 1];
      while true
        invariant Sized() && ridx >= 0 && Linked(rstack[..ridx + 1]) && reply.None?
        invariant Complete(rstack[..ridx + 1], done) == Complete(all, obj)
        decreases ridx
      {
        ghost var st := rstack[..ridx + 1];
        CompleteStep(st, done);
        if ridx == 0 {
          ridx := -1;
          reply := Some(done);
          return;
        }
        var cur, prv := rstack[ridx], rstack[ridx - 1];
        assert prv.kind == Some(KArray) && cur.idx < prv.elements;
        prv := prv.(kids := prv.kids + [done]);
        rstack[ridx - 1] := prv;
        if cur.idx == prv.elements - 1 {
          assert rstack[..ridx] == st[..ridx][ridx - 1 := prv];
          ridx := ridx - 1;
          done := Arr(prv.kids);
        } else {
          rstack[ridx] := Task(None, -1, cur.idx + 1, cur.parent, []);
          assert rstack[..ridx + 1] == st[..ridx - 1] + [prv, rstack[ridx]];
          return;
        }
      }
    }

    /** The precondition shared by the three item readers: the top task knows its kind. */
    ghost predicate AtItem(k: Kind)
      reads this, rstack
    {
      Sized() && ridx >= 0 && reply.None? && err.None? && Linked(rstack[..ridx + 1]) && rstack[ridx].kind == Some(k)
    }

    lemma KindIsSet(k: Kind)
      requires AtItem(k)
      ensures var st := Abs().stack; |st| == ridx + 1 && st == rstack[..ridx + 1] && st[ridx].kind == Some(k)
    {
    }

    method ProcessLineItem(k: Kind) returns (ok: bool)
      requires AtItem(k) && (k.KError? || k.KStatus? || k.KInteger?)
      modifies this, rstack
      ensures Sized() && Stepped(Abs(), ok) == StepBody(old(Abs()), k)
      ensures ok && ridx < 0 ==> reply.Some?
    {
      hide Complete, Linked, FindCrlf, ReadLongLong, ReadDigits, Push, StepBody;
      KindIsSet(k);
      StepBodyIs(Abs(), k);
      var p := buf[pos..];
      var line := ReadLine();
      if line.None? {
        return false;
      }
      var len := line.value;
      assert p[len] == CR;
      var obj;
      match k {
        case KInteger =>
          var v := ScanLongLong(p);
          obj := Int(v);
        case KError =>
          obj := Error(p[..len]);
        case KStatus =>
          obj := Status(p[..len]);
      }
      assert buf[pos..] == p[len + 2..];
      MoveToNextTask(obj);
      return true;
    }

    method ProcessBulkItem() returns (ok: bool)
      requires AtItem(KString)
      modifies this, rstack
      ensures Sized() && Stepped(Abs(), ok) == StepBody(old(Abs()), KString)
      ensures ok && ridx < 0 ==> reply.Some?
    {
      hide Complete, Linked, FindCrlf, ReadLongLong, ReadDigits, Push, StepBody, ReadItem;
      KindIsSet(KString);
      StepBodyIs(Abs(), KString);
      var p := buf[pos..];
      BulkItemIs(p, ridx);
      var s := SeekNewline(p);
      if s.None? {
        return false;
      }
      var bytelen := s.value + 2;
      var len := ScanLongLong(p);
      var obj;
      if len < 0 {
        obj := Nil;
      } else {
        bytelen := bytelen + len + 2;
        if pos + bytelen > |buf| {
          return false;
        }
        obj := Str(p[s.value + 2..][..len]);
      }
      pos := pos + bytelen;
      assert buf[pos..] == p[bytelen..];
      MoveToNextTask(obj);
      return true;
    }

    method ProcessMultiBulkItem() returns (ok: bool)
      requires AtItem(KArray)
      modifies this, rstack
      ensures Sized() && Stepped(Abs(), ok) == StepBody(old(Abs()), KArray)
      ensures ok && ridx < 0 ==> reply.Some?
    {
      hide Complete, Linked, FindCrlf, ReadLongLong, ReadDigits, StepBody;
      KindIsSet(KArray);
      StepBodyIs(Abs(), KArray);
      if ridx == MAX_DEPTH {
        SetError(TooDeep);
        return false;
      }
      var p := buf[pos..];
      var line := ReadLine();
      if line.None? {
        return false;
      }
      assert p[line.value] == CR;
      assert buf[pos..] == p[line.value + 2..];
      var elements := ScanLongLong(p);
      if elements == -1 {
        MoveToNextTask(Nil);
      } else if elements > 0 {
        ghost var st := rstack[..ridx + 1];
        rstack[ridx] := rstack[ridx].(elements := elements);
        ridx := ridx + 1;
        rstack[ridx] := Task(None, -1, 0, ridx - 1, []);
        assert rstack[..ridx + 1] == Push(st, elements);
      } else {
        MoveToNextTask(Arr([]));
      }
      return true;
    }

    method ProcessItem() returns (ok: bool)
      requires Valid() && ridx >= 0 && err.None?
      modifies this, rstack
      ensures Sized() && Stepped(Abs(), ok) == Step(old(Abs()))
      ensures ok && ridx < 0 ==> reply.Some?
    {
      hide StepBody;
      ghost var c := Abs();
      ghost var last := ridx;
      assert rstack[..ridx + 1] == c.stack;
      if rstack[ridx].kind.None? {
        if pos == |buf| {
          return false;
        }
        var b := buf[pos];
        pos := pos + 1;
        if KindOf(b).None? {
          SetError(BadTypeByte(b));
          return false;
        }
        rstack[ridx] := rstack[ridx].(kind := KindOf(b));
        RetopLinked(c.stack, rstack[last]);
        StepBodyAgain(c.(unread := c.unread[1..]), rstack[last].kind.value);
        assert rstack[..ridx + 1] == c.stack[last := rstack[last]];
        assert buf[pos..] == c.unread[1..];
      }
      match rstack[ridx].kind.value {
        case KString => ok := ProcessBulkItem();
        case KArray => ok := ProcessMultiBulkItem();
        case k => ok := ProcessLineItem(k);
      }
    }

    method Feed(chunk: seq<Byte>) returns (ok: bool)
      requires Valid() && Idle(Abs())
      modifies this
      ensures Valid() && Abs() == RespMachine.Feed(old(Abs()), chunk) && ok == old(err.None?)
    {
      if err.Some? {
        return false;
      }
      if |chunk| >= 1 {
        assert (buf + chunk)[pos..] == buf[pos..] + chunk;
        buf := buf + chunk;
      } else {
        assert buf[pos..] + chunk == buf[pos..];
      }
      return true;
    }

    method GetReply() returns (ok: bool, result: Option<Reply>)
      requires Valid() && Idle(Abs())
      modifies this, rstack
      ensures Valid() && Got(Abs(), result) == Get(old(Abs())) && ok == err.None?
      ensures ok ==> pos < TRIM_AT
    {
      hide Step, Linked;
      ghost var c := Abs();
      if err.Some? {
        return false, None;
      }
      if |buf| == 0 {
        NothingToRead(c);
        return true, None;
      }
      if ridx == -1 {
        rstack[0] := ROOT;
        ridx := 0;
        assert rstack[..1] == [ROOT];
      }
      while ridx >= 0
        invariant Valid() && err.None? && Loop(Abs()) == Loop(c)
        invariant ridx < 0 ==> reply.Some?
        decreases |Abs().unread|
      {
        StepValid(Abs());
        ghost var before := Abs();
        var more := ProcessItem();
        if !more {
          LoopStops(before);
          break;
        }
      }
      assert Abs() == Loop(c);
      if err.Some? {
        return false, None;
      }
      if pos >= TRIM_AT {
        buf := buf[pos..];
        pos := 0;
      }
      assert Abs() == Loop(c);
      if ridx == -1 {
        result := reply;
        reply := None;
      } else {
        result := None;
      }
      assert Got(Abs(), result) == Get(c);
      ok := true;
    }
  }
}
