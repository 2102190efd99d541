/**
  Building commands: the two formatters of the client library, which write an array of
  bulk strings into a buffer sized in advance, and the hash commands of the server that
  are built on them.
 */
module CommandFormat {
  import opened Wrappers
  import opened RespGrammar

  type Text = seq<Byte>

  const SPACE: Byte := 32
  const PERCENT: Byte := 37
  const LOWER_S: Byte := 115
  const LOWER_B: Byte := 98

  /** A command on the wire is an array of bulk strings. */
  function Command(args: seq<Text>): Reply {
    Arr(Bulks(args))
  }

  function Bulks(args: seq<Text>): (r: seq<Reply>)
    ensures |r| == |args| && forall i :: 0 <= i < |args| ==> r[i] == Str(args[i])
  {
    if |args| == 0 then [] else [Str(args[0])] + Bulks(args[1..])
  }

  lemma {:induction false} BulksAreLeaves(args: seq<Text>)
    ensures DepthAll(Bulks(args)) == 0
  {
    if |args| > 0 {
      BulksAreLeaves(args[1..]);
    }
  }

  lemma CommandIsShallow(args: seq<Text>)
    ensures WellFormed(Command(args)) && Depth(Command(args)) == 1
  {
    BulksAreLeaves(args);
  }

  /** Numbers are printed without a plus sign and without leading zeros. */
  lemma {:induction false} NumberIsPlain(n: int)
    ensures |Number(n)| > 0
    ensures if n < 0 then Number(n)[0] == 45 && Number(n)[1..] == Number(-n)
            else n > 0 ==> 49 <= Number(n)[0] <= 57
    decreases if n < 0 then 1 - n else n
  {
    if n < 0 {
      NumberIsPlain(-n);
    } else if n >= 10 {
      NumberIsPlain(n / 10);
    }
  }

  /** A command in bytes: PING. */
  lemma PingInBytes()
    ensures Encode(Command([[80, 73, 78, 71]])) == [42, 49, 13, 10, 36, 52, 13, 10, 80, 73, 78, 71, 13, 10]
  {
    var ping: Text := [80, 73, 78, 71];
    assert Bulks([ping]) == [Str(ping)] + Bulks([ping][1..]);
    assert [ping][1..] == [];
    assert Bulks([ping]) == [Str(ping)];
    assert [Str(ping)][1..] == [];
    assert EncodeAll([Str(ping)]) == Encode(Str(ping)) + EncodeAll([]);
    assert Encode(Str(ping)) == [36, 52, 13, 10, 80, 73, 78, 71, 13, 10];
  }

  // ---------------------------------------------------------------- predicted lengths

  method IntLen(i: int) returns (len: nat)
    ensures len == |Number(i)|
  {
    len := 0;
    var n := i;
    if n < 0 {
      len, n := len + 1, -n;
    }
    len, n := len + 1, n / 10;
    while n != 0
      invariant n >= 0
      invariant len + (if n == 0 then 0 else |Digits(n)|) == |Number(i)|
    {
      len, n := len + 1, n / 10;
    }
  }

  method BulkLen(len: nat) returns (total: nat)
    ensures forall t: Text :: |t| == len ==> total == |Encode(Str(t))|
  {
    var digits := IntLen(len);
    total := 1 + digits + 2 + len + 2;
  }

  // ---------------------------------------------------------------- writing the buffer

  /** Copies bytes into the buffer at `pos`; what follows is still to be written. */
  method Append(cmd: array<Byte>, pos: nat, bytes: Text) returns (end: nat)
    requires pos + |bytes| <= cmd.Length
    modifies cmd
    ensures end == pos + |bytes| && cmd[..end] == old(cmd[..pos]) + bytes
  {
    end := pos;
    for i := 0 to |bytes|
      invariant end == pos + i && cmd[..end] == old(cmd[..pos]) + bytes[..i]
    {
      cmd[end] := bytes[i];
      end := end + 1;
    }
  }

  lemma EncodeNext(args: seq<Text>, j: nat)
    requires j < |args|
    ensures EncodeAll(Bulks(args)[j..]) == Encode(Str(args[j])) + EncodeAll(Bulks(args)[j + 1..])
    ensures Encode(Str(args[j])) == Line(DOLLAR, Number(|args[j]|)) + args[j] + CRLF
  {
    assert Bulks(args)[j..][1..] == Bulks(args)[j + 1..];
  }

  method WriteBulk(cmd: array<Byte>, start: nat, arg: Text) returns (pos: nat)
    requires start + |Encode(Str(arg))| <= cmd.Length
    modifies cmd
    ensures pos == start + |Encode(Str(arg))| && cmd[..pos] == old(cmd[..start]) + Encode(Str(arg))
  {
    hide Number;
    ghost var head := Line(DOLLAR, Number(|arg|));
    ghost var written := cmd[..start];
    pos := Append(cmd, start, Line(DOLLAR, Number(|arg|)));
    pos := Append(cmd, pos, arg);
    pos := Append(cmd, pos, CRLF);
    assert written + head + arg + CRLF == written + (head + arg + CRLF);
  }

  lemma EncodeHeader(args: seq<Text>)
    ensures Encode(Command(args)) == Line(STAR, Number(|args|)) + EncodeAll(Bulks(args))
  {
  }

  lemma EncodeNone()
    ensures EncodeAll(Bulks([])) == []
  {
  }

  method WriteCommand(args: seq<Text>, totlen: nat) returns (cmd: Text)
    requires totlen == |Encode(Command(args))|
    ensures cmd == Encode(Command(args))
  {
    hide Number, Encode, EncodeAll;
    ghost var bulks := Bulks(args);
    ghost var wire := Encode(Command(args));
    var buffer := new Byte[totlen + 1];
    EncodeHeader(args);
    var pos := Append(buffer, 0, Line(STAR, Number(|args|)));
    assert bulks[0..] == bulks;
    for j := 0 to |args|
      invariant 0 <= pos <= totlen
      invariant buffer[..pos] + EncodeAll(bulks[j..]) == wire
    {
      ghost var written, here, later := buffer[..pos], Encode(Str(args[j])), EncodeAll(bulks[j + 1..]);
      EncodeNext(args, j);
      assert written + (here + later) == written + here + later;
      assert |written + here + later| == totlen;
      pos := WriteBulk(buffer, pos, args[j]);
    }
    EncodeNone();
    assert bulks[|args|..] == Bulks([]);
    assert pos == totlen;
    buffer[pos] := 0;
    cmd := buffer[..pos];
  }

  method FormatCommandArgv(args: seq<Text>) returns (cmd: Text)
    ensures cmd == Encode(Command(args))
  {
    ghost var bulks := Bulks(args);
    var digits := IntLen(|args|);
    var totlen := 1 + digits + 2;
    assert bulks[0..] == bulks;
    for j := 0 to |args|
      invariant totlen + |EncodeAll(bulks[j..])| == |Encode(Command(args))|
    {
      assert bulks[j..][0] == Str(args[j]) && bulks[j..][1..] == bulks[j + 1..];
      var len := BulkLen(|args[j]|);
      totlen := totlen + len;
    }
    cmd := WriteCommand(args, totlen);
  }

  /** What a client writes the server reads back as the same arguments. */
  lemma CommandReadsBack(args: seq<Text>, t: Text)
    ensures ParseReply(Encode(Command(args)) + t, 0) == Parsed(Command(args), t)
  {
    CommandIsShallow(args);
    ParseInvertsEncode(Command(args), t, 0);
  }

  // ---------------------------------------------------------------- format strings

  datatype Arg = CString(bytes: Text) | Binary(bytes: Text)

  /** Literal text, %s with a string, %b with a binary string, %%; a last lone % is literal. */
  predicate Supported(format: Text, args: seq<Arg>) {
    if |format| == 0 then true
    else if format[0] != PERCENT || |format| == 1 then Supported(format[1..], args)
    else if format[1] == PERCENT then Supported(format[2..], args)
    else
      && |args| > 0
      && (if args[0].CString? then format[1] == LOWER_S else format[1] == LOWER_B)
      && Supported(format[2..], args[1..])
  }

  datatype Piece = Gap | Insert(bytes: Text)

  /** What a format string stands for, piece by piece. */
  function Pieces(format: Text, args: seq<Arg>): seq<Piece>
    requires Supported(format, args)
  {
    if |format| == 0 then []
    else if format[0] != PERCENT || |format| == 1 then
      [if format[0] == SPACE then Gap else Insert([format[0]])] + Pieces(format[1..], args)
    else if format[1] == PERCENT then [Insert([PERCENT])] + Pieces(format[2..], args)
    else [Insert(args[0].bytes)] + Pieces(format[2..], args[1..])
  }

  /** The text of the leading pieces up to a gap, and what comes after them. */
  function Head(ps: seq<Piece>): Text {
    if |ps| == 0 || ps[0].Gap? then [] else ps[0].bytes + Head(ps[1..])
  }

  function Tail(ps: seq<Piece>): (r: seq<Piece>)
    ensures |r| <= |ps| && (|ps| > 0 && ps[0].Insert? ==> |r| < |ps|)
  {
    if |ps| == 0 || ps[0].Gap? then ps else Tail(ps[1..])
  }

  /** The arguments of a command: the runs of pieces between gaps. */
  function Words(ps: seq<Piece>): seq<Text>
    decreases |ps|
  {
    if |ps| == 0 then []
    else if ps[0].Gap? then Words(ps[1..])
    else [Head(ps)] + Words(Tail(ps))
  }

  /** The words still to come when a word may already have begun. */
  function Resume(touched: bool, cur: Text, ps: seq<Piece>): seq<Text> {
    if touched then [cur + Head(ps)] + Words(Tail(ps)) else Words(ps)
  }

  lemma ResumeInsert(touched: bool, cur: Text, b: Text, ps: seq<Piece>)
    requires !touched ==> cur == []
    ensures Resume(touched, cur, [Insert(b)] + ps) == Resume(true, cur + b, ps)
  {
    var all := [Insert(b)] + ps;
    assert all[1..] == ps;
    assert cur + (b + Head(ps)) == cur + b + Head(ps);
    assert [] + b == b;
  }

  lemma ResumeGap(touched: bool, cur: Text, ps: seq<Piece>)
    ensures Resume(touched, cur, [Gap] + ps) == (if touched then [cur] else []) + Words(ps)
  {
    assert ([Gap] + ps)[1..] == ps;
    assert cur + [] == cur;
  }

  lemma ResumeNone(ps: seq<Piece>)
    ensures Resume(false, [], ps) == Words(ps)
  {
  }

  lemma ResumeEnd(touched: bool, cur: Text)
    ensures Resume(touched, cur, []) == if touched then [cur] else []
  {
    assert cur + [] == cur;
  }

  lemma EncodeLength(args: seq<Text>)
    ensures |Encode(Command(args))| == 1 + |Number(|args|)| + 2 + |EncodeAll(Bulks(args))|
  {
  }

  lemma {:induction false} EncodeAllAppend(argv: seq<Text>, a: Text)
    ensures EncodeAll(Bulks(argv + [a])) == EncodeAll(Bulks(argv)) + Encode(Str(a))
  {
    hide Encode;
    var all := argv + [a];
    if |argv| == 0 {
      assert all[1..] == [] && Bulks(all) == [Str(a)] + [] == [Str(a)];
      assert EncodeAll([Str(a)][1..]) == [];
    } else {
      EncodeAllAppend(argv[1..], a);
      assert all[1..] == argv[1..] + [a];
      assert Bulks(all)[1..] == Bulks(all[1..]) && Bulks(argv)[1..] == Bulks(argv[1..]);
      Regroup(Encode(Str(argv[0])), EncodeAll(Bulks(argv[1..])), Encode(Str(a)));
    }
  }

  /** The formatter for format strings emits exactly what the argument-vector formatter emits for the words. */
  method FormatCommand(format: Text, args: seq<Arg>) returns (cmd: Text)
    requires Supported(format, args)
    ensures cmd == Encode(Command(Words(Pieces(format, args))))
  {
    hide Words, Head, Tail, Resume, Encode, EncodeAll, Number, Digits;
    var c, rest := 0, args;
    var curarg: Text, touched, argv: seq<Text>, totlen := [], false, [], 0;
    ghost var words := Words(Pieces(format, args));
    assert format[0..] == format;
    assert totlen == |EncodeAll(Bulks(argv))| by { EncodeNone(); }
    ResumeNone(Pieces(format, args));
    while c < |format|
      invariant c <= |format| && Supported(format[c..], rest)
      invariant !touched ==> curarg == []
      invariant totlen == |EncodeAll(Bulks(argv))|
      invariant argv + Resume(touched, curarg, Pieces(format[c..], rest)) == words
      decreases |format| - c
    {
      ghost var left := format[c..];
      assert left[1..] == format[c + 1..];
      if format[c] != PERCENT || c + 1 == |format| {
        ghost var ps := Pieces(left[1..], rest);
        if format[c] == SPACE {
          ResumeGap(touched, curarg, ps);
          ResumeNone(ps);
          if touched {
            EncodeAllAppend(argv, curarg);
            var len := BulkLen(|curarg|);
            argv, totlen := argv + [curarg], totlen + len;
            curarg, touched := [], false;
          }
        } else {
          ResumeInsert(touched, curarg, [format[c]], ps);
          curarg, touched := curarg + [format[c]], true;
        }
        c := c + 1;
      } else {
        assert left[2..] == format[c + 2..];
        if format[c + 1] == PERCENT {
          ResumeInsert(touched, curarg, [PERCENT], Pieces(left[2..], rest));
          curarg := curarg + [PERCENT];
        } else {
          ResumeInsert(touched, curarg, rest[0].bytes, Pieces(left[2..], rest[1..]));
          curarg, rest := curarg + rest[0].bytes, rest[1..];
        }
        touched := true;
        c := c + 2;
      }
    }
    ResumeEnd(touched, curarg);
    if touched {
      EncodeAllAppend(argv, curarg);
      var len := BulkLen(|curarg|);
      argv, totlen := argv + [curarg], totlen + len;
    }
    assert argv == words;
    var digits := IntLen(|argv|);
    totlen := totlen + 1 + digits + 2;
    assert totlen == |Encode(Command(argv))| by { EncodeLength(argv); }
    cmd := WriteCommand(argv, totlen);
  }
}
