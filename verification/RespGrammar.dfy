/**
  The Redis serialization protocol (RESP2) as data: reply trees, how one item is read
  from bytes, a plain recursive-descent parser for whole replies, the printer, and the
  round trip between the two.  The resumable reader of RespReader is proved against
  this parser.
 */
module RespGrammar {
  import opened Wrappers

  datatype Reply =
    | Nil
    | Str(text: seq<Byte>)
    | Status(text: seq<Byte>)
    | Error(text: seq<Byte>)
    | Int(number: int)
    | Arr(kids: seq<Reply>)

  datatype Kind = KError | KStatus | KInteger | KString | KArray

  datatype ProtocolError = BadTypeByte(byte: Byte) | TooDeep

  // Arrays may open on stack slots 0..7; slot 8 only ever holds a leaf.
  const MAX_DEPTH: nat := 8

  const MINUS: Byte := 45
  const PLUS: Byte := 43
  const COLON: Byte := 58
  const DOLLAR: Byte := 36
  const STAR: Byte := 42
  const ZERO: Byte := 48

  function KindOf(b: Byte): Option<Kind> {
    if b == MINUS then Some(KError)
    else if b == PLUS then Some(KStatus)
    else if b == COLON then Some(KInteger)
    else if b == DOLLAR then Some(KString)
    else if b == STAR then Some(KArray)
    else None
  }

  // ---------------------------------------------------------------- lines

  predicate CrlfAt(s: seq<Byte>, i: nat) {
    i + 1 < |s| && s[i] == CR && s[i + 1] == LF
  }

  /** The position of the first line end. */
  function FindCrlf(s: seq<Byte>): (r: Option<nat>)
    ensures r.Some? ==> CrlfAt(s, r.value) && forall i: nat :: i < r.value ==> !CrlfAt(s, i)
    ensures r.None? ==> forall i: nat :: !CrlfAt(s, i)
  {
    if |s| < 2 then None
    else if CrlfAt(s, 0) then Some(0)
    else
      assert forall i: nat :: i > 0 ==> CrlfAt(s, i) == CrlfAt(s[1..], i - 1);
      match FindCrlf(s[1..])
      case None => None
      case Some(i) => Some(i + 1)
  }

  lemma FindCrlfAt(s: seq<Byte>, i: nat)
    requires CrlfAt(s, i) && forall j: nat :: j < i ==> !CrlfAt(s, j)
    ensures FindCrlf(s) == Some(i)
  {
    var r := FindCrlf(s);
    assert r.Some? && !(r.value < i) && !(i < r.value);
  }

  lemma FindCrlfAppend(s: seq<Byte>, t: seq<Byte>)
    requires FindCrlf(s).Some?
    ensures FindCrlf(s + t) == FindCrlf(s)
  {
    var i := FindCrlf(s).value;
    assert forall j: nat :: j <= i ==> CrlfAt(s + t, j) == CrlfAt(s, j);
    FindCrlfAt(s + t, i);
  }

  // ---------------------------------------------------------------- numbers

  /** Decimal digits up to a carriage return; -1 on any other byte. */
  function ReadDigits(s: seq<Byte>, v: int, mult: int): int
    requires CR in s
  {
    if s[0] == CR then mult * v
    else if ZERO <= s[0] < ZERO + 10 then ReadDigits(s[1..], v * 10 + (s[0] - ZERO), mult)
    else -1
  }

  function ReadLongLong(s: seq<Byte>): int
    requires CR in s
  {
    if s[0] == MINUS then ReadDigits(s[1..], 0, -1)
    else if s[0] == PLUS then ReadDigits(s[1..], 0, 1)
    else ReadDigits(s, 0, 1)
  }

  lemma {:induction false} ReadDigitsAppend(s: seq<Byte>, t: seq<Byte>, v: int, mult: int)
    requires CR in s
    ensures ReadDigits(s + t, v, mult) == ReadDigits(s, v, mult)
  {
    if s[0] != CR && ZERO <= s[0] < ZERO + 10 {
      assert (s + t)[1..] == s[1..] + t;
      ReadDigitsAppend(s[1..], t, v * 10 + (s[0] - ZERO), mult);
    }
  }

  lemma ReadLongLongAppend(s: seq<Byte>, t: seq<Byte>)
    requires CR in s
    ensures ReadLongLong(s + t) == ReadLongLong(s)
  {
    if s[0] == MINUS {
      assert (s + t)[1..] == s[1..] + t;
      ReadDigitsAppend(s[1..], t, 0, -1);
    } else if s[0] == PLUS {
      assert (s + t)[1..] == s[1..] + t;
      ReadDigitsAppend(s[1..], t, 0, 1);
    } else {
      ReadDigitsAppend(s, t, 0, 1);
    }
  }

  // ---------------------------------------------------------------- one item

  datatype Item =
    | Leaf(reply: Reply, rest: seq<Byte>)     // a complete reply without children
    | Open(count: nat, rest: seq<Byte>)       // an array header announcing children
    | Wait                                    // the bytes of the item are not all there
    | Fail(error: ProtocolError)

  /** The item of kind `k` whose bytes, after the type byte, start `s`. */
  function ReadItem(k: Kind, s: seq<Byte>, depth: nat): (r: Item)
    ensures r.Leaf? ==> |r.rest| + 2 <= |s|
    ensures r.Open? ==> |r.rest| + 2 <= |s| && r.count > 0 && k == KArray && depth != MAX_DEPTH
    ensures r.Wait? ==> !(k == KArray && depth == MAX_DEPTH)
  {
    if k == KArray && depth == MAX_DEPTH then Fail(TooDeep)
    else match FindCrlf(s)
      case None => Wait
      case Some(i) =>
        assert s[i] == CR;
        var rest := s[i + 2..];
        match k
        case KError => Leaf(Error(s[..i]), rest)
        case KStatus => Leaf(Status(s[..i]), rest)
        case KInteger => Leaf(Int(ReadLongLong(s)), rest)
        case KString =>
          var n := ReadLongLong(s);
          if n < 0 then Leaf(Nil, rest)
          else if n + 2 <= |rest| then Leaf(Str(rest[..n]), rest[n + 2..])
          else Wait
        case KArray =>
          var n := ReadLongLong(s);
          if n == -1 then Leaf(Nil, rest)
          else if n > 0 then Open(n, rest)
          else Leaf(Arr([]), rest)
  }

  /** An item that was decided stays decided when more bytes arrive. */
  lemma ReadItemAppend(k: Kind, s: seq<Byte>, t: seq<Byte>, depth: nat)
    ensures match ReadItem(k, s, depth)
            case Leaf(r, rest) => ReadItem(k, s + t, depth) == Leaf(r, rest + t)
            case Open(n, rest) => ReadItem(k, s + t, depth) == Open(n, rest + t)
            case Wait => true
            case Fail(e) => ReadItem(k, s + t, depth) == Fail(e)
  {
    if !(k == KArray && depth == MAX_DEPTH) && FindCrlf(s).Some? {
      FindCrlfAppend(s, t);
      var i := FindCrlf(s).value;
      assert s[i] == CR;
      ReadLongLongAppend(s, t);
      assert (s + t)[i + 2..] == s[i + 2..] + t;
      assert (s + t)[..i] == s[..i];
      var rest := s[i + 2..];
      var n := ReadLongLong(s);
      if k == KString && 0 <= n && n + 2 <= |rest| {
        assert (rest + t)[..n] == rest[..n];
        assert (rest + t)[n + 2..] == rest[n + 2..] + t;
      }
    }
  }

  // ---------------------------------------------------------------- whole replies

  datatype Parsed = Parsed(reply: Reply, rest: seq<Byte>) | More | Bad(error: ProtocolError)

  /** Recursive descent, one call per array level. */
  function ParseReply(s: seq<Byte>, depth: nat): (r: Parsed)
    requires depth <= MAX_DEPTH
    ensures r.Parsed? ==> |r.rest| < |s|
    decreases |s|, 0
  {
    if |s| == 0 then More
    else match KindOf(s[0])
      case None => Bad(BadTypeByte(s[0]))
      case Some(k) => ParseBody(k, s[1..], depth)
  }

  function ParseBody(k: Kind, s: seq<Byte>, depth: nat): (r: Parsed)
    requires depth <= MAX_DEPTH
    ensures r.Parsed? ==> |r.rest| < |s|
    decreases |s|, 2
  {
    match ReadItem(k, s, depth)
    case Leaf(r, rest) => Parsed(r, rest)
    case Open(n, rest) => ParseMany(n, rest, depth + 1, [])
    case Wait => More
    case Fail(e) => Bad(e)
  }

  function ParseMany(n: nat, s: seq<Byte>, depth: nat, done: seq<Reply>): (r: Parsed)
    requires depth <= MAX_DEPTH
    ensures r.Parsed? ==> |r.rest| <= |s|
    decreases |s|, 1
  {
    if n == 0 then Parsed(Arr(done), s)
    else match ParseReply(s, depth)
      case Parsed(r, rest) => ParseMany(n - 1, rest, depth, done + [r])
      case More => More
      case Bad(e) => Bad(e)
  }

  datatype Transcript = Transcript(replies: seq<Reply>, error: Option<ProtocolError>)

  /** Every reply of a stream, in order, up to its end or its first error. */
  function ParseAll(s: seq<Byte>): Transcript
    decreases |s|
  {
    match ParseReply(s, 0)
    case Parsed(r, rest) =>
      var tail := ParseAll(rest);
      Transcript([r] + tail.replies, tail.error)
    case More => Transcript([], None)
    case Bad(e) => Transcript([], Some(e))
  }

  // ---------------------------------------------------------------- printing

  function Digits(n: nat): (r: seq<Byte>)
    ensures |r| > 0 && forall i :: 0 <= i < |r| ==> ZERO <= r[i] < ZERO + 10
  {
    if n < 10 then [ZERO + n] else Digits(n / 10) + [ZERO + n % 10]
  }

  function Number(n: int): seq<Byte> {
    if n < 0 then [MINUS] + Digits(-n) else Digits(n)
  }

  function Line(k: Byte, body: seq<Byte>): seq<Byte> {
    [k] + body + CRLF
  }

  function Encode(r: Reply): seq<Byte> {
    match r
    case Nil => Line(DOLLAR, Number(-1))
    case Str(t) => Line(DOLLAR, Number(|t|)) + t + CRLF
    case Status(t) => Line(PLUS, t)
    case Error(t) => Line(MINUS, t)
    case Int(n) => Line(COLON, Number(n))
    case Arr(kids) => Line(STAR, Number(|kids|)) + EncodeAll(kids)
  }

  function EncodeAll(kids: seq<Reply>): seq<Byte> {
    if |kids| == 0 then [] else Encode(kids[0]) + EncodeAll(kids[1..])
  }

  /** Simple strings and simple errors hold no line end; everything else is binary safe. */
  ghost predicate WellFormed(r: Reply) {
    match r
    case Status(t) => forall i: nat :: !CrlfAt(t, i)
    case Error(t) => forall i: nat :: !CrlfAt(t, i)
    case Arr(kids) => forall k :: k in kids ==> WellFormed(k)
    case _ => true
  }

  function Max(a: nat, b: nat): nat { if a < b then b else a }

  /** Number of nested array levels. */
  function Depth(r: Reply): nat {
    if r.Arr? then 1 + DepthAll(r.kids) else 0
  }

  function DepthAll(kids: seq<Reply>): nat {
    if |kids| == 0 then 0 else Max(Depth(kids[0]), DepthAll(kids[1..]))
  }

  // ---------------------------------------------------------------- round trip

  lemma {:induction false} ReadDigitsOfDigits(n: nat, t: seq<Byte>, mult: int)
    requires CR in t
    ensures ReadDigits(Digits(n) + t, 0, mult) == ReadDigits(t, n, mult)
  {
    if n < 10 {
      assert (Digits(n) + t)[1..] == t;
    } else {
      var d := ZERO + n % 10;
      assert Digits(n) + t == Digits(n / 10) + ([d] + t);
      ReadDigitsOfDigits(n / 10, [d] + t, mult);
      assert ([d] + t)[1..] == t;
    }
  }

  /** What reading a number does with its first byte. */
  lemma ReadLongLongFirst(s: seq<Byte>)
    requires CR in s
    ensures s[0] == MINUS ==> CR in s[1..] && ReadLongLong(s) == ReadDigits(s[1..], 0, -1)
    ensures ZERO <= s[0] < ZERO + 10 ==> ReadLongLong(s) == ReadDigits(s, 0, 1)
  {
    hide ReadDigits;
  }

  lemma ReadsNothing(t: seq<Byte>, v: int, mult: int)
    requires |t| > 0 && t[0] == CR
    ensures ReadDigits(t, v, mult) == mult * v
  {
  }

  lemma ReadDigitsOfNumber(n: nat, t: seq<Byte>, mult: int)
    requires |t| > 0 && t[0] == CR
    ensures CR in Digits(n) + t && ReadDigits(Digits(n) + t, 0, mult) == mult * n
    ensures |Digits(n)| > 0 && ZERO <= (Digits(n) + t)[0] < ZERO + 10
  {
    hide ReadDigits;
    var s := Digits(n) + t;
    assert s[0] == Digits(n)[0] && s[|Digits(n)|] == CR && CR in t;
    ReadDigitsOfDigits(n, t, mult);
    ReadsNothing(t, n, mult);
  }

  lemma ReadLongLongOfNumber(n: int, t: seq<Byte>)
    requires |t| > 0 && t[0] == CR
    ensures CR in Number(n) + t && ReadLongLong(Number(n) + t) == n
  {
    hide Digits, ReadDigits, ReadLongLong;
    if n < 0 {
      ReadDigitsOfNumber(-n, t, -1);
      Regroup([MINUS], Digits(-n), t);
      var s := [MINUS] + (Digits(-n) + t);
      assert s[1..] == Digits(-n) + t;
      ReadLongLongFirst(s);
    } else {
      ReadDigitsOfNumber(n, t, 1);
      ReadLongLongFirst(Digits(n) + t);
    }
  }

  /** A printed line ends exactly where its first line end is. */
  lemma FindCrlfOfLine(body: seq<Byte>, t: seq<Byte>)
    requires forall i: nat :: !CrlfAt(body, i)
    ensures FindCrlf(body + CRLF + t) == Some(|body|)
  {
    var s := body + CRLF + t;
    forall j: nat | j < |body| ensures !CrlfAt(s, j) {
      assert !CrlfAt(body, j);
    }
    FindCrlfAt(s, |body|);
  }

  lemma NumberIsOneLine(n: int)
    ensures forall i: nat :: !CrlfAt(Number(n), i)
  {
  }

  /** A header line `k`, number, CRLF in front of `t`, as ReadItem sees it. */
  lemma ReadHeader(k: Byte, n: int, t: seq<Byte>)
    ensures var s := (Line(k, Number(n)) + t)[1..];
            FindCrlf(s) == Some(|Number(n)|) && CR in s && ReadLongLong(s) == n && s[|Number(n)| + 2..] == t
  {
    var s := (Line(k, Number(n)) + t)[1..];
    assert s == Number(n) + CRLF + t;
    NumberIsOneLine(n);
    FindCrlfOfLine(Number(n), t);
    assert s == Number(n) + (CRLF + t);
    ReadLongLongOfNumber(n, CRLF + t);
  }

  lemma LineRoundTrip(k: Byte, x: seq<Byte>, t: seq<Byte>)
    requires forall i: nat :: !CrlfAt(x, i)
    ensures var s := (Line(k, x) + t)[1..];
            FindCrlf(s) == Some(|x|) && s[..|x|] == x && s[|x| + 2..] == t
  {
    var s := (Line(k, x) + t)[1..];
    assert s == x + CRLF + t;
    FindCrlfOfLine(x, t);
  }

  /** What follows the type byte of a printed reply is one item. */
  lemma ParseTyped(b: Byte, body: seq<Byte>, t: seq<Byte>, depth: nat)
    requires depth <= MAX_DEPTH && KindOf(b).Some?
    ensures var s := Line(b, body) + t;
            ParseReply(s, depth) == ParseBody(KindOf(b).value, s[1..], depth)
  {
  }

  lemma StrLayout(x: seq<Byte>, t: seq<Byte>)
    ensures Encode(Str(x)) + t == Line(DOLLAR, Number(|x|)) + (x + CRLF + t)
    ensures var u := x + CRLF + t; u[..|x|] == x && u[|x| + 2..] == t
  {
    hide Line, Number;
  }

  lemma ParseInvertsEncodeStr(x: seq<Byte>, t: seq<Byte>, depth: nat)
    requires depth <= MAX_DEPTH
    ensures ParseReply(Encode(Str(x)) + t, depth) == Parsed(Str(x), t)
  {
    hide FindCrlf, ReadLongLong, Number, CrlfAt, Line, Encode, ParseReply;
    var u := x + CRLF + t;
    StrLayout(x, t);
    ParseTyped(DOLLAR, Number(|x|), u, depth);
    ReadHeader(DOLLAR, |x|, u);
  }

  lemma ParseInvertsEncodeLeaf(r: Reply, t: seq<Byte>, depth: nat)
    requires WellFormed(r) && !r.Arr? && depth <= MAX_DEPTH
    ensures ParseReply(Encode(r) + t, depth) == Parsed(r, t)
  {
    hide FindCrlf, ReadLongLong, Number, CrlfAt;
    match r
    case Nil =>
      ParseTyped(DOLLAR, Number(-1), t, depth);
      ReadHeader(DOLLAR, -1, t);
    case Str(x) => ParseInvertsEncodeStr(x, t, depth);
    case Status(x) =>
      ParseTyped(PLUS, x, t, depth);
      LineRoundTrip(PLUS, x, t);
    case Error(x) =>
      ParseTyped(MINUS, x, t, depth);
      LineRoundTrip(MINUS, x, t);
    case Int(n) =>
      ParseTyped(COLON, Number(n), t, depth);
      ReadHeader(COLON, n, t);
  }

  /**
    RESP2 round trip: a printed reply in front of any bytes reads back as itself, with
    the cursor on the first following byte, as long as it nests at most eight arrays;
    one level more is always refused.
   */
  lemma {:induction false} ParseInvertsEncode(r: Reply, t: seq<Byte>, depth: nat)
    requires WellFormed(r) && depth <= MAX_DEPTH
    ensures ParseReply(Encode(r) + t, depth) ==
            if depth + Depth(r) <= MAX_DEPTH then Parsed(r, t) else Bad(TooDeep)
    decreases r, 0
  {
    hide FindCrlf, ReadLongLong, Number, CrlfAt;
    if !r.Arr? {
      ParseInvertsEncodeLeaf(r, t, depth);
    } else {
      var kids, u := r.kids, EncodeAll(r.kids) + t;
      assert Encode(r) + t == Line(STAR, Number(|kids|)) + u;
      ParseTyped(STAR, Number(|kids|), u, depth);
      ReadHeader(STAR, |kids|, u);
      if depth < MAX_DEPTH && |kids| == 0 {
        assert u == t;
      } else if depth < MAX_DEPTH {
        ParseInvertsEncodeAll(kids, t, depth + 1, []);
        assert [] + kids == kids;
      }
    }
  }

  lemma {:induction false} ParseInvertsEncodeAll(kids: seq<Reply>, t: seq<Byte>, depth: nat, done: seq<Reply>)
    requires depth <= MAX_DEPTH && forall k :: k in kids ==> WellFormed(k)
    ensures ParseMany(|kids|, EncodeAll(kids) + t, depth, done) ==
            if depth + DepthAll(kids) <= MAX_DEPTH then Parsed(Arr(done + kids), t) else Bad(TooDeep)
    decreases kids, 1
  {
    hide ParseReply, Encode;
    if |kids| == 0 {
      assert EncodeAll(kids) + t == t && done + kids == done;
    } else {
      var u := EncodeAll(kids[1..]) + t;
      assert EncodeAll(kids) + t == Encode(kids[0]) + u;
      ParseInvertsEncode(kids[0], u, depth);
      if depth + Depth(kids[0]) <= MAX_DEPTH {
        ParseInvertsEncodeAll(kids[1..], t, depth, done + [kids[0]]);
        assert done + [kids[0]] + kids[1..] == done + kids;
      }
    }
  }

  /** A stream of printed replies is read back as exactly those replies. */
  lemma {:induction false} ParseAllInvertsEncodeAll(rs: seq<Reply>)
    requires forall r :: r in rs ==> WellFormed(r) && Depth(r) <= MAX_DEPTH
    ensures ParseAll(EncodeAll(rs)) == Transcript(rs, None)
  {
    if |rs| > 0 {
      ParseInvertsEncode(rs[0], EncodeAll(rs[1..]), 0);
      ParseAllInvertsEncodeAll(rs[1..]);
      assert [rs[0]] + rs[1..] == rs;
    }
  }
}
