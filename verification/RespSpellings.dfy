/**
  All the ways a reply can be written on the wire, and what each of them means.

  The printer of RespGrammar writes every reply in one way.  Servers are not bound to it:
  there are two nulls, a number may carry a plus sign or leading zeros, and the reader
  puts up with more than that.  The parser accepts exactly the spellings of this module.
 */
module RespSpellings {
  import opened Wrappers
  import opened RespGrammar
  import opened RespMachine

  // A reply as it is written; `text` is what stands between the type byte and the line end.
  datatype Spelling =
    | ErrorLine(text: seq<Byte>)
    | StatusLine(text: seq<Byte>)
    | IntegerLine(text: seq<Byte>)
    | NullBulk(text: seq<Byte>)
    | Bulk(text: seq<Byte>, body: seq<Byte>, end: seq<Byte>)
    | NullArray(text: seq<Byte>)
    | EmptyArray(text: seq<Byte>)
    | Elements(text: seq<Byte>, kids: seq<Spelling>)

  // ---------------------------------------------------------------- numbers

  predicate AllDigits(ds: seq<Byte>) {
    forall i :: 0 <= i < |ds| ==> 48 <= ds[i] <= 57
  }

  /** The decimal value of a row of digits. */
  function Decimal(ds: seq<Byte>): (v: nat)
    requires AllDigits(ds)
  {
    if |ds| == 0 then 0 else 10 * Decimal(ds[..|ds| - 1]) + (ds[|ds| - 1] - 48)
  }

  /** What stands in front of the first carriage return. */
  function UpToReturn(text: seq<Byte>): (r: seq<Byte>)
    ensures |r| <= |text| && r == text[..|r|] && 13 !in r && (|r| < |text| ==> text[|r|] == 13)
  {
    if |text| == 0 || text[0] == 13 then [] else [text[0]] + UpToReturn(text[1..])
  }

  /** An optional sign and digits; anything else is taken for -1. */
  function NumberIn(text: seq<Byte>): int {
    var t := UpToReturn(text);
    if |t| > 0 && t[0] == 45 then if AllDigits(t[1..]) then 0 - Decimal(t[1..]) else -1
    else if |t| > 0 && t[0] == 43 then if AllDigits(t[1..]) then Decimal(t[1..]) else -1
    else if AllDigits(t) then Decimal(t) else -1
  }

  // ---------------------------------------------------------------- spellings

  predicate OneLine(text: seq<Byte>) {
    forall i :: 0 <= i < |text| - 1 ==> !(text[i] == 13 && text[i + 1] == 10)
  }

  /** The number in a header fits what comes behind it. */
  predicate Proper(sp: Spelling) {
    OneLine(sp.text) &&
    match sp
    case NullBulk(text) => NumberIn(text) < 0
    case Bulk(text, body, end) => NumberIn(text) == |body| && |end| == 2
    case NullArray(text) => NumberIn(text) == -1
    case EmptyArray(text) => NumberIn(text) == 0 || NumberIn(text) < -1
    case Elements(text, kids) => NumberIn(text) == |kids| > 0 && forall k :: k in kids ==> Proper(k)
    case _ => true
  }

  function TypeByte(sp: Spelling): Byte {
    match sp
    case ErrorLine(_) => 45
    case StatusLine(_) => 43
    case IntegerLine(_) => 58
    case NullBulk(_) => 36
    case Bulk(_, _, _) => 36
    case NullArray(_) => 42
    case EmptyArray(_) => 42
    case Elements(_, _) => 42
  }

  function Body(sp: Spelling): seq<Byte>
    decreases sp, 0
  {
    match sp
    case Bulk(_, body, end) => body + end
    case Elements(_, kids) => WrittenAll(kids)
    case _ => []
  }

  function Written(sp: Spelling): seq<Byte>
    decreases sp, 1
  {
    [TypeByte(sp)] + sp.text + [13, 10] + Body(sp)
  }

  function WrittenAll(kids: seq<Spelling>): seq<Byte> {
    if |kids| == 0 then [] else Written(kids[0]) + WrittenAll(kids[1..])
  }

  function Meaning(sp: Spelling): Reply {
    match sp
    case ErrorLine(text) => Error(text)
    case StatusLine(text) => Status(text)
    case IntegerLine(text) => Int(NumberIn(text))
    case NullBulk(_) => Nil
    case Bulk(_, body, _) => Str(body)
    case NullArray(_) => Nil
    case EmptyArray(_) => Arr([])
    case Elements(_, kids) => Arr(Meanings(kids))
  }

  function Meanings(kids: seq<Spelling>): (r: seq<Reply>)
    ensures |r| == |kids| && forall i :: 0 <= i < |kids| ==> r[i] == Meaning(kids[i])
  {
    if |kids| == 0 then [] else [Meaning(kids[0])] + Meanings(kids[1..])
  }

  /** Nested array headers, the null array's own included. */
  function Levels(sp: Spelling): nat {
    match sp
    case Elements(_, kids) => 1 + LevelsAll(kids)
    case NullArray(_) => 1
    case EmptyArray(_) => 1
    case _ => 0
  }

  function LevelsAll(kids: seq<Spelling>): nat {
    if |kids| == 0 then 0 else Max(Levels(kids[0]), LevelsAll(kids[1..]))
  }

  // ---------------------------------------------------------------- reading numbers

  /** Reading digits one by one from the front computes their decimal value. */
  lemma {:induction false} ReadDigitsIs(ds: seq<Byte>, t: seq<Byte>, done: seq<Byte>, mult: int)
    requires 13 !in ds && |t| > 0 && t[0] == 13 && AllDigits(done)
    ensures ReadDigits(ds + t, Decimal(done), mult) == if AllDigits(ds) then mult * Decimal(done + ds) else -1
    decreases |ds|
  {
    if |ds| == 0 {
      assert ds + t == t && done + ds == done;
    } else if 48 <= ds[0] <= 57 {
      var more := done + [ds[0]];
      assert more[..|more| - 1] == done;
      assert (ds + t)[1..] == ds[1..] + t;
      ReadDigitsIs(ds[1..], t, more, mult);
      assert more + ds[1..] == done + ds;
      assert AllDigits(ds) <==> AllDigits(ds[1..]) by {
        assert forall i :: 1 <= i < |ds| ==> ds[i] == ds[1..][i - 1];
      }
    }
  }

  lemma ReadDigitsFrom(ds: seq<Byte>, t: seq<Byte>, mult: int)
    requires 13 !in ds && |t| > 0 && t[0] == 13
    ensures CR in ds + t
    ensures ReadDigits(ds + t, 0, mult) == if AllDigits(ds) then mult * Decimal(ds) else -1
  {
    assert (ds + t)[|ds|] == 13;
    ReadDigitsIs(ds, t, [], mult);
    assert [] + ds == ds;
  }

  lemma ReadLongLongIs(text: seq<Byte>, t: seq<Byte>)
    requires |t| > 0 && t[0] == 13
    ensures CR in text + t && ReadLongLong(text + t) == NumberIn(text)
  {
    hide ReadDigits, Decimal, AllDigits;
    var n := UpToReturn(text);
    var u := (text + t)[|n|..];
    assert text + t == n + u && u[0] == 13;
    ReadDigitsFrom(n, u, 1);
    if |n| > 0 {
      assert (n + u)[1..] == n[1..] + u;
      ReadDigitsFrom(n[1..], u, -1);
      ReadDigitsFrom(n[1..], u, 1);
    }
  }

  // ---------------------------------------------------------------- every spelling is read

  lemma OneLineIs(text: seq<Byte>)
    ensures OneLine(text) <==> forall i: nat :: !CrlfAt(text, i)
  {
    if OneLine(text) {
      forall i: nat ensures !CrlfAt(text, i) {
      }
    } else {
      var i :| 0 <= i < |text| - 1 && text[i] == 13 && text[i + 1] == 10;
      assert CrlfAt(text, i);
    }
  }

  /** A header as ReadItem sees it. */
  lemma SpelledHeader(text: seq<Byte>, u: seq<Byte>)
    requires OneLine(text)
    ensures var s := text + [13, 10] + u;
            && FindCrlf(s) == Some(|text|) && CR in s && ReadLongLong(s) == NumberIn(text)
            && s[..|text|] == text && s[|text| + 2..] == u
  {
    hide FindCrlf, ReadLongLong, NumberIn, CrlfAt, OneLine;
    OneLineIs(text);
    FindCrlfOfLine(text, u);
    Regroup(text, [13, 10], u);
    ReadLongLongIs(text, [13, 10] + u);
  }

  lemma SpelledLayout(sp: Spelling, t: seq<Byte>)
    ensures var s := Written(sp) + t;
            |s| > 0 && s[0] == TypeByte(sp) && s[1..] == sp.text + [13, 10] + (Body(sp) + t)
  {
    hide TypeByte, Body;
  }

  lemma BulkBehind(body: seq<Byte>, end: seq<Byte>, t: seq<Byte>)
    requires |end| == 2
    ensures var u := body + end + t; u[..|body|] == body && u[|body| + 2..] == t
  {
  }

  /** The item that a header line and what follows it are. */
  lemma ItemOfHeader(sp: Spelling, s: seq<Byte>, t: seq<Byte>, depth: nat)
    requires Proper(sp)
    requires FindCrlf(s) == Some(|sp.text|) && CR in s && ReadLongLong(s) == NumberIn(sp.text)
    requires s[..|sp.text|] == sp.text && s[|sp.text| + 2..] == Body(sp) + t
    requires TypeByte(sp) == 42 ==> depth != MAX_DEPTH
    ensures KindOf(TypeByte(sp)).Some?
    ensures ReadItem(KindOf(TypeByte(sp)).value, s, depth) ==
            if sp.Elements? then Open(|sp.kids|, WrittenAll(sp.kids) + t) else Leaf(Meaning(sp), t)
  {
    hide FindCrlf, ReadLongLong, NumberIn, OneLine, WrittenAll, Meanings;
    if sp.Bulk? {
      BulkBehind(sp.body, sp.end, t);
    } else if !sp.Elements? {
      assert [] + t == t;
    }
  }

  /** The item a written reply begins with. */
  lemma SpelledItem(sp: Spelling, t: seq<Byte>, depth: nat)
    requires Proper(sp) && depth <= MAX_DEPTH
    ensures KindOf(TypeByte(sp)).Some?
    ensures var s := Written(sp) + t;
            && |s| > 0 && s[0] == TypeByte(sp)
            && ReadItem(KindOf(s[0]).value, s[1..], depth) ==
            if TypeByte(sp) == 42 && depth == MAX_DEPTH then Fail(TooDeep)
            else if sp.Elements? then Open(|sp.kids|, WrittenAll(sp.kids) + t)
            else Leaf(Meaning(sp), t)
  {
    hide FindCrlf, ReadLongLong, NumberIn, CrlfAt, OneLine, Written, Body, Meaning, WrittenAll;
    var s := Written(sp) + t;
    SpelledLayout(sp, t);
    if TypeByte(sp) != 42 || depth != MAX_DEPTH {
      SpelledHeader(sp.text, Body(sp) + t);
      ItemOfHeader(sp, s[1..], t, depth);
    }
  }

  lemma {:induction false} ParseSpelledAll(kids: seq<Spelling>, t: seq<Byte>, depth: nat, done: seq<Reply>)
    requires depth <= MAX_DEPTH && forall k :: k in kids ==> Proper(k)
    ensures ParseMany(|kids|, WrittenAll(kids) + t, depth, done) ==
            if depth + LevelsAll(kids) <= MAX_DEPTH then Parsed(Arr(done + Meanings(kids)), t) else Bad(TooDeep)
    decreases kids, 1
  {
    hide ParseReply, Written, Proper, Levels, Meaning;
    if |kids| == 0 {
      assert WrittenAll(kids) + t == t && done + Meanings(kids) == done;
    } else {
      var u := WrittenAll(kids[1..]) + t;
      Regroup(Written(kids[0]), WrittenAll(kids[1..]), t);
      ParseSpelled(kids[0], u, depth);
      if depth + Levels(kids[0]) <= MAX_DEPTH {
        var m := Meaning(kids[0]);
        ParseSpelledAll(kids[1..], t, depth, done + [m]);
        Regroup(done, [m], Meanings(kids[1..]));
      }
    }
  }

  lemma {:induction false} ParseSpelled(sp: Spelling, t: seq<Byte>, depth: nat)
    requires Proper(sp) && depth <= MAX_DEPTH
    ensures ParseReply(Written(sp) + t, depth) ==
            if depth + Levels(sp) <= MAX_DEPTH then Parsed(Meaning(sp), t) else Bad(TooDeep)
    decreases sp, 0
  {
    hide ReadItem, NumberIn, OneLine, Written;
    SpelledItem(sp, t, depth);
    var s := Written(sp) + t;
    assert ParseReply(s, depth) == ParseBody(KindOf(s[0]).value, s[1..], depth);
    if sp.Elements? && depth < MAX_DEPTH {
      ParseSpelledAll(sp.kids, t, depth + 1, []);
      assert [] + Meanings(sp.kids) == Meanings(sp.kids);
    }
  }

  // ---------------------------------------------------------------- nothing else is read

  /** The spelling of what the parser has read of an array's elements. */
  lemma {:induction false} SpellingsOf(n: nat, s: seq<Byte>, depth: nat, done: seq<Reply>) returns (kids: seq<Spelling>)
    requires depth <= MAX_DEPTH && ParseMany(n, s, depth, done).Parsed?
    ensures |kids| == n && (forall k :: k in kids ==> Proper(k)) && depth + LevelsAll(kids) <= MAX_DEPTH
    ensures ParseMany(n, s, depth, done).reply == Arr(done + Meanings(kids))
    ensures s == WrittenAll(kids) + ParseMany(n, s, depth, done).rest
    decreases |s|, 1
  {
    hide ParseReply, Written, Proper, Levels, Meaning;
    kids := [];
    if n > 0 {
      var p := ParseReply(s, depth);
      var first := SpellingOf(s, depth);
      var more := SpellingsOf(n - 1, p.rest, depth, done + [p.reply]);
      kids := [first] + more;
      assert kids[1..] == more;
      Regroup(done, [p.reply], Meanings(more));
      Regroup(Written(first), WrittenAll(more), ParseMany(n, s, depth, done).rest);
    } else {
      assert done + Meanings(kids) == done && WrittenAll(kids) + s == s;
    }
  }

  lemma WrittenIs(sp: Spelling, u: seq<Byte>, rest: seq<Byte>)
    requires u == Body(sp) + rest
    ensures [TypeByte(sp)] + (sp.text + [13, 10] + u) == Written(sp) + rest
  {
    hide TypeByte, Body;
  }

  lemma LeafSpelling(k: Byte, s: seq<Byte>, depth: nat) returns (sp: Spelling)
    requires KindOf(k).Some? && depth <= MAX_DEPTH && ReadItem(KindOf(k).value, s, depth).Leaf?
    ensures var item := ReadItem(KindOf(k).value, s, depth);
            && Proper(sp) && depth + Levels(sp) <= MAX_DEPTH
            && Meaning(sp) == item.reply && [k] + s == Written(sp) + item.rest
  {
    hide FindCrlf, ReadLongLong, NumberIn, OneLine, Written, Body, Meaning, Proper;
    var i := FindCrlf(s).value;
    HeaderOf(s, i);
    sp := LeafIs(k, s, depth, i);
    WrittenIs(sp, s[i + 2..], ReadItem(KindOf(k).value, s, depth).rest);
  }

  /** The line of an array with elements. */
  lemma OpenSpelling(k: Kind, s: seq<Byte>, depth: nat) returns (text: seq<Byte>)
    requires ReadItem(k, s, depth).Open?
    ensures var item := ReadItem(k, s, depth);
            OneLine(text) && NumberIn(text) == item.count && s == text + [13, 10] + item.rest
  {
    hide FindCrlf, ReadLongLong, NumberIn, OneLine;
    HeaderOf(s, FindCrlf(s).value);
    text := s[..FindCrlf(s).value];
  }

  /** The spelling of what the parser has read. */
  lemma {:induction false} SpellingOf(s: seq<Byte>, depth: nat) returns (sp: Spelling)
    requires depth <= MAX_DEPTH && ParseReply(s, depth).Parsed?
    ensures Proper(sp) && depth + Levels(sp) <= MAX_DEPTH
    ensures Meaning(sp) == ParseReply(s, depth).reply && s == Written(sp) + ParseReply(s, depth).rest
    decreases |s|, 0
  {
    hide NumberIn, OneLine, ReadItem, Written, ParseMany, WrittenAll;
    var u := s[1..];
    var k := KindOf(s[0]).value;
    assert s == [s[0]] + u;
    var item := ReadItem(k, u, depth);
    if item.Leaf? {
      sp := LeafSpelling(s[0], u, depth);
    } else {
      var text := OpenSpelling(k, u, depth);
      var kids := SpellingsOf(item.count, item.rest, depth + 1, []);
      sp := Elements(text, kids);
      assert [] + Meanings(kids) == Meanings(kids);
      WrittenIs(sp, item.rest, ParseReply(s, depth).rest);
    }
  }

  /** The line in front of the first line end, and the number it holds. */
  lemma HeaderOf(s: seq<Byte>, i: nat)
    requires FindCrlf(s) == Some(i)
    ensures OneLine(s[..i]) && s == s[..i] + [13, 10] + s[i + 2..]
    ensures CR in s && ReadLongLong(s) == NumberIn(s[..i])
  {
    hide FindCrlf, ReadLongLong, NumberIn, OneLine;
    var text := s[..i];
    forall j: nat ensures !CrlfAt(text, j) {
      assert j < i ==> !CrlfAt(s, j);
    }
    OneLineIs(text);
    assert s == text + s[i..];
    ReadLongLongIs(text, s[i..]);
  }

  /** What a leaf's line and what follows it are the spelling of. */
  lemma LeafIs(k: Byte, s: seq<Byte>, depth: nat, i: nat) returns (sp: Spelling)
    requires KindOf(k).Some? && ReadItem(KindOf(k).value, s, depth).Leaf? && FindCrlf(s) == Some(i)
    requires OneLine(s[..i]) && CR in s && ReadLongLong(s) == NumberIn(s[..i])
    ensures var item := ReadItem(KindOf(k).value, s, depth);
            && sp.text == s[..i] && s[i + 2..] == Body(sp) + item.rest && TypeByte(sp) == k
            && Proper(sp) && !sp.Elements? && Meaning(sp) == item.reply && (k == STAR ==> depth != MAX_DEPTH)
  {
    hide FindCrlf, ReadLongLong, NumberIn, OneLine;
    var text, rest := s[..i], s[i + 2..];
    var n := NumberIn(text);
    assert [] + rest == rest;
    match KindOf(k).value
    case KError => sp := ErrorLine(text);
    case KStatus => sp := StatusLine(text);
    case KInteger => sp := IntegerLine(text);
    case KString =>
      if n < 0 {
        sp := NullBulk(text);
      } else {
        sp := Bulk(text, rest[..n], rest[n..n + 2]);
        assert rest == rest[..n] + rest[n..n + 2] + rest[n + 2..];
      }
    case KArray => sp := if n == -1 then NullArray(text) else EmptyArray(text);
  }

  /**
    The grammar and the parser agree both ways: a reply is read off the front of some
    bytes exactly when they begin with a spelling of it of at most eight levels.
   */
  lemma ParsedIff(s: seq<Byte>, r: Reply, rest: seq<Byte>)
    ensures ParseReply(s, 0) == Parsed(r, rest) <==>
            exists sp :: Proper(sp) && Levels(sp) <= 8 && Meaning(sp) == r && s == Written(sp) + rest
  {
    hide ParseReply, Proper, Levels, Meaning, Written;
    if ParseReply(s, 0) == Parsed(r, rest) {
      var sp := SpellingOf(s, 0);
    }
    if sp :| Proper(sp) && Levels(sp) <= 8 && Meaning(sp) == r && s == Written(sp) + rest {
      ParseSpelled(sp, rest, 0);
    }
  }

  // ---------------------------------------------------------------- whole streams

  lemma NothingParses()
    ensures ParseReply([], 0) == More
  {
  }

  /** A stream of spelled replies reads as what they mean, one after another. */
  lemma {:induction false} ParseAllSpelled(sps: seq<Spelling>)
    requires forall sp :: sp in sps ==> Proper(sp) && Levels(sp) <= MAX_DEPTH
    ensures ParseAll(WrittenAll(sps)) == Transcript(Meanings(sps), None)
    decreases |sps|
  {
    hide ParseReply, Proper, Levels, Meaning, Written;
    if |sps| > 0 {
      ParseSpelled(sps[0], WrittenAll(sps[1..]), 0);
      ParseAllSpelled(sps[1..]);
    } else {
      assert ParseReply([], 0) == More by { NothingParses(); }
    }
  }

  /** ... however they are cut, and whenever a reply is asked for on the way. */
  lemma ReaderReadsSpellings(ops: seq<Op>, sps: seq<Spelling>)
    requires forall sp :: sp in sps ==> Proper(sp) && Levels(sp) <= MAX_DEPTH
    requires Stream(ops) == WrittenAll(sps)
    ensures var r := Run(FRESH, ops);
            r.replies + Drain(r.config).replies == Meanings(sps) && r.config.error.None?
  {
    ParseAllSpelled(sps);
    ReaderIgnoresCuts(ops);
  }

  // ---------------------------------------------------------------- in plain bytes

  lemma ParsePlain(sp: Spelling, bytes: seq<Byte>, t: seq<Byte>, depth: nat)
    requires Proper(sp) && depth + Levels(sp) <= MAX_DEPTH && !sp.Elements?
    requires bytes == [TypeByte(sp)] + sp.text + [13, 10] + (if sp.Bulk? then sp.body + sp.end else [])
    ensures ParseReply(bytes + t, depth) == Parsed(Meaning(sp), t)
  {
    hide ParseReply, Proper;
    ParseSpelled(sp, t, depth);
  }

  lemma Alone(text: seq<Byte>)
    requires 13 !in text
    ensures UpToReturn(text) == text
  {
  }

  lemma OneDigit(d: nat)
    requires d < 10
    ensures Decimal([48 + d]) == d
  {
    assert [48 + d][..0] == [];
  }

  lemma SmallNumbers()
    ensures NumberIn([45, 49]) == -1 && NumberIn([45, 50]) == -2
    ensures NumberIn([48]) == 0 && NumberIn([50]) == 2
    ensures NumberIn([43, 49, 48]) == 10 && NumberIn([97]) == -1
  {
    OneDigit(0);
    OneDigit(1);
    OneDigit(2);
    assert [49, 48][..1] == [49];
    assert Decimal([49, 48]) == 10;
    Alone([45, 49]);
    Alone([45, 50]);
    Alone([43, 49, 48]);
    Alone([48]);
    Alone([50]);
    Alone([97]);
    assert [45, 49][1..] == [49];
    assert [45, 50][1..] == [50];
    assert [43, 49, 48][1..] == [49, 48];
    assert !AllDigits([97]) by { assert [97][0] == 97; }
  }

  /** What a line of each type means, byte for byte, in front of anything. */
  lemma PlainLines(t: seq<Byte>, depth: nat)
    requires depth < 8
    ensures ParseReply([42, 45, 49, 13, 10] + t, depth) == Parsed(Nil, t)          // *-1
    ensures ParseReply([36, 45, 49, 13, 10] + t, depth) == Parsed(Nil, t)          // $-1
    ensures ParseReply([42, 48, 13, 10] + t, depth) == Parsed(Arr([]), t)          // *0
    ensures ParseReply([42, 45, 50, 13, 10] + t, depth) == Parsed(Arr([]), t)      // *-2
    ensures ParseReply([43, 79, 75, 13, 10] + t, depth) == Parsed(Status([79, 75]), t)   // +OK
    ensures ParseReply([45, 69, 82, 13, 10] + t, depth) == Parsed(Error([69, 82]), t)    // -ER
  {
    hide ParseReply, NumberIn, Written;
    SmallNumbers();
    ParsePlain(NullArray([45, 49]), [42, 45, 49, 13, 10], t, depth);
    ParsePlain(NullBulk([45, 49]), [36, 45, 49, 13, 10], t, depth);
    ParsePlain(EmptyArray([48]), [42, 48, 13, 10], t, depth);
    ParsePlain(EmptyArray([45, 50]), [42, 45, 50, 13, 10], t, depth);
    ParsePlain(StatusLine([79, 75]), [43, 79, 75, 13, 10], t, depth);
    ParsePlain(ErrorLine([69, 82]), [45, 69, 82, 13, 10], t, depth);
  }

  /** Numbers with either sign, a malformed one, and strings that are long by their header. */
  lemma PlainNumbers(t: seq<Byte>, depth: nat)
    requires depth <= 8
    ensures ParseReply([58, 43, 49, 48, 13, 10] + t, depth) == Parsed(Int(10), t)  // :+10
    ensures ParseReply([58, 45, 50, 13, 10] + t, depth) == Parsed(Int(-2), t)      // :-2
    ensures ParseReply([58, 97, 13, 10] + t, depth) == Parsed(Int(-1), t)          // :a
    ensures ParseReply([36, 48, 13, 10, 13, 10] + t, depth) == Parsed(Str([]), t)  // $0
    ensures ParseReply([36, 50, 13, 10, 13, 10, 13, 10] + t, depth) == Parsed(Str([13, 10]), t)  // $2, a line end
  {
    hide ParseReply, NumberIn, Written;
    SmallNumbers();
    ParsePlain(IntegerLine([43, 49, 48]), [58, 43, 49, 48, 13, 10], t, depth);
    ParsePlain(IntegerLine([45, 50]), [58, 45, 50, 13, 10], t, depth);
    ParsePlain(IntegerLine([97]), [58, 97, 13, 10], t, depth);
    ParsePlain(Bulk([48], [], [13, 10]), [36, 48, 13, 10, 13, 10], t, depth);
    ParsePlain(Bulk([50], [13, 10], [13, 10]), [36, 50, 13, 10, 13, 10, 13, 10], t, depth);
  }

  /** Any other first byte is refused at once, and named. */
  lemma OtherTypeBytes(b: Byte, t: seq<Byte>, depth: nat)
    requires depth <= 8 && b !in {36, 42, 43, 45, 58}
    ensures ParseReply([b] + t, depth) == Bad(BadTypeByte(b))
  {
  }
}
