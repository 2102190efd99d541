/**
  The server's hash storage on top of the command formatter: HMSET is built as one
  space-separated format string, HGETALL comes back as a flat array of fields and values.
 */
module HashCommands {
  import opened Wrappers
  import opened RespGrammar
  import opened CommandFormat

  datatype KeyValue = KeyValue(field: Text, value: Text)

  const HMSET: Text := [72, 77, 83, 69, 84]
  const HGETALL: Text := [72, 71, 69, 84, 65, 76, 76]

  function Flatten(pairs: seq<KeyValue>): seq<Text> {
    if |pairs| == 0 then [] else [pairs[0].field, pairs[0].value] + Flatten(pairs[1..])
  }

  /** Tokens, each preceded by one space. */
  function Spaced(tokens: seq<Text>): (r: Text)
    ensures (forall t :: t in tokens ==> PERCENT !in t) ==> PERCENT !in r
    ensures (forall t :: t in tokens ==> 0 !in t) ==> 0 !in r
  {
    if |tokens| == 0 then [] else [SPACE] + tokens[0] + Spaced(tokens[1..])
  }

  lemma {:induction false} SpacedAppend(a: seq<Text>, b: seq<Text>)
    ensures Spaced(a + b) == Spaced(a) + Spaced(b)
  {
    if |a| == 0 {
      assert a + b == b;
    } else {
      SpacedAppend(a[1..], b);
      var whole := a + b;
      assert whole[0] == a[0] && whole[1..] == a[1..] + b;
      Regroup([SPACE] + a[0], Spaced(a[1..]), Spaced(b));
    }
  }

  function Joined(tokens: seq<Text>): Text
    requires |tokens| > 0
  {
    tokens[0] + Spaced(tokens[1..])
  }

  lemma JoinedLast(tokens: seq<Text>, last: Text)
    requires |tokens| > 0
    ensures Joined(tokens + [last]) == Joined(tokens) + [SPACE] + last
  {
    SpacedAppend(tokens[1..], [last]);
    assert (tokens + [last])[1..] == tokens[1..] + [last];
    assert [last][1..] == [] && Spaced([last]) == [SPACE] + last;
  }

  /** What a C string reader sees: the bytes before the first zero. */
  function CutAtZero(s: Text): (r: Text)
    ensures 0 !in r && (0 !in s ==> r == s) && forall b :: b in r ==> b in s
    ensures r <= s && (|r| < |s| ==> s[|r|] == 0)
  {
    if |s| == 0 || s[0] == 0 then [] else [s[0]] + CutAtZero(s[1..])
  }

  // ---------------------------------------------------------------- text that stands for itself

  /** One piece per byte. */
  function Literal(s: Text): (ps: seq<Piece>)
    ensures |ps| == |s|
  {
    if |s| == 0 then [] else [if s[0] == SPACE then Gap else Insert([s[0]])] + Literal(s[1..])
  }

  lemma {:induction false} LiteralAppend(s: Text, t: Text)
    ensures Literal(s + t) == Literal(s) + Literal(t)
  {
    if |s| == 0 {
      assert s + t == t;
    } else {
      var whole := s + t;
      assert whole[0] == s[0] && whole[1..] == s[1..] + t;
      LiteralAppend(s[1..], t);
    }
  }

  /** Text without percent signs stands for itself in front of any format. */
  lemma {:induction false} LiteralPrefix(s: Text, format: Text, args: seq<Arg>)
    requires PERCENT !in s && Supported(format, args)
    ensures Supported(s + format, args) && Pieces(s + format, args) == Literal(s) + Pieces(format, args)
  {
    if |s| == 0 {
      assert s + format == format;
    } else {
      LiteralPrefix(s[1..], format, args);
      var whole := s + format;
      assert whole[0] == s[0] && whole[1..] == s[1..] + format;
      Regroup(Literal(s)[..1], Literal(s[1..]), Pieces(format, args));
    }
  }

  /** No percent sign but perhaps the last byte. */
  predicate Verbatim(s: Text) {
    forall i :: 0 <= i < |s| - 1 ==> s[i] != PERCENT
  }

  lemma {:induction false} VerbatimPieces(s: Text)
    requires Verbatim(s)
    ensures Supported(s, []) && Pieces(s, []) == Literal(s)
  {
    if |s| > 0 {
      assert s[0] != PERCENT || |s| == 1;
      VerbatimPieces(s[1..]);
    }
  }

  /** How many bytes the pieces insert. */
  function Size(ps: seq<Piece>): nat {
    if |ps| == 0 then 0 else (if ps[0].Insert? then |ps[0].bytes| else 0) + Size(ps[1..])
  }

  lemma SizeAfter(b: Text, ps: seq<Piece>)
    ensures Size([Insert(b)] + ps) == |b| + Size(ps)
  {
    assert ([Insert(b)] + ps)[1..] == ps;
  }

  /** Every doubled percent sign costs a byte. */
  lemma {:induction false} EscapesShrink(s: Text)
    requires Supported(s, [])
    ensures Size(Pieces(s, [])) <= Size(Literal(s))
    ensures Size(Pieces(s, [])) == Size(Literal(s)) ==> Verbatim(s)
    decreases |s|
  {
    if |s| > 0 {
      if s[0] != PERCENT || |s| == 1 {
        EscapesShrink(s[1..]);
        assert forall i :: 0 < i < |s| ==> s[i] == s[1..][i - 1];
      } else {
        var rest := s[2..];
        EscapesShrink(rest);
        assert s[1..][1..] == rest;
        assert Literal(s) == [Insert([PERCENT])] + ([Insert([PERCENT])] + Literal(rest));
        assert Size(Literal(s)) == 2 + Size(Literal(rest)) by {
          SizeAfter([PERCENT], [Insert([PERCENT])] + Literal(rest));
          SizeAfter([PERCENT], Literal(rest));
        }
        SizeAfter([PERCENT], Pieces(rest, []));
      }
    }
  }

  function TotalLength(words: seq<Text>): nat {
    if |words| == 0 then 0 else |words[0]| + TotalLength(words[1..])
  }

  lemma {:induction false} SizeOfHead(ps: seq<Piece>)
    ensures |Head(ps)| + Size(Tail(ps)) == Size(ps)
  {
    if |ps| > 0 && ps[0].Insert? {
      SizeOfHead(ps[1..]);
    }
  }

  /** The words hold every byte inserted. */
  lemma {:induction false} SizeOfWords(ps: seq<Piece>)
    ensures TotalLength(Words(ps)) == Size(ps)
    decreases |ps|
  {
    if |ps| > 0 {
      if ps[0].Gap? {
        SizeOfWords(ps[1..]);
      } else {
        SizeOfHead(ps);
        SizeOfWords(Tail(ps));
        assert ([Head(ps)] + Words(Tail(ps)))[1..] == Words(Tail(ps));
      }
    }
  }

  // ---------------------------------------------------------------- clean tokens

  predicate Clean(t: Text) {
    t != [] && SPACE !in t && 0 !in t
  }

  predicate AllClean(tokens: seq<Text>) {
    forall t :: t in tokens ==> Clean(t)
  }

  lemma HeadOfInsert(b: Text, ps: seq<Piece>)
    ensures Head([Insert(b)] + ps) == b + Head(ps) && Tail([Insert(b)] + ps) == Tail(ps)
  {
    assert ([Insert(b)] + ps)[1..] == ps;
  }

  lemma {:induction false} HeadOfToken(t: Text, ps: seq<Piece>)
    requires SPACE !in t
    requires |ps| == 0 || ps[0].Gap?
    ensures Head(Literal(t) + ps) == t && Tail(Literal(t) + ps) == ps
  {
    if |t| == 0 {
      assert Literal(t) + ps == ps;
    } else {
      hide Head, Tail;
      HeadOfToken(t[1..], ps);
      assert t[0] != SPACE;
      Regroup([Insert([t[0]])], Literal(t[1..]), ps);
      HeadOfInsert([t[0]], Literal(t[1..]) + ps);
      assert t == [t[0]] + t[1..];
    }
  }

  /** A clean token in front of spaced clean tokens is the first word. */
  lemma WordsOfToken(t: Text, tokens: seq<Text>)
    requires Clean(t) && Words(Literal(Spaced(tokens))) == tokens
    ensures Words(Literal(t + Spaced(tokens))) == [t] + tokens
  {
    var rest := Spaced(tokens);
    LiteralAppend(t, rest);
    HeadOfToken(t, Literal(rest));
  }

  lemma {:induction false} WordsOfSpaced(tokens: seq<Text>)
    requires AllClean(tokens)
    ensures Words(Literal(Spaced(tokens))) == tokens
  {
    if |tokens| > 0 {
      var rest := Spaced(tokens[1..]);
      WordsOfSpaced(tokens[1..]);
      WordsOfToken(tokens[0], tokens[1..]);
      assert Spaced(tokens) == [SPACE] + (tokens[0] + rest);
      LiteralAppend([SPACE], tokens[0] + rest);
      assert Literal([SPACE]) == [Gap];
      assert ([Gap] + Literal(tokens[0] + rest))[1..] == Literal(tokens[0] + rest);
    }
  }

  lemma WordsOfJoined(tokens: seq<Text>)
    requires |tokens| > 0 && AllClean(tokens)
    ensures Words(Literal(Joined(tokens))) == tokens && 0 !in Joined(tokens)
  {
    WordsOfSpaced(tokens[1..]);
    WordsOfToken(tokens[0], tokens[1..]);
  }

  // One byte per insertion, none of them a space or a zero.
  predicate SingleBytes(ps: seq<Piece>) {
    forall p :: p in ps && p.Insert? ==> |p.bytes| == 1 && p.bytes[0] != SPACE && p.bytes[0] != 0
  }

  lemma {:induction false} PiecesAreSingleBytes(s: Text)
    requires Supported(s, []) && 0 !in s
    ensures SingleBytes(Pieces(s, []))
    decreases |s|
  {
    if |s| > 0 {
      PiecesAreSingleBytes(if s[0] != PERCENT || |s| == 1 then s[1..] else s[2..]);
    }
  }

  lemma {:induction false} HeadIsClean(ps: seq<Piece>)
    requires SingleBytes(ps)
    ensures SPACE !in Head(ps) && 0 !in Head(ps) && (|ps| > 0 && ps[0].Insert? ==> Head(ps) != [])
    ensures SingleBytes(Tail(ps))
  {
    if |ps| > 0 && ps[0].Insert? {
      HeadIsClean(ps[1..]);
    }
  }

  lemma {:induction false} WordsAreClean(ps: seq<Piece>)
    requires SingleBytes(ps)
    ensures AllClean(Words(ps))
    decreases |ps|
  {
    if |ps| > 0 {
      if ps[0].Gap? {
        WordsAreClean(ps[1..]);
      } else {
        HeadIsClean(ps);
        WordsAreClean(Tail(ps));
      }
    }
  }

  // ---------------------------------------------------------------- what arrives

  /** The text the formatter sees, and takes for a format without arguments. */
  function Sent(tokens: seq<Text>): Text
    requires |tokens| > 0
  {
    CutAtZero(Joined(tokens))
  }

  /** The words the formatter finds in a command string built from tokens. */
  function WordsSent(tokens: seq<Text>): seq<Text>
    requires |tokens| > 0 && Supported(Sent(tokens), [])
  {
    Words(Pieces(Sent(tokens), []))
  }

  /** No percent sign but perhaps the last byte of the last token. */
  predicate PercentOnlyLast(tokens: seq<Text>) {
    forall i :: 0 <= i < |tokens| ==> if i == |tokens| - 1 then Verbatim(tokens[i]) else PERCENT !in tokens[i]
  }

  lemma VerbatimAppend(s: Text, t: Text)
    requires |t| > 0
    ensures Verbatim(s + t) <==> PERCENT !in s && Verbatim(t)
  {
    var whole := s + t;
    assert forall i :: 0 <= i < |s| ==> whole[i] == s[i];
    assert forall i :: 0 <= i < |t| ==> whole[|s| + i] == t[i];
  }

  lemma {:induction false} VerbatimSpaced(tokens: seq<Text>)
    requires AllClean(tokens)
    ensures Verbatim(Spaced(tokens)) <==> PercentOnlyLast(tokens)
  {
    if |tokens| > 0 {
      var t, rest := tokens[0], tokens[1..];
      VerbatimSpaced(rest);
      assert forall i :: 0 <= i < |rest| ==> rest[i] == tokens[i + 1];
      assert Clean(t);
      if |rest| == 0 {
        assert Spaced(tokens) == [SPACE] + t;
        VerbatimAppend([SPACE], t);
      } else {
        VerbatimAppend([SPACE] + t, Spaced(rest));
      }
    }
  }

  lemma VerbatimJoined(tokens: seq<Text>)
    requires |tokens| > 0 && AllClean(tokens)
    ensures Verbatim(Joined(tokens)) <==> PercentOnlyLast(tokens)
  {
    VerbatimSpaced(tokens);
    assert Clean(tokens[0]);
    assert Spaced(tokens) == [SPACE] + Joined(tokens);
    VerbatimAppend([SPACE], Joined(tokens));
  }

  /**
    A command string carries its tokens if and only if every token is non-empty and free of
    spaces and zero bytes, and no percent sign occurs but as the very last byte.  (An empty
    value vanishes and shifts all later fields; a doubled percent sign arrives as one.)
   */
  lemma TokensSurviveIff(tokens: seq<Text>)
    requires |tokens| > 0 && Supported(Sent(tokens), [])
    ensures WordsSent(tokens) == tokens <==> AllClean(tokens) && PercentOnlyLast(tokens)
  {
    var text := Sent(tokens);
    PiecesAreSingleBytes(text);
    WordsAreClean(Pieces(text, []));
    if AllClean(tokens) {
      WordsOfJoined(tokens);
      VerbatimJoined(tokens);
      hide Words, Literal, Pieces, Supported, Verbatim, PercentOnlyLast, Joined, CutAtZero, Clean;
      if Verbatim(text) {
        VerbatimPieces(text);
      } else {
        SizeOfWords(Literal(text));
        SizeOfWords(Pieces(text, []));
        EscapesShrink(text);
      }
    }
  }

  /** Clean tokens with no percent sign before the last byte are always within the formats of the model. */
  lemma CleanTokensAreSupported(tokens: seq<Text>)
    requires |tokens| > 0 && AllClean(tokens) && PercentOnlyLast(tokens)
    ensures Supported(Sent(tokens), [])
  {
    WordsOfJoined(tokens);
    VerbatimJoined(tokens);
    VerbatimPieces(Sent(tokens));
  }

  function SetHashTokens(key: Text, pairs: seq<KeyValue>): seq<Text> {
    [HMSET, key] + Flatten(pairs)
  }

  lemma OnePair(key: Text, p: KeyValue)
    ensures SetHashTokens(key, [p]) == [HMSET, key, p.field, p.value]
  {
    assert [p][1..] == [] && Flatten([p]) == [p.field, p.value] + Flatten([]);
    assert [p.field, p.value] + Flatten([]) == [p.field, p.value];
    assert [HMSET, key] + [p.field, p.value] == [HMSET, key, p.field, p.value];
  }

  /** A concrete loss: a field `f` of the key `k` with an empty value. */
  lemma EmptyValueIsLost()
    ensures var tokens := SetHashTokens([107], [KeyValue([102], [])]);
            Supported(Sent(tokens), []) && WordsSent(tokens) != tokens
  {
    var tokens := SetHashTokens([107], [KeyValue([102], [])]);
    OnePair([107], KeyValue([102], []));
    assert !Clean(tokens[3]);
    VerbatimPieces(Sent(tokens));
    TokensSurviveIff(tokens);
  }

  // ---------------------------------------------------------------- what formats insert

  /** Every percent sign written twice. */
  function Escaped(s: Text): (r: Text)
    ensures 0 !in s ==> 0 !in r
  {
    if |s| == 0 then [] else (if s[0] == 37 then [37, 37] else [s[0]]) + Escaped(s[1..])
  }

  function EscapedAll(tokens: seq<Text>): (r: seq<Text>)
    ensures |r| == |tokens| && forall i :: 0 <= i < |tokens| ==> r[i] == Escaped(tokens[i])
  {
    if |tokens| == 0 then [] else [Escaped(tokens[0])] + EscapedAll(tokens[1..])
  }

  lemma {:induction false} EscapedAppend(s: Text, t: Text)
    ensures Escaped(s + t) == Escaped(s) + Escaped(t)
  {
    if |s| == 0 {
      assert s + t == t;
    } else {
      var whole := s + t;
      assert whole[0] == s[0] && whole[1..] == s[1..] + t;
      EscapedAppend(s[1..], t);
      Regroup(if s[0] == 37 then [37, 37] else [s[0]], Escaped(s[1..]), Escaped(t));
    }
  }

  lemma {:induction false} SpacedEscaped(tokens: seq<Text>)
    ensures Spaced(EscapedAll(tokens)) == Escaped(Spaced(tokens))
  {
    if |tokens| > 0 {
      var t, rest := tokens[0], tokens[1..];
      SpacedEscaped(rest);
      EscapedAppend([SPACE] + t, Spaced(rest));
      EscapedAppend([SPACE], t);
      assert [SPACE][1..] == [] && Escaped([SPACE]) == [SPACE];
      assert EscapedAll(tokens)[1..] == EscapedAll(rest);
    }
  }

  lemma JoinedEscaped(tokens: seq<Text>)
    requires |tokens| > 0
    ensures Joined(EscapedAll(tokens)) == Escaped(Joined(tokens))
  {
    SpacedEscaped(tokens[1..]);
    EscapedAppend(tokens[0], Spaced(tokens[1..]));
  }

  /** Escaped text stands for the text. */
  lemma {:induction false} EscapedPieces(s: Text)
    ensures Supported(Escaped(s), []) && Pieces(Escaped(s), []) == Literal(s)
  {
    if |s| > 0 {
      var format, rest := Escaped(s), Escaped(s[1..]);
      EscapedPieces(s[1..]);
      if s[0] == 37 {
        assert format[0] == 37 && format[1] == 37 && format[2..] == rest;
      } else {
        assert format[0] == s[0] && format[1..] == rest;
      }
    }
  }

  /**
    A caller that doubles every percent sign gets any clean tokens across: each doubled one
    arrives as one.
   */
  lemma EscapedTokensSurvive(tokens: seq<Text>)
    requires |tokens| > 0 && AllClean(tokens)
    ensures Supported(Sent(EscapedAll(tokens)), []) && WordsSent(EscapedAll(tokens)) == tokens
  {
    hide Words, Pieces, Supported, Literal, Clean, Escaped;
    WordsOfJoined(tokens);
    JoinedEscaped(tokens);
    EscapedPieces(Joined(tokens));
  }

  lemma {:induction false} NoPercent(s: Text)
    requires 37 !in s
    ensures Escaped(s) == s
  {
    if |s| > 0 {
      NoPercent(s[1..]);
    }
  }

  lemma AllFourClean(a: Text, b: Text, c: Text, d: Text)
    requires Clean(a) && Clean(b) && Clean(c) && Clean(d)
    ensures AllClean([a, b, c, d])
  {
  }

  lemma AllFourEscaped(a: Text, b: Text, c: Text, d: Text)
    ensures EscapedAll([a, b, c, d]) == [Escaped(a), Escaped(b), Escaped(c), Escaped(d)]
  {
  }

  lemma AllEscaped(kept: seq<Text>, tokens: seq<Text>)
    requires kept == [HMSET, [107], [102], [37]] && tokens == [HMSET, [107], [102], [37, 37]]
    ensures AllClean(tokens) && Supported(Sent(tokens), []) && WordsSent(tokens) == kept
  {
    hide Words, Pieces, Supported, Sent, AllClean, EscapedAll;
    AllFourClean(HMSET, [107], [102], [37]);
    AllFourClean(HMSET, [107], [102], [37, 37]);
    EscapedTokensSurvive(kept);
    AllFourEscaped(HMSET, [107], [102], [37]);
    NoPercent(HMSET);
    NoPercent([107]);
    NoPercent([102]);
    assert [37][1..] == [] && Escaped([37]) == [37, 37];
  }

  /** A concrete loss of another kind: of a value of two percent signs one arrives. */
  lemma DoubledPercentIsLost()
    ensures var tokens := SetHashTokens([107], [KeyValue([102], [37, 37])]);
            && AllClean(tokens) && Supported(Sent(tokens), [])
            && WordsSent(tokens) == [[72, 77, 83, 69, 84], [107], [102], [37]] != tokens
  {
    hide Words, Pieces, Supported, Literal;
    var kept := [HMSET, [107], [102], [37]];
    OnePair([107], KeyValue([102], [37, 37]));
    AllEscaped(kept, [HMSET, [107], [102], [37, 37]]);
    assert kept[3] == [37];
  }

  lemma {:induction false} HeadOfTokenMore(t: Text, ps: seq<Piece>)
    requires 32 !in t && |ps| > 0 && ps[0].Insert?
    ensures var all := Literal(t) + ps;
            all[0].Insert? && Head(all) == t + Head(ps) && Tail(all) == Tail(ps)
  {
    if |t| == 0 {
      assert Literal(t) + ps == ps;
    } else {
      hide Head, Tail;
      HeadOfTokenMore(t[1..], ps);
      Regroup([Insert([t[0]])], Literal(t[1..]), ps);
      HeadOfInsert([t[0]], Literal(t[1..]) + ps);
      Regroup([t[0]], t[1..], Head(ps));
      assert t == [t[0]] + t[1..];
    }
  }

  /** Literal text around an inserted argument is one word, whatever the argument holds. */
  lemma OneWord(a: Text, x: Text, b: Text)
    requires 32 !in a && 32 !in b
    ensures Words(Literal(a) + ([Insert(x)] + Literal(b))) == [a + x + b]
  {
    hide Literal;
    var last := [Insert(x)] + Literal(b);
    assert Literal(b) + [] == Literal(b);
    HeadOfToken(b, []);
    HeadOfInsert(x, Literal(b));
    HeadOfTokenMore(a, last);
    assert Words([]) == [];
    Regroup(a, x, b);
  }

  lemma LiteralAlone(b: Text)
    requires 37 !in b
    ensures Supported(b, []) && Pieces(b, []) == Literal(b)
  {
    LiteralPrefix(b, [], []);
    assert b + [] == b;
  }

  lemma PiecesOfString(x: Text, b: Text)
    requires 37 !in b
    ensures Supported([37, 115] + b, [CString(x)])
    ensures Pieces([37, 115] + b, [CString(x)]) == [Insert(x)] + Literal(b)
  {
    LiteralAlone(b);
    assert ([37, 115] + b)[2..] == b && [CString(x)][1..] == [];
  }

  lemma PiecesOfBinary(x: Text, b: Text)
    requires 37 !in b
    ensures Supported([37, 98] + b, [Binary(x)])
    ensures Pieces([37, 98] + b, [Binary(x)]) == [Insert(x)] + Literal(b)
  {
    LiteralAlone(b);
    assert ([37, 98] + b)[2..] == b && [Binary(x)][1..] == [];
  }

  /** %s puts in a string, whatever it holds. */
  lemma StringInserted(a: Text, x: Text, b: Text)
    requires 32 !in a && 37 !in a && 32 !in b && 37 !in b
    ensures var format := a + ([37, 115] + b);
            Supported(format, [CString(x)]) && Words(Pieces(format, [CString(x)])) == [a + x + b]
  {
    hide Words, Literal, Pieces, Supported;
    PiecesOfString(x, b);
    LiteralPrefix(a, [37, 115] + b, [CString(x)]);
    OneWord(a, x, b);
  }

  /** ... and %b a binary one. */
  lemma BinaryInserted(a: Text, x: Text, b: Text)
    requires 32 !in a && 37 !in a && 32 !in b && 37 !in b
    ensures var format := a + ([37, 98] + b);
            Supported(format, [Binary(x)]) && Words(Pieces(format, [Binary(x)])) == [a + x + b]
  {
    hide Words, Literal, Pieces, Supported;
    PiecesOfBinary(x, b);
    LiteralPrefix(a, [37, 98] + b, [Binary(x)]);
    OneWord(a, x, b);
  }

  lemma {:induction false} FlattenAppend(pairs: seq<KeyValue>, p: KeyValue)
    ensures Flatten(pairs + [p]) == Flatten(pairs) + [p.field, p.value]
  {
    if |pairs| > 0 {
      FlattenAppend(pairs[1..], p);
      assert (pairs + [p])[1..] == pairs[1..] + [p];
    }
  }

  lemma FirstToken(key: Text, pairs: seq<KeyValue>)
    ensures HMSET + [SPACE] + key == HMSET + Spaced([key] + Flatten(pairs[..0]))
    ensures Joined(SetHashTokens(key, pairs)) == HMSET + Spaced([key] + Flatten(pairs[..|pairs|]))
  {
    assert [key] + Flatten(pairs[..0]) == [key];
    assert [key][1..] == [] && Spaced([key]) == [SPACE] + key;
    assert pairs[..|pairs|] == pairs && SetHashTokens(key, pairs)[1..] == [key] + Flatten(pairs);
  }

  lemma TwoTokens(a: Text, b: Text)
    ensures Spaced([a, b]) == [SPACE] + a + [SPACE] + b
  {
    assert [a, b][1..] == [b] && [b][1..] == [] && Spaced([b]) == [SPACE] + b;
  }

  lemma AddPair(key: Text, pairs: seq<KeyValue>, i: nat)
    requires i < |pairs|
    ensures HMSET + Spaced([key] + Flatten(pairs[..i + 1])) ==
            HMSET + Spaced([key] + Flatten(pairs[..i])) + [SPACE] + pairs[i].field + [SPACE] + pairs[i].value
  {
    var p := pairs[i];
    var before, pair := [key] + Flatten(pairs[..i]), [p.field, p.value];
    assert pairs[..i + 1] == pairs[..i] + [p];
    FlattenAppend(pairs[..i], p);
    assert [key] + Flatten(pairs[..i + 1]) == before + pair;
    SpacedAppend(before, pair);
    TwoTokens(p.field, p.value);
  }

  /** Builds the command text pair by pair and hands it to the formatter without arguments. */
  method SetHash(key: Text, pairs: seq<KeyValue>) returns (cmd: Text)
    requires Supported(Sent(SetHashTokens(key, pairs)), [])
    ensures cmd == Encode(Command(WordsSent(SetHashTokens(key, pairs))))
  {
    hide Encode, Words, Pieces, Supported, CutAtZero, Joined;
    var text := HMSET + [SPACE];
    text := text + key;
    FirstToken(key, pairs);
    hide Spaced, Flatten;
    for i := 0 to |pairs|
      invariant text == HMSET + Spaced([key] + Flatten(pairs[..i]))
    {
      ghost var before := Spaced([key] + Flatten(pairs[..i]));
      AddPair(key, pairs, i);
      text := text + [SPACE];
      text := text + pairs[i].field;
      text := text + [SPACE];
      text := text + pairs[i].value;
    }
    cmd := FormatCommand(CutAtZero(text), []);
  }

  // ---------------------------------------------------------------- reading a hash back

  /** Consecutive elements as pairs; a last odd one has no partner. */
  function PairsOf(es: seq<Text>): seq<KeyValue> {
    if |es| < 2 then [] else [KeyValue(es[0], es[1])] + PairsOf(es[2..])
  }

  lemma {:induction false} PairsAt(es: seq<Text>, i: nat)
    requires 2 * i + 1 < |es|
    ensures |PairsOf(es)| == |es| / 2 && PairsOf(es)[i] == KeyValue(es[2 * i], es[2 * i + 1])
  {
    if i > 0 {
      PairsAt(es[2..], i - 1);
    } else if |es| >= 4 {
      PairsAt(es[2..], 0);
    }
  }

  method GetHashAll(elements: seq<Text>) returns (pairs: seq<KeyValue>)
    ensures pairs == PairsOf(elements)
  {
    pairs := [];
    var current := KeyValue([], []);
    assert elements[0..] == elements;
    for i := 0 to |elements|
      invariant i % 2 == 1 ==> current.field == elements[i - 1]
      invariant pairs + PairsOf(elements[i - i % 2..]) == PairsOf(elements)
    {
      if i % 2 == 0 {
        current := current.(field := elements[i]);
      } else {
        current := current.(value := elements[i]);
        pairs := pairs + [current];
        assert elements[i - 1..][2..] == elements[i + 1..];
      }
    }
  }

  lemma {:induction false} PairsOfFlatten(pairs: seq<KeyValue>)
    ensures PairsOf(Flatten(pairs)) == pairs
  {
    if |pairs| > 0 {
      PairsOfFlatten(pairs[1..]);
      assert Flatten(pairs)[2..] == Flatten(pairs[1..]);
    }
  }

  /**
    The whole pipeline: clean pairs written by SetHash arrive as HMSET, the key and the
    flattened pairs, and pairing the flattened elements again gives the original vector.
   */
  lemma HashRoundTrip(key: Text, pairs: seq<KeyValue>)
    requires AllClean(SetHashTokens(key, pairs)) && PercentOnlyLast(SetHashTokens(key, pairs))
    ensures var tokens := SetHashTokens(key, pairs);
            && Supported(Sent(tokens), [])
            && ParseReply(Encode(Command(WordsSent(tokens))), 0) == Parsed(Command(tokens), [])
            && PairsOf(tokens[2..]) == pairs
  {
    var tokens := SetHashTokens(key, pairs);
    CleanTokensAreSupported(tokens);
    TokensSurviveIff(tokens);
    CommandReadsBack(tokens, []);
    assert Encode(Command(tokens)) + [] == Encode(Command(tokens));
    assert tokens[2..] == Flatten(pairs);
    PairsOfFlatten(pairs);
  }

  const KEY_ARGUMENT: Text := [PERCENT, LOWER_S]
  const GETALL_FORMAT: Text := HGETALL + [SPACE, SPACE] + KEY_ARGUMENT

  lemma KeyArgumentPieces(key: Text)
    ensures Supported(KEY_ARGUMENT, [CString(key)]) && Pieces(KEY_ARGUMENT, [CString(key)]) == [Insert(key)]
  {
    assert KEY_ARGUMENT[2..] == [] && [CString(key)][1..] == [];
  }

  lemma LiteralGaps()
    ensures Literal([SPACE, SPACE]) == [Gap, Gap]
  {
    var two: Text, one: Text := [SPACE, SPACE], [SPACE];
    assert two[1..] == one && one[1..] == [];
    assert Literal(one) == [Gap] + Literal([]) == [Gap];
    assert Literal(two) == [Gap] + Literal(one);
  }

  lemma GetAllPieces(key: Text)
    ensures Supported(GETALL_FORMAT, [CString(key)])
    ensures Pieces(GETALL_FORMAT, [CString(key)]) == Literal(HGETALL) + [Gap, Gap, Insert(key)]
  {
    hide Supported, Pieces, Literal;
    var gaps, args := [SPACE, SPACE], [CString(key)];
    KeyArgumentPieces(key);
    LiteralPrefix(gaps, KEY_ARGUMENT, args);
    LiteralPrefix(HGETALL, gaps + KEY_ARGUMENT, args);
    assert GETALL_FORMAT == HGETALL + (gaps + KEY_ARGUMENT);
    LiteralGaps();
    assert [Gap, Gap] + [Insert(key)] == [Gap, Gap, Insert(key)];
  }

  lemma LiteralStartsWithInsert(t: Text)
    requires Clean(t)
    ensures |Literal(t)| > 0 && Literal(t)[0].Insert?
  {
  }

  /** The read command passes its key as an argument, so any key arrives whole. */
  lemma GetHashAllKeyIsSafe(key: Text)
    ensures Supported(GETALL_FORMAT, [CString(key)])
    ensures Words(Pieces(GETALL_FORMAT, [CString(key)])) == [[72, 71, 69, 84, 65, 76, 76], key]
  {
    hide Literal, Supported, Pieces;
    GetAllPieces(key);
    var rest := [Gap, Gap, Insert(key)];
    HeadOfToken(HGETALL, rest);
    assert rest[1..] == [Gap, Insert(key)] && rest[1..][1..] == [Insert(key)];
    var last := [Insert(key)];
    assert last[1..] == [] && Head(last) == key + [] == key && Tail(last) == [];
    assert Words(last) == [Head(last)] + Words([]);
    assert Words([Gap, Insert(key)]) == Words(last) by {
      assert [Gap, Insert(key)][1..] == last;
    }
    assert Words(rest) == Words([Gap, Insert(key)]) == [key];
    LiteralStartsWithInsert(HGETALL);
  }
}
