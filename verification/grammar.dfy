/** The language that the request parser accepts, written down without its state machine. */
module RequestGrammar {
  import opened Wire
  import opened Parser

  /** A line of the head after the first: a header, or the continuation of the header before it. */
  datatype Line =
    | Field(name: string, value: string)
    | Fold(blanks: string, text: string)

  /** A request as it is written. */
  datatype Form = Form(verb: string, uri: string, major: string, minor: string, lines: seq<Line>, content: string)

  function WrittenLine(l: Line): string
  {
    match l
    case Field(name, value) => name + ": " + value + "\r\n"
    case Fold(blanks, text) => blanks + text + "\r\n"
  }

  function WrittenLines(ls: seq<Line>): string
  {
    if ls == [] then "" else WrittenLine(ls[0]) + WrittenLines(ls[1..])
  }

  function Written(f: Form): string
  {
    f.verb + " " + (f.uri + " " + ("HTTP/" + (f.major + "." + (f.minor + "\r\n" + (WrittenLines(f.lines) + ("\r\n" +
    f.content))))))
  }

  predicate Printable(s: string) { forall c :: c in s ==> !IsCtl(c) }

  predicate Digits(s: string) { forall c :: c in s ==> IsDigit(c) }

  predicate Blanks(s: string) { forall c :: c in s ==> c == ' ' || c == '\t' }

  /** A continuation starts with blanks; what follows them does not. */
  predicate GoodLine(l: Line)
  {
    match l
    case Field(name, value) => name != "" && AllTokens(name) && Printable(value)
    case Fold(blanks, text) =>
      blanks != "" && Blanks(blanks) && Printable(text) && (text != "" ==> text[0] != ' ')
  }

  /** The first line continues nothing unless there is a header already. */
  predicate GoodLines(continues: bool, ls: seq<Line>)
    decreases |ls|
  {
    ls == [] || (GoodLine(ls[0]) && (ls[0].Fold? ==> continues) && GoodLines(true, ls[1..]))
  }

  /** The headers after one more line: a continuation adds its text to the last value. */
  function Extend(hs: seq<Header>, l: Line): seq<Header>
  {
    match l
    case Field(name, value) => hs + [Header(name, value)]
    case Fold(_, text) =>
      if hs == [] then []
      else hs[|hs| - 1 := Header(hs[|hs| - 1].name, hs[|hs| - 1].value + text)]
  }

  function ExtendAll(hs: seq<Header>, ls: seq<Line>): seq<Header>
    decreases |ls|
  {
    if ls == [] then hs else ExtendAll(Extend(hs, ls[0]), ls[1..])
  }

  predicate GoodForm(f: Form)
  {
    && f.verb != "" && AllTokens(f.verb)
    && Printable(f.uri) && ' ' !in f.uri
    && f.major != "" && Digits(f.major) && f.minor != "" && Digits(f.minor)
    && GoodLines(false, f.lines)
    && if f.verb == "POST" then
         2 <= |f.content| <= 10241 && ContentLength(ExtendAll([], f.lines)) == Some(|f.content|)
       else f.content == ""
  }

  /** The request that is meant. */
  function Meaning(f: Form): Request
  {
    Request(f.verb, f.uri, DigitsValue(0, f.major), DigitsValue(0, f.minor), ExtendAll([], f.lines), f.content)
  }

  // ---------------------------------------------------------------- what is written is accepted

  lemma {:induction false} FeedBlanks(s: State, blanks: string, text: string, rest: string)
    requires s.stage == HeaderLws && s.req.headers != [] && Blanks(blanks)
    requires Printable(text) && (text != "" ==> text[0] != ' ')
    ensures Feed(s, blanks + text + "\r\n" + rest) == Feed(Move(Valued(s, text), HeaderLineStart), rest)
    decreases |blanks|
  {
    hide Feed, Valued, PushValue;
    if blanks == "" {
      assert blanks + text + "\r\n" + rest == text + "\r\n" + rest;
      FeedText(s, text, rest);
    } else {
      assert blanks + text + "\r\n" + rest == [blanks[0]] + (blanks[1..] + text + "\r\n" + rest);
      assert blanks[0] in blanks;
      FeedStep(s, blanks[0], blanks[1..] + text + "\r\n" + rest);
      assert forall c :: c in blanks[1..] ==> c in blanks;
      FeedBlanks(s, blanks[1..], text, rest);
    }
  }

  lemma FeedText(s: State, text: string, rest: string)
    requires s.stage == HeaderLws && s.req.headers != [] && Printable(text) && (text != "" ==> text[0] != ' ')
    ensures Feed(s, text + "\r\n" + rest) == Feed(Move(Valued(s, text), HeaderLineStart), rest)
  {
    hide Feed, Valued, PushValue;
    if text == "" {
      ValuedStep(s, ' ', "");
      assert text + "\r\n" + rest == ['\r'] + (['\n'] + rest);
      FeedStep(s, '\r', ['\n'] + rest);
      FeedStep(Move(s, Newline2), '\n', rest);
    } else {
      var c := text[0];
      assert c in text && c != '\t' && c != '\r';
      assert text + "\r\n" + rest == [c] + (text[1..] + "\r\n" + rest);
      FeedStep(s, c, text[1..] + "\r\n" + rest);
      PushNameStays(s, c);
      var s1 := Move(PushValue(s, c), HeaderValue);
      FeedValue(s1, text[1..], rest);
      MovedValue(s, c, text[1..]);
      assert text == [c] + text[1..];
    }
  }

  lemma MovedValue(s: State, c: char, v: string)
    requires s.req.headers != []
    ensures var s1 := Move(PushValue(s, c), HeaderValue);
            s1.req.headers != [] && Move(Valued(s1, v), HeaderLineStart) == Move(Valued(s, [c] + v), HeaderLineStart)
  {
    ValuedStep(s, c, v);
  }

  function WithHeaders(s: State, hs: seq<Header>): State
  {
    s.(req := s.req.(headers := hs))
  }

  /** One line of the head. In particular a continuation adds its text to the last header's value. */
  lemma {:induction false} FeedLine(s: State, l: Line, rest: string)
    requires s.stage == HeaderLineStart && GoodLine(l) && (l.Fold? ==> s.req.headers != [])
    ensures Feed(s, WrittenLine(l) + rest) == Feed(WithHeaders(s, Extend(s.req.headers, l)), rest)
  {
    hide Feed, IsToken, IsCtl;
    match l
    case Field(name, value) =>
      FeedHeader(s, Header(name, value), rest);
    case Fold(blanks, text) =>
      assert blanks + text + "\r\n" + rest == [blanks[0]] + (blanks[1..] + text + "\r\n" + rest);
      assert blanks[0] in blanks;
      FeedStep(s, blanks[0], blanks[1..] + text + "\r\n" + rest);
      assert forall c :: c in blanks[1..] ==> c in blanks;
      FeedBlanks(Move(s, HeaderLws), blanks[1..], text, rest);
  }

  lemma ExtendKeeps(hs: seq<Header>, l: Line)
    ensures hs != [] || l.Field? ==> Extend(hs, l) != []
  {
  }

  lemma {:induction false} FeedLines(s: State, ls: seq<Line>, rest: string)
    requires s.stage == HeaderLineStart && GoodLines(s.req.headers != [], ls)
    ensures Feed(s, WrittenLines(ls) + rest) == Feed(WithHeaders(s, ExtendAll(s.req.headers, ls)), rest)
    decreases |ls|
  {
    hide Feed, GoodLine, WrittenLine, Extend;
    if ls == [] {
      assert WrittenLines(ls) + rest == rest;
    } else {
      var l, tail := ls[0], WrittenLines(ls[1..]) + rest;
      assert WrittenLines(ls) + rest == WrittenLine(l) + tail;
      FeedLine(s, l, tail);
      ExtendKeeps(s.req.headers, l);
      FeedLines(WithHeaders(s, Extend(s.req.headers, l)), ls[1..], rest);
    }
  }

  lemma FeedMajorString(s: State, ds: string, rest: string)
    requires s.stage == MajorStart && s.req.major == 0 && ds != "" && Digits(ds)
    ensures Feed(s, ds + "." + rest) == Feed(Move(s.(req := s.req.(major := DigitsValue(0, ds))), MinorStart), rest)
  {
    hide Feed;
    assert ds + "." + rest == [ds[0]] + (ds[1..] + "." + rest);
    assert ds[0] in ds;
    FeedStep(s, ds[0], ds[1..] + "." + rest);
    FeedMajorDigits(Move(PushMajor(s, ds[0]), Major), ds[1..], rest);
  }

  lemma FeedMinorString(s: State, ds: string, rest: string)
    requires s.stage == MinorStart && s.req.minor == 0 && ds != "" && Digits(ds)
    ensures Feed(s, ds + "\r\n" + rest) ==
            Feed(Move(s.(req := s.req.(minor := DigitsValue(0, ds))), HeaderLineStart), rest)
  {
    hide Feed;
    assert ds + "\r\n" + rest == [ds[0]] + (ds[1..] + "\r\n" + rest);
    assert ds[0] in ds;
    FeedStep(s, ds[0], ds[1..] + "\r\n" + rest);
    FeedMinorDigits(Move(PushMinor(s, ds[0]), Minor), ds[1..], rest);
  }

  /** The request line, on a parser with a new request. */
  lemma FeedRequestLine(s: State, verb: string, uri: string, major: string, minor: string, rest: string)
    requires s.stage == MethodStart && Blank(s.req) && verb != "" && AllTokens(verb) && Printable(uri) && ' ' !in uri
    requires major != "" && Digits(major) && minor != "" && Digits(minor)
    ensures Feed(s, verb + " " + (uri + " " + ("HTTP/" + (major + "." + (minor + "\r\n" + rest))))) ==
            Feed(State(HeaderLineStart, s.postSize, s.postCount,
                       Request(verb, uri, DigitsValue(0, major), DigitsValue(0, minor), [], "")), rest)
  {
    hide Feed, IsToken, IsCtl, DigitsValue;
    var r4 := minor + "\r\n" + rest;
    var r3 := major + "." + r4;
    var r2 := "HTTP/" + r3;
    FeedVerb(s, verb, uri + " " + r2);
    var s1 := Move(s.(req := s.req.(verb := verb)), Uri);
    FeedUri(s1, uri, r2);
    assert "" + uri == uri;
    var s2 := Move(s1.(req := s1.req.(uri := uri)), VersionH);
    FeedProtocol(s2, r3);
    var s3 := Move(s2.(req := s2.req.(major := 0, minor := 0)), MajorStart);
    FeedMajorString(s3, major, r4);
    FeedMinorString(Move(s3.(req := s3.req.(major := DigitsValue(0, major))), MinorStart), minor, rest);
  }

  /** The end of the head and the content, on a parser that has counted none. */
  lemma FeedEnd(s: State, content: string, rest: string)
    requires s.stage == HeaderLineStart && s.postSize == 0 && s.postCount == 0 && s.req.content == ""
    requires if s.req.verb == "POST" then
               2 <= |content| <= 10241 && ContentLength(s.req.headers) == Some(|content|)
             else content == ""
    ensures var o := Feed(s, "\r\n" + content + rest);
            o.result == Good && o.s.req == s.req.(content := content) && o.rest == rest
  {
    hide Feed, ContentLength;
    assert "\r\n" + content + rest == ['\r'] + ("\n" + content + rest);
    FeedStep(s, '\r', "\n" + content + rest);
    if s.req.verb == "POST" {
      ContentLengthExact(Move(s, Newline3), content, rest);
    } else {
      assert "\n" + content + rest == "\n" + rest;
      EndsHere(Move(s, Newline3), rest);
    }
  }

  /** Whatever is written in this language is accepted at its last byte, as the request that is meant. */
  lemma {:induction false} WrittenAccepted(s: State, f: Form, rest: string)
    requires Fresh(s) && GoodForm(f)
    ensures var o := Feed(s, Written(f) + rest); o.result == Good && o.s.req == Meaning(f) && o.rest == rest
  {
    hide Feed, IsToken, IsCtl, DigitsValue, ContentLength, GoodLines, WrittenLines, ExtendAll;
    var end := "\r\n" + f.content + rest;
    var lines := WrittenLines(f.lines) + end;
    WrittenParts(f, rest);
    FeedRequestLine(s, f.verb, f.uri, f.major, f.minor, lines);
    var s1 := State(HeaderLineStart, s.postSize, s.postCount,
                    Request(f.verb, f.uri, DigitsValue(0, f.major), DigitsValue(0, f.minor), [], ""));
    FeedLines(s1, f.lines, end);
    FeedEnd(WithHeaders(s1, ExtendAll([], f.lines)), f.content, rest);
  }

  lemma WrittenParts(f: Form, rest: string)
    ensures Written(f) + rest ==
            f.verb + " " + (f.uri + " " + ("HTTP/" + (f.major + "." + (f.minor + "\r\n" +
            (WrittenLines(f.lines) + ("\r\n" + f.content + rest))))))
  {
    hide WrittenLines;
    var h := WrittenLines(f.lines) + ("\r\n" + f.content);
    var m := f.minor + "\r\n" + h;
    var j := f.major + "." + m;
    var p := "HTTP/" + j;
    var u := f.uri + " " + p;
    assert h + rest == WrittenLines(f.lines) + ("\r\n" + f.content + rest);
    assert m + rest == f.minor + "\r\n" + (h + rest);
    assert j + rest == f.major + "." + (m + rest);
    assert p + rest == "HTTP/" + (j + rest);
    assert u + rest == f.uri + " " + (p + rest);
    assert Written(f) + rest == f.verb + " " + (u + rest);
  }

  // ---------------------------------------------------------------- what is accepted is written

  /** The parser goes on to a good end. */
  ghost predicate Ends(s: State, input: string)
    requires Staged(s)
  {
    Feed(s, input).result == Good
  }

  /** Then there is a first byte, and after it the request is good or the parser goes on to a good end. */
  lemma FirstChar(s: State, input: string)
    requires Staged(s) && Ends(s, input)
    ensures input != "" && input == [input[0]] + input[1..]
    ensures var (s1, r) := Consume(s, input[0]); r != Bad && (r == Indeterminate ==> Ends(s1, input[1..]))
  {
    hide Consume;
  }

  lemma {:induction false} SplitMethod(s: State, input: string) returns (m: string, rest: string)
    requires s.stage == Method && Ends(s, input)
    ensures AllTokens(m) && input == m + " " + rest
    decreases |input|
  {
    hide Ends, IsToken;
    FirstChar(s, input);
    if input[0] == ' ' {
      m, rest := "", input[1..];
    } else {
      m, rest := SplitMethod(PushMethod(s, input[0]), input[1..]);
      m := [input[0]] + m;
    }
  }

  lemma SplitVerb(s: State, input: string) returns (m: string, rest: string)
    requires s.stage == MethodStart && Ends(s, input)
    ensures m != "" && AllTokens(m) && input == m + " " + rest
  {
    hide Ends, IsToken;
    FirstChar(s, input);
    m, rest := SplitMethod(Move(PushMethod(s, input[0]), Method), input[1..]);
    m := [input[0]] + m;
  }

  lemma {:induction false} SplitUri(s: State, input: string) returns (u: string, rest: string)
    requires s.stage == Uri && Ends(s, input)
    ensures Printable(u) && ' ' !in u && input == u + " " + rest
    decreases |input|
  {
    hide Ends, IsCtl;
    FirstChar(s, input);
    if input[0] == ' ' {
      u, rest := "", input[1..];
    } else {
      u, rest := SplitUri(PushUri(s, input[0]), input[1..]);
      u := [input[0]] + u;
    }
  }

  lemma SplitProtocol(s: State, input: string) returns (rest: string)
    requires s.stage == VersionH && Ends(s, input)
    ensures input == "HTTP/" + rest
  {
    hide Ends;
    FirstChar(s, input);
    var r1 := input[1..];
    FirstChar(Move(s, VersionT1), r1);
    var r2 := r1[1..];
    FirstChar(Move(s, VersionT2), r2);
    rest := SplitProtocolEnd(Move(s, VersionP), r2[1..]);
    assert "HTTP/" + rest == ['H'] + (['T'] + (['T'] + ("P/" + rest)));
  }

  lemma SplitProtocolEnd(s: State, input: string) returns (rest: string)
    requires s.stage == VersionP && Ends(s, input)
    ensures input == "P/" + rest
  {
    hide Ends;
    FirstChar(s, input);
    FirstChar(Move(s, VersionSlash), input[1..]);
    rest := input[2..];
  }

  lemma {:induction false} SplitMajorDigits(s: State, input: string) returns (ds: string, rest: string)
    requires s.stage == Major && Ends(s, input)
    ensures Digits(ds) && input == ds + "." + rest
    decreases |input|
  {
    hide Ends, IsDigit;
    FirstChar(s, input);
    if input[0] == '.' {
      ds, rest := "", input[1..];
    } else {
      ds, rest := SplitMajorDigits(PushMajor(s, input[0]), input[1..]);
      ds := [input[0]] + ds;
    }
  }

  lemma SplitMajor(s: State, input: string) returns (ds: string, rest: string)
    requires s.stage == MajorStart && Ends(s, input)
    ensures ds != "" && Digits(ds) && input == ds + "." + rest
  {
    hide Ends, IsDigit;
    FirstChar(s, input);
    ds, rest := SplitMajorDigits(Move(PushMajor(s, input[0]), Major), input[1..]);
    ds := [input[0]] + ds;
  }

  lemma SplitNewline(s: State, input: string) returns (rest: string)
    requires s.stage in {Newline1, Newline2} && Ends(s, input)
    ensures input == "\n" + rest && Ends(Move(s, HeaderLineStart), rest)
  {
    hide Ends;
    FirstChar(s, input);
    rest := input[1..];
  }

  lemma {:induction false} SplitMinorDigits(s: State, input: string) returns (ds: string, rest: string)
    requires s.stage == Minor && Ends(s, input)
    ensures Digits(ds) && input == ds + "\r\n" + rest
    decreases |input|
  {
    hide Ends, IsDigit;
    FirstChar(s, input);
    if input[0] == '\r' {
      ds := "";
      rest := SplitNewline(Move(s, Newline1), input[1..]);
    } else {
      ds, rest := SplitMinorDigits(PushMinor(s, input[0]), input[1..]);
      ds := [input[0]] + ds;
    }
  }

  lemma SplitMinor(s: State, input: string) returns (ds: string, rest: string)
    requires s.stage == MinorStart && Ends(s, input)
    ensures ds != "" && Digits(ds) && input == ds + "\r\n" + rest
  {
    hide Ends, IsDigit;
    FirstChar(s, input);
    ds, rest := SplitMinorDigits(Move(PushMinor(s, input[0]), Minor), input[1..]);
    ds := [input[0]] + ds;
  }

  lemma {:induction false} SplitValue(s: State, input: string) returns (v: string, rest: string)
    requires s.stage == HeaderValue && s.req.headers != [] && Ends(s, input)
    ensures Printable(v) && input == v + "\r\n" + rest
    decreases |input|
  {
    hide Ends, IsCtl, PushValue;
    FirstChar(s, input);
    if input[0] == '\r' {
      v := "";
      rest := SplitNewline(Move(s, Newline2), input[1..]);
    } else {
      PushNameStays(s, input[0]);
      v, rest := SplitValue(PushValue(s, input[0]), input[1..]);
      v := [input[0]] + v;
    }
  }

  lemma {:induction false} SplitName(s: State, input: string) returns (n: string, rest: string)
    requires s.stage == HeaderName && s.req.headers != [] && Ends(s, input)
    ensures AllTokens(n) && input == n + ": " + rest
    decreases |input|
  {
    hide Ends, IsToken, PushName;
    FirstChar(s, input);
    if input[0] == ':' {
      FirstChar(Move(s, SpaceBeforeValue), input[1..]);
      n, rest := "", input[2..];
    } else {
      PushNameStays(s, input[0]);
      n, rest := SplitName(PushName(s, input[0]), input[1..]);
      n := [input[0]] + n;
    }
  }

  lemma {:induction false} SplitFold(s: State, input: string) returns (blanks: string, text: string, rest: string)
    requires s.stage == HeaderLws && s.req.headers != [] && Ends(s, input)
    ensures Blanks(blanks) && Printable(text) && (text != "" ==> text[0] != ' ')
    ensures input == blanks + text + "\r\n" + rest
    decreases |input|
  {
    hide Ends, IsCtl, PushValue;
    FirstChar(s, input);
    var c := input[0];
    if c == '\r' {
      blanks, text := "", "";
      rest := SplitNewline(Move(s, Newline2), input[1..]);
    } else if c == ' ' || c == '\t' {
      blanks, text, rest := SplitFold(s, input[1..]);
      blanks := [c] + blanks;
    } else {
      PushNameStays(s, c);
      text, rest := SplitValue(Move(PushValue(s, c), HeaderValue), input[1..]);
      blanks, text := "", [c] + text;
    }
  }

  /** The next line of the head, unless that is the empty one. */
  lemma SplitLine(s: State, input: string) returns (l: Line, rest: string)
    requires s.stage == HeaderLineStart && Ends(s, input) && input != "" && input[0] != '\r'
    ensures GoodLine(l) && (l.Fold? ==> s.req.headers != []) && input == WrittenLine(l) + rest
  {
    hide Ends, IsToken, IsCtl;
    FirstChar(s, input);
    var c := input[0];
    if s.req.headers != [] && (c == ' ' || c == '\t') {
      var blanks, text;
      blanks, text, rest := SplitFold(Move(s, HeaderLws), input[1..]);
      l := Fold([c] + blanks, text);
    } else {
      l, rest := SplitField(s, input);
    }
  }

  lemma SplitField(s: State, input: string) returns (l: Line, rest: string)
    requires s.stage == HeaderLineStart && Ends(s, input) && input != "" && IsToken(input[0])
    ensures GoodLine(l) && l.Field? && input == WrittenLine(l) + rest
  {
    hide Ends, IsToken, IsCtl, Feed;
    FirstChar(s, input);
    SpaceIsNoToken(input[0]);
    var s1 := Move(AddHeader(s, Header([input[0]], "")), HeaderName);
    var n, tail := SplitName(s1, input[1..]);
    FeedName(s1, n, tail);
    assert Ends(Move(Named(s1, n), HeaderValue), tail) by {
      assert Feed(s1, input[1..]).result == Good by { EndsUnfolded(s1, input[1..]); }
      EndsUnfolded(Move(Named(s1, n), HeaderValue), tail);
    }
    var v;
    v, rest := SplitValue(Move(Named(s1, n), HeaderValue), tail);
    l := Field([input[0]] + n, v);
  }

  lemma EndsUnfolded(s: State, input: string)
    requires Staged(s)
    ensures Ends(s, input) <==> Feed(s, input).result == Good
  {
    hide Feed;
  }

  /** All lines of the head. */
  lemma {:induction false} SplitLines(s: State, input: string) returns (ls: seq<Line>, rest: string)
    requires s.stage == HeaderLineStart && Ends(s, input)
    ensures GoodLines(s.req.headers != [], ls) && input == WrittenLines(ls) + rest && rest != "" && rest[0] == '\r'
    ensures Ends(WithHeaders(s, ExtendAll(s.req.headers, ls)), rest)
    decreases |input|
  {
    hide Ends, GoodLine, WrittenLine, Extend, Feed;
    FirstChar(s, input);
    if input[0] == '\r' {
      ls, rest := [], input;
    } else {
      var l, tail := SplitLine(s, input);
      FeedLine(s, l, tail);
      var s1 := WithHeaders(s, Extend(s.req.headers, l));
      EndsUnfolded(s, input);
      EndsUnfolded(s1, tail);
      ExtendKeeps(s.req.headers, l);
      LineNotEmpty(l);
      var others;
      others, rest := SplitLines(s1, tail);
      ls := [l] + others;
    }
  }

  lemma LineNotEmpty(l: Line)
    ensures |WrittenLine(l)| > 0
  {
  }

  /** Content that is too short leaves the parser waiting. */
  lemma {:induction false} ContentMissing(s: State, input: string)
    requires s.stage == ReadContent && 0 <= s.postCount <= s.postSize && |input| <= s.postSize - s.postCount
    ensures Feed(s, input).result == Indeterminate
    decreases |input|
  {
    if input != "" {
      ContentMissing(PushContent(s, input[0]).0, input[1..]);
    }
  }

  /** The empty line, and the content of a POST. */
  lemma SplitEnd(s: State, input: string) returns (content: string, rest: string)
    requires s.stage == HeaderLineStart && s.postSize == 0 && s.postCount == 0 && s.req.content == ""
    requires Ends(s, input) && input != "" && input[0] == '\r'
    ensures input == "\r\n" + content + rest
    ensures if s.req.verb == "POST" then
              2 <= |content| <= 10241 && ContentLength(s.req.headers) == Some(|content|)
            else content == ""
  {
    hide Ends, ContentLength, Feed;
    FirstChar(s, input);
    var s1 := Move(s, Newline3);
    FirstChar(s1, input[1..]);
    if s.req.verb == "POST" {
      var tail := input[2..];
      var reading := EndHeaders(s1).0;
      EndsUnfolded(reading, tail);
      if |tail| <= reading.postSize {
        ContentMissing(reading, tail);
      }
      content, rest := tail[..reading.postSize + 1], tail[reading.postSize + 1..];
    } else {
      content, rest := "", input[2..];
    }
  }

  /** Whatever a fresh parser accepts is written in the language. */
  lemma AcceptedWritten(s: State, input: string) returns (f: Form, rest: string)
    requires Fresh(s) && Ends(s, input)
    ensures GoodForm(f) && input == Written(f) + rest
  {
    hide Ends, IsToken, IsCtl, IsDigit, DigitsValue, ContentLength, GoodLines, WrittenLines, ExtendAll, Feed;
    var verb, uri, major, minor, lines := SplitRequestLine(s, input);
    FeedRequestLine(s, verb, uri, major, minor, lines);
    var s1 := State(HeaderLineStart, s.postSize, s.postCount,
                    Request(verb, uri, DigitsValue(0, major), DigitsValue(0, minor), [], ""));
    EndsUnfolded(s, input);
    EndsUnfolded(s1, lines);
    var ls, end := SplitLines(s1, lines);
    var content;
    content, rest := SplitEnd(WithHeaders(s1, ExtendAll([], ls)), end);
    f := Form(verb, uri, major, minor, ls, content);
    WrittenParts(f, rest);
  }

  lemma SplitRequestLine(s: State, input: string)
    returns (verb: string, uri: string, major: string, minor: string, rest: string)
    requires Fresh(s) && Ends(s, input)
    ensures verb != "" && AllTokens(verb) && Printable(uri) && ' ' !in uri
    ensures major != "" && Digits(major) && minor != "" && Digits(minor)
    ensures input == verb + " " + (uri + " " + ("HTTP/" + (major + "." + (minor + "\r\n" + rest))))
  {
    hide Ends, IsToken, IsCtl, IsDigit, Feed;
    var r1, r2, r3, r4;
    verb, r1 := SplitVerb(s, input);
    FeedVerb(s, verb, r1);
    var s1 := Move(s.(req := s.req.(verb := verb)), Uri);
    Continues(s, input, s1, r1);
    uri, r2 := SplitUri(s1, r1);
    FeedUri(s1, uri, r2);
    assert "" + uri == uri;
    var s2 := Move(s1.(req := s1.req.(uri := uri)), VersionH);
    Continues(s1, r1, s2, r2);
    r3 := SplitProtocol(s2, r2);
    FeedProtocol(s2, r3);
    var s3 := Move(s2.(req := s2.req.(major := 0, minor := 0)), MajorStart);
    Continues(s2, r2, s3, r3);
    major, r4 := SplitMajor(s3, r3);
    FeedMajorString(s3, major, r4);
    var s4 := Move(s3.(req := s3.req.(major := DigitsValue(0, major))), MinorStart);
    Continues(s3, r3, s4, r4);
    minor, rest := SplitMinor(s4, r4);
  }

  lemma Continues(s: State, input: string, s1: State, rest: string)
    requires Staged(s) && Staged(s1) && Ends(s, input) && Feed(s, input) == Feed(s1, rest)
    ensures Ends(s1, rest)
  {
    hide Feed;
  }

  /** A fresh parser accepts an input if and only if that starts with a request written in the language. The request
      is then the one that is meant, and what follows it is left over. */
  lemma {:induction false} AcceptedIff(s: State, input: string)
    requires Fresh(s)
    ensures Feed(s, input).result == Good <==> exists f :: GoodForm(f) && Written(f) <= input
    ensures forall f :: GoodForm(f) && Written(f) <= input ==>
              Feed(s, input).s.req == Meaning(f) && Feed(s, input).rest == input[|Written(f)|..]
  {
    hide Feed, GoodForm, Written, Meaning;
    EndsUnfolded(s, input);
    if Ends(s, input) {
      var f, rest := AcceptedWritten(s, input);
      assert Written(f) <= input;
    }
    forall f | GoodForm(f) && Written(f) <= input
      ensures var o := Feed(s, input); o.result == Good && o.s.req == Meaning(f) && o.rest == input[|Written(f)|..]
    {
      assert input == Written(f) + input[|Written(f)|..];
      WrittenAccepted(s, f, input[|Written(f)|..]);
    }
  }

  // ---------------------------------------------------------------- lengths

  /** The length of the content is that in the first header called Content-Length. */
  lemma {:induction false} ContentLengthIs(hs: seq<Header>)
    ensures var length := ContentLength(hs);
            if length.None? then forall h :: h in hs ==> h.name != "Content-Length"
            else
              exists i :: 0 <= i < |hs| && hs[i].name == "Content-Length" && length.value == Atoi(hs[i].value) &&
                forall j :: 0 <= j < i ==> hs[j].name != "Content-Length"
  {
    hide Atoi;
    if hs != [] && hs[0].name != "Content-Length" {
      ContentLengthIs(hs[1..]);
      assert forall i :: 0 < i < |hs| ==> hs[i] == hs[1..][i - 1];
    }
  }

  predicate Space(s: string) { forall c :: c in s ==> c as int == 32 || 9 <= c as int <= 13 }

  lemma {:induction false} DigitsStop(acc: int, ds: string, junk: string)
    requires Digits(ds) && (junk != "" ==> !IsDigit(junk[0]))
    ensures DigitsValue(acc, ds + junk) == DigitsValue(acc, ds)
    decreases |ds|
  {
    if ds == "" {
      assert ds + junk == junk;
    } else {
      assert (ds + junk)[1..] == ds[1..] + junk;
      assert ds[0] in ds;
      DigitsStop(acc * 10 + Digit(ds[0]), ds[1..], junk);
    }
  }

  lemma {:induction false} SkipSpace(blanks: string, s: string)
    requires Space(blanks)
    ensures Atoi(blanks + s) == Atoi(s)
    decreases |blanks|
  {
    if blanks == "" {
      assert blanks + s == s;
    } else {
      assert blanks[0] in blanks;
      assert forall c :: c in blanks[1..] ==> c in blanks;
      SkipSpace(blanks[1..], s);
      assert (blanks + s)[1..] == blanks[1..] + s;
    }
  }

  /** atoi reads a printed number behind any white space and at most one sign, whatever follows it that is no digit. */
  lemma {:induction false} AtoiReads(blanks: string, n: nat, junk: string)
    requires Space(blanks) && (junk != "" ==> !IsDigit(junk[0]))
    ensures Atoi(blanks + (Decimal(n) + junk)) == Atoi(blanks + ("+" + (Decimal(n) + junk))) == n
    ensures Atoi(blanks + ("-" + (Decimal(n) + junk))) == 0 - n
  {
    hide Decimal;
    var ds := Decimal(n) + junk;
    SkipSpace(blanks, ds);
    SkipSpace(blanks, "+" + ds);
    SkipSpace(blanks, "-" + ds);
    assert ds[0] in Decimal(n);
    DecimalValue(n);
    DigitsStop(0, Decimal(n), junk);
    assert ("+" + ds)[1..] == ds && ("-" + ds)[1..] == ds;
  }

  // ---------------------------------------------------------------- characters

  /** The characters of a method or a header name: letters, digits and these signs. */
  lemma TokenCharacters(c: char)
    ensures IsToken(c) <==>
            'a' <= c <= 'z' || 'A' <= c <= 'Z' || '0' <= c <= '9' ||
            c in {'!', '#', '$', '%', '&', '\'', '*', '+', '-', '.', '^', '_', '`', '|', '~'}
  {
  }
}
