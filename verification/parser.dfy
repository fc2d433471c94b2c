/** The request state machine (src/request_parser.cpp) and a printer it inverts. The grammar is that of
    sections 3.1.1, 3.2 and 3.3.2 of RFC 7230, the tspecials those of section 2.2 of RFC 1945. */
module Parser {
  import opened Wire

  datatype Stage =
    | MethodStart | Method | Uri
    | VersionH | VersionT1 | VersionT2 | VersionP | VersionSlash
    | MajorStart | Major | MinorStart | Minor
    | Newline1 | HeaderLineStart | HeaderLws | HeaderName | SpaceBeforeValue | HeaderValue
    | Newline2 | Newline3 | ReadContent

  datatype Result = Good | Bad | Indeterminate

  datatype Header = Header(name: string, value: string)

  datatype Request = Request(verb: string, uri: string, major: int, minor: int, headers: seq<Header>, content: string)

  /** A parser and the request it is filling. */
  datatype State = State(stage: Stage, postSize: int, postCount: int, req: Request)

  // ---------------------------------------------------------------- character classes

  /** A C++ char is signed, so bytes from 128 on are negative and not characters. */
  predicate IsChar(c: char) { c < 128 as char }

  predicate IsCtl(c: char) { c <= 31 as char || c == 127 as char }

  predicate IsTspecial(c: char)
  {
    c in {'(', ')', '<', '>', '@', ',', ';', ':', '\\', '"', '/', '[', ']', '?', '=', '{', '}', ' ', '\t'}
  }

  predicate IsDigit(c: char) { '0' <= c <= '9' }

  predicate IsToken(c: char) { IsChar(c) && !IsCtl(c) && !IsTspecial(c) }

  function Digit(c: char): int { c as int - '0' as int }

  // ---------------------------------------------------------------- atoi

  predicate IsSpace(c: char) { c == ' ' || '\t' <= c <= '\r' }

  function DigitsValue(acc: int, s: string): int
    decreases |s|
  {
    if s == "" || !IsDigit(s[0]) then acc else DigitsValue(acc * 10 + Digit(s[0]), s[1..])
  }

  /** atoi, for values that an int can hold. */
  function Atoi(s: string): int
  {
    if s == "" then 0
    else if IsSpace(s[0]) then Atoi(s[1..])
    else if s[0] == '-' then -DigitsValue(0, s[1..])
    else if s[0] == '+' then DigitsValue(0, s[1..])
    else DigitsValue(0, s)
  }

  /** The value of the first Content-Length header. */
  function ContentLength(headers: seq<Header>): Option<int>
  {
    if headers == [] then None
    else if headers[0].name == "Content-Length" then Some(Atoi(headers[0].value))
    else ContentLength(headers[1..])
  }

  const MAX_POST := 10240

  // ---------------------------------------------------------------- one character

  /** Stages that append to the last header need one. */
  predicate Staged(s: State)
  {
    s.stage in {HeaderLws, HeaderName, SpaceBeforeValue, HeaderValue} ==> s.req.headers != []
  }

  function Back(headers: seq<Header>): Header
    requires headers != []
  {
    headers[|headers| - 1]
  }

  function SetBack(headers: seq<Header>, h: Header): (hs: seq<Header>)
    requires headers != []
    ensures hs != []
  {
    headers[|headers| - 1 := h]
  }

  function Move(s: State, stage: Stage): State { s.(stage := stage) }

  /** If the condition holds, go on to the stage; otherwise the request is bad. */
  function Expect(s: State, holds: bool, stage: Stage): (State, Result)
  {
    if holds then (Move(s, stage), Indeterminate) else (s, Bad)
  }

  function PushMethod(s: State, c: char): State { s.(req := s.req.(verb := s.req.verb + [c])) }

  function PushUri(s: State, c: char): State { s.(req := s.req.(uri := s.req.uri + [c])) }

  function PushName(s: State, c: char): State
    requires s.req.headers != []
  {
    var h := Back(s.req.headers);
    s.(req := s.req.(headers := SetBack(s.req.headers, h.(name := h.name + [c]))))
  }

  function PushValue(s: State, c: char): State
    requires s.req.headers != []
  {
    var h := Back(s.req.headers);
    s.(req := s.req.(headers := SetBack(s.req.headers, h.(value := h.value + [c]))))
  }

  function PushMajor(s: State, c: char): State { s.(req := s.req.(major := s.req.major * 10 + Digit(c))) }

  function PushMinor(s: State, c: char): State { s.(req := s.req.(minor := s.req.minor * 10 + Digit(c))) }

  /** The end of the headers: a POST goes on to its content if its length is reasonable. */
  function EndHeaders(s: State): (State, Result)
  {
    if s.req.verb == "POST" then
      var length := ContentLength(s.req.headers);
      var size := if length.Some? then length.value - 1 else s.postSize;
      (s.(stage := ReadContent, postSize := size), if size <= 0 || size > MAX_POST then Bad else Indeterminate)
    else (s, Good)
  }

  function PushContent(s: State, c: char): (State, Result)
  {
    if s.postCount <= s.postSize then
      var pushed := s.(req := s.req.(content := s.req.content + [c]));
      if s.postCount == s.postSize then (pushed, Good) else (pushed.(postCount := s.postCount + 1), Indeterminate)
    else (s, Bad)
  }

  /** consume. */
  function Consume(s: State, c: char): (r: (State, Result))
    requires Staged(s)
    ensures Staged(r.0)
  {
    match s.stage
    case MethodStart => if IsToken(c) then (Move(PushMethod(s, c), Method), Indeterminate) else (s, Bad)
    case Method =>
      if c == ' ' then (Move(s, Uri), Indeterminate)
      else if IsToken(c) then (PushMethod(s, c), Indeterminate) else (s, Bad)
    case Uri =>
      if c == ' ' then (Move(s, VersionH), Indeterminate)
      else if IsCtl(c) then (s, Bad) else (PushUri(s, c), Indeterminate)
    case VersionH => Expect(s, c == 'H', VersionT1)
    case VersionT1 => Expect(s, c == 'T', VersionT2)
    case VersionT2 => Expect(s, c == 'T', VersionP)
    case VersionP => Expect(s, c == 'P', VersionSlash)
    case VersionSlash =>
      if c == '/' then (Move(s.(req := s.req.(major := 0, minor := 0)), MajorStart), Indeterminate) else (s, Bad)
    case MajorStart => if IsDigit(c) then (Move(PushMajor(s, c), Major), Indeterminate) else (s, Bad)
    case Major =>
      if c == '.' then (Move(s, MinorStart), Indeterminate)
      else if IsDigit(c) then (PushMajor(s, c), Indeterminate) else (s, Bad)
    case MinorStart => if IsDigit(c) then (Move(PushMinor(s, c), Minor), Indeterminate) else (s, Bad)
    case Minor =>
      if c == '\r' then (Move(s, Newline1), Indeterminate)
      else if IsDigit(c) then (PushMinor(s, c), Indeterminate) else (s, Bad)
    case Newline1 => Expect(s, c == '\n', HeaderLineStart)
    case HeaderLineStart =>
      if c == '\r' then (Move(s, Newline3), Indeterminate)
      else if s.req.headers != [] && (c == ' ' || c == '\t') then (Move(s, HeaderLws), Indeterminate)
      else if IsToken(c) then
        (Move(s.(req := s.req.(headers := s.req.headers + [Header([c], "")])), HeaderName), Indeterminate)
      else (s, Bad)
    case HeaderLws =>
      if c == '\r' then (Move(s, Newline2), Indeterminate)
      else if c == ' ' || c == '\t' then (s, Indeterminate)
      else if IsCtl(c) then (s, Bad) else (Move(PushValue(s, c), HeaderValue), Indeterminate)
    case HeaderName =>
      if c == ':' then (Move(s, SpaceBeforeValue), Indeterminate)
      else if IsToken(c) then (PushName(s, c), Indeterminate) else (s, Bad)
    case SpaceBeforeValue => Expect(s, c == ' ', HeaderValue)
    case HeaderValue =>
      if c == '\r' then (Move(s, Newline2), Indeterminate)
      else if IsCtl(c) then (s, Bad) else (PushValue(s, c), Indeterminate)
    case Newline2 => Expect(s, c == '\n', HeaderLineStart)
    case Newline3 => if c == '\n' then EndHeaders(s) else (s, Bad)
    case ReadContent => PushContent(s, c)
  }

  /** The parser object and the request it is handed by reference. */
  class RequestObject {
    var verb: string
    var uri: string
    var major: int
    var minor: int
    var headers: seq<Header>
    var content: string

    function Value(): Request
      reads this
    {
      Request(verb, uri, major, minor, headers, content)
    }

    /** req.headers.back().value.push_back */
    method PushBackValue(c: char)
      requires headers != []
      modifies this
      ensures var h := Back(old(headers));
              Value() == old(Value()).(headers := SetBack(old(headers), h.(value := h.value + [c])))
    {
      var h := headers[|headers| - 1];
      headers := headers[|headers| - 1 := Header(h.name, h.value + [c])];
    }

    method PushBackName(c: char)
      requires headers != []
      modifies this
      ensures var h := Back(old(headers));
              Value() == old(Value()).(headers := SetBack(old(headers), h.(name := h.name + [c])))
    {
      var h := headers[|headers| - 1];
      headers := headers[|headers| - 1 := Header(h.name + [c], h.value)];
    }
  }

  class RequestParser {
    var stage: Stage
    var postSize: int
    var postCount: int

    constructor ()
      ensures stage == MethodStart && postSize == 0 && postCount == 0
    {
      stage, postSize, postCount := MethodStart, 0, 0;
    }

    /** Only the stage is reset. */
    method Reset()
      modifies this
      ensures stage == MethodStart && postSize == old(postSize) && postCount == old(postCount)
    {
      stage := MethodStart;
    }

    function Current(req: RequestObject): State
      reads this, req
    {
      State(stage, postSize, postCount, req.Value())
    }

    method ConsumeChar(req: RequestObject, input: char) returns (result: Result)
      requires Staged(Current(req))
      modifies this, req
      ensures (Current(req), result) == Consume(old(Current(req)), input)
    {
      hide IsToken, IsCtl, IsDigit, Digit, ContentLength;
      match stage
      case MethodStart | Method | Uri =>
        result := ConsumeTarget(req, input);
      case VersionH | VersionT1 | VersionT2 | VersionP | VersionSlash | MajorStart | Major | MinorStart | Minor =>
        result := ConsumeVersion(req, input);
      case HeaderLineStart | HeaderLws | HeaderName | SpaceBeforeValue | HeaderValue =>
        result := ConsumeHeader(req, input);
      case Newline1 | Newline2 | Newline3 | ReadContent =>
        result := ConsumeEnd(req, input);
    }

    /** The cases of the request line up to the version. */
    method ConsumeTarget(req: RequestObject, input: char) returns (result: Result)
      requires stage in {MethodStart, Method, Uri}
      modifies this, req
      ensures Staged(old(Current(req))) && (Current(req), result) == Consume(old(Current(req)), input)
    {
      hide IsToken, IsCtl;
      match stage {
        case MethodStart =>
          if !IsToken(input) {
            return Bad;
          }
          stage := Method;
          req.verb := req.verb + [input];
          return Indeterminate;
        case Method =>
          if input == ' ' {
            stage := Uri;
            return Indeterminate;
          } else if !IsToken(input) {
            return Bad;
          }
          req.verb := req.verb + [input];
          return Indeterminate;
        case Uri =>
          if input == ' ' {
            stage := VersionH;
            return Indeterminate;
          } else if IsCtl(input) {
            return Bad;
          }
          req.uri := req.uri + [input];
          return Indeterminate;
      }
    }

    method Advance(holds: bool, next: Stage) returns (result: Result)
      modifies this`stage
      ensures stage == if holds then next else old(stage)
      ensures result == if holds then Indeterminate else Bad
    {
      if holds {
        stage := next;
        return Indeterminate;
      }
      return Bad;
    }

    method ConsumeVersion(req: RequestObject, input: char) returns (result: Result)
      requires stage in {VersionH, VersionT1, VersionT2, VersionP, VersionSlash, MajorStart, Major, MinorStart, Minor}
      modifies this, req
      ensures Staged(old(Current(req))) && (Current(req), result) == Consume(old(Current(req)), input)
    {
      hide IsDigit, Digit;
      match stage {
        case VersionH => result := Advance(input == 'H', VersionT1);
        case VersionT1 => result := Advance(input == 'T', VersionT2);
        case VersionT2 => result := Advance(input == 'T', VersionP);
        case VersionP => result := Advance(input == 'P', VersionSlash);
        case VersionSlash =>
          if input == '/' {
            req.major := 0;
            req.minor := 0;
          }
          result := Advance(input == '/', MajorStart);
        case MajorStart =>
          if IsDigit(input) {
            req.major := req.major * 10 + Digit(input);
          }
          result := Advance(IsDigit(input), Major);
        case Major =>
          if input == '.' {
            stage := MinorStart;
            return Indeterminate;
          } else if IsDigit(input) {
            req.major := req.major * 10 + Digit(input);
            return Indeterminate;
          }
          return Bad;
        case MinorStart =>
          if IsDigit(input) {
            req.minor := req.minor * 10 + Digit(input);
          }
          result := Advance(IsDigit(input), Minor);
        case Minor =>
          if input == '\r' {
            stage := Newline1;
            return Indeterminate;
          } else if IsDigit(input) {
            req.minor := req.minor * 10 + Digit(input);
            return Indeterminate;
          }
          return Bad;
      }
    }

    method ConsumeHeader(req: RequestObject, input: char) returns (result: Result)
      requires stage in {HeaderLineStart, HeaderLws, HeaderName, SpaceBeforeValue, HeaderValue}
      requires Staged(Current(req))
      modifies this, req
      ensures (Current(req), result) == Consume(old(Current(req)), input)
    {
      hide IsToken, IsCtl;
      match stage {
        case HeaderLineStart =>
          if input == '\r' {
            stage := Newline3;
            return Indeterminate;
          } else if req.headers != [] && (input == ' ' || input == '\t') {
            stage := HeaderLws;
            return Indeterminate;
          } else if !IsToken(input) {
            return Bad;
          }
          req.headers := req.headers + [Header([input], "")];
          stage := HeaderName;
          return Indeterminate;
        case HeaderLws =>
          if input == '\r' {
            stage := Newline2;
            return Indeterminate;
          } else if input == ' ' || input == '\t' {
            return Indeterminate;
          } else if IsCtl(input) {
            return Bad;
          }
          stage := HeaderValue;
          req.PushBackValue(input);
          return Indeterminate;
        case HeaderName =>
          if input == ':' {
            stage := SpaceBeforeValue;
            return Indeterminate;
          } else if !IsToken(input) {
            return Bad;
          }
          req.PushBackName(input);
          return Indeterminate;
        case SpaceBeforeValue => result := Advance(input == ' ', HeaderValue);
        case HeaderValue =>
          if input == '\r' {
            stage := Newline2;
            return Indeterminate;
          } else if IsCtl(input) {
            return Bad;
          }
          req.PushBackValue(input);
          return Indeterminate;
      }
    }

    method ConsumeEnd(req: RequestObject, input: char) returns (result: Result)
      requires stage in {Newline1, Newline2, Newline3, ReadContent}
      modifies this, req
      ensures Staged(old(Current(req))) && (Current(req), result) == Consume(old(Current(req)), input)
    {
      hide ContentLength;
      match stage {
        case Newline1 => result := Advance(input == '\n', HeaderLineStart);
        case Newline2 => result := Advance(input == '\n', HeaderLineStart);
        case Newline3 =>
          if input != '\n' {
            return Bad;
          } else if req.verb != "POST" {
            return Good;
          }
          stage := ReadContent;
          postSize := FindLength(req, postSize);
          if postSize <= 0 || postSize > MAX_POST {
            return Bad;
          }
          return Indeterminate;
        case ReadContent =>
          if postCount <= postSize {
            req.content := req.content + [input];
            if postCount == postSize {
              return Good;
            }
            postCount := postCount + 1;
            return Indeterminate;
          }
          return Bad;
      }
    }

    /** The loop over the headers; the first Content-Length ends it. */
    method FindLength(req: RequestObject, current: int) returns (size: int)
      ensures size == if ContentLength(req.headers).Some? then ContentLength(req.headers).value - 1 else current
    {
      hide Atoi;
      size := current;
      for i := 0 to |req.headers|
        invariant size == current && ContentLength(req.headers) == ContentLength(req.headers[i..])
      {
        assert req.headers[i..][1..] == req.headers[i + 1..];
        if req.headers[i].name == "Content-Length" {
          size := Atoi(req.headers[i].value) - 1;
          break;
        }
      }
    }
  }

  // ---------------------------------------------------------------- feeding a string

  /** The parser after feeding input until something other than indeterminate comes back, that result,
      and the input left over. */
  datatype Outcome = Outcome(s: State, result: Result, rest: string)

  function Feed(s: State, input: string): Outcome
    requires Staged(s)
    decreases |input|
  {
    if input == "" then Outcome(s, Indeterminate, "")
    else
      var (s1, r) := Consume(s, input[0]);
      if r == Indeterminate then Feed(s1, input[1..]) else Outcome(s1, r, input[1..])
  }

  lemma FeedStep(s: State, c: char, rest: string)
    requires Staged(s)
    ensures var (s1, r) := Consume(s, c);
            Feed(s, [c] + rest) == if r == Indeterminate then Feed(s1, rest) else Outcome(s1, r, rest)
  {
    hide Consume;
    assert ([c] + rest)[1..] == rest;
  }

  /** If the last byte of the input is the first to be good, every proper prefix is indeterminate. */
  lemma {:induction false} ProperPrefixes(s: State, input: string, k: nat)
    requires Staged(s) && k < |input|
    requires Feed(s, input).result != Indeterminate && Feed(s, input).rest == ""
    ensures Feed(s, input[..k]).result == Indeterminate
    decreases |input|
  {
    hide Consume;
    var (s1, r) := Consume(s, input[0]);
    if k > 0 {
      assert input[..k][0] == input[0] && input[..k][1..] == input[1..][..k - 1];
      if r == Indeterminate {
        ProperPrefixes(s1, input[1..], k - 1);
      }
    }
  }

  // ---------------------------------------------------------------- the printer

  function Decimal(n: nat): (s: string)
    ensures s != "" && forall c :: c in s ==> IsDigit(c)
  {
    if n < 10 then [('0' as int + n) as char] else Decimal(n / 10) + [('0' as int + n % 10) as char]
  }

  function RenderHeaders(hs: seq<Header>): string
  {
    if hs == [] then "" else hs[0].name + ": " + hs[0].value + "\r\n" + RenderHeaders(hs[1..])
  }

  function RenderHead(q: Request): string
    requires q.major >= 0 && q.minor >= 0
  {
    q.verb + " " + (q.uri + " " + ("HTTP/" + (Decimal(q.major) + "." + (Decimal(q.minor) + "\r\n" +
    (RenderHeaders(q.headers) + "\r\n")))))
  }

  function Render(q: Request): string
    requires q.major >= 0 && q.minor >= 0
  {
    RenderHead(q) + q.content
  }

  predicate AllTokens(s: string) { forall c :: c in s ==> IsToken(c) }

  predicate GoodHeader(h: Header)
  {
    h.name != "" && AllTokens(h.name) && forall c :: c in h.value ==> !IsCtl(c)
  }

  /** A POST announces the length of its content, which is between 2 and 10241; nothing else has any. */
  predicate GoodContent(q: Request)
  {
    if q.verb == "POST" then
      2 <= |q.content| <= MAX_POST + 1 && ContentLength(q.headers) == Some(|q.content|)
    else q.content == ""
  }

  predicate WellFormed(q: Request)
  {
    && q.verb != "" && AllTokens(q.verb)
    && (forall c :: c in q.uri ==> !IsCtl(c) && c != ' ')
    && q.major >= 0 && q.minor >= 0
    && (forall h :: h in q.headers ==> GoodHeader(h))
    && GoodContent(q)
  }

  // ---------------------------------------------------------------- decimal numbers

  lemma {:induction false} DigitsValueAppend(acc: int, s: string, c: char)
    requires IsDigit(c) && forall d :: d in s ==> IsDigit(d)
    ensures DigitsValue(acc, s + [c]) == DigitsValue(acc, s) * 10 + Digit(c)
    decreases |s|
  {
    if s == "" {
      assert s + [c] == [c];
      assert DigitsValue(acc * 10 + Digit(c), [c][1..]) == acc * 10 + Digit(c);
    } else {
      assert (s + [c])[1..] == s[1..] + [c];
      DigitsValueAppend(acc * 10 + Digit(s[0]), s[1..], c);
    }
  }

  lemma {:induction false} DecimalValue(n: nat)
    ensures DigitsValue(0, Decimal(n)) == n
  {
    var c := ('0' as int + n % 10) as char;
    if n >= 10 {
      DecimalValue(n / 10);
      DigitsValueAppend(0, Decimal(n / 10), c);
    } else {
      assert Decimal(n)[1..] == "";
      assert DigitsValue(n, "") == n;
    }
  }

  /** A printed length is read back by atoi. */
  lemma AtoiDecimal(n: nat)
    ensures Atoi(Decimal(n)) == n
  {
    DecimalValue(n);
    var s := Decimal(n);
    assert s[0] in s;
  }

  // ---------------------------------------------------------------- the request line

  lemma {:induction false} FeedMethod(s: State, m: string, rest: string)
    requires s.stage == Method && AllTokens(m)
    ensures Feed(s, m + " " + rest) == Feed(Move(s.(req := s.req.(verb := s.req.verb + m)), Uri), rest)
    decreases |m|
  {
    hide IsToken, Feed;
    if m == "" {
      assert m + " " + rest == [' '] + rest;
      assert s.req.verb + m == s.req.verb;
      FeedStep(s, ' ', rest);
    } else {
      SpaceIsNoToken(m[0]);
      assert m + " " + rest == [m[0]] + (m[1..] + " " + rest);
      FeedStep(s, m[0], m[1..] + " " + rest);
      FeedMethod(PushMethod(s, m[0]), m[1..], rest);
      assert s.req.verb + [m[0]] + m[1..] == s.req.verb + m;
    }
  }

  lemma SpaceIsNoToken(c: char)
    ensures IsToken(c) ==> c != ' ' && c != ':' && c != '\r' && c != '\t'
  {
  }

  lemma FeedVerb(s: State, m: string, rest: string)
    requires s.stage == MethodStart && m != "" && AllTokens(m) && s.req.verb == ""
    ensures Feed(s, m + " " + rest) == Feed(Move(s.(req := s.req.(verb := m)), Uri), rest)
  {
    hide IsToken, Feed;
    assert m + " " + rest == [m[0]] + (m[1..] + " " + rest);
    FeedStep(s, m[0], m[1..] + " " + rest);
    FeedMethod(Move(PushMethod(s, m[0]), Method), m[1..], rest);
    assert "" + [m[0]] + m[1..] == m;
  }

  lemma {:induction false} FeedUri(s: State, u: string, rest: string)
    requires s.stage == Uri && forall c :: c in u ==> !IsCtl(c) && c != ' '
    ensures Feed(s, u + " " + rest) == Feed(Move(s.(req := s.req.(uri := s.req.uri + u)), VersionH), rest)
    decreases |u|
  {
    hide IsCtl, Feed;
    if u == "" {
      assert u + " " + rest == [' '] + rest;
      assert s.req.uri + u == s.req.uri;
      FeedStep(s, ' ', rest);
    } else {
      assert u + " " + rest == [u[0]] + (u[1..] + " " + rest);
      assert u[0] in u;
      FeedStep(s, u[0], u[1..] + " " + rest);
      FeedUri(PushUri(s, u[0]), u[1..], rest);
      assert s.req.uri + [u[0]] + u[1..] == s.req.uri + u;
    }
  }

  lemma FeedProtocol(s: State, rest: string)
    requires s.stage == VersionH
    ensures Feed(s, "HTTP/" + rest) == Feed(Move(s.(req := s.req.(major := 0, minor := 0)), MajorStart), rest)
  {
    hide Feed;
    var tail := "TP/" + rest;
    assert "HTTP/" + rest == ['H'] + (['T'] + tail);
    FeedStep(s, 'H', ['T'] + tail);
    FeedStep(Move(s, VersionT1), 'T', tail);
    FeedProtocolEnd(Move(s, VersionT2), rest);
  }

  lemma FeedProtocolEnd(s: State, rest: string)
    requires s.stage == VersionT2
    ensures Feed(s, "TP/" + rest) == Feed(Move(s.(req := s.req.(major := 0, minor := 0)), MajorStart), rest)
  {
    hide Feed;
    var tail := ['/'] + rest;
    assert "TP/" + rest == ['T'] + (['P'] + tail);
    FeedStep(s, 'T', ['P'] + tail);
    FeedStep(Move(s, VersionP), 'P', tail);
    FeedStep(Move(s, VersionSlash), '/', rest);
  }

  lemma {:induction false} FeedMajorDigits(s: State, ds: string, rest: string)
    requires s.stage == Major && forall c :: c in ds ==> IsDigit(c)
    ensures Feed(s, ds + "." + rest) ==
            Feed(Move(s.(req := s.req.(major := DigitsValue(s.req.major, ds))), MinorStart), rest)
    decreases |ds|
  {
    hide Feed;
    if ds == "" {
      assert ds + "." + rest == ['.'] + rest;
      FeedStep(s, '.', rest);
    } else {
      var c, tail := ds[0], ds[1..] + "." + rest;
      assert ds + "." + rest == [c] + tail;
      assert c in ds && c != '.';
      FeedStep(s, c, tail);
      FeedMajorDigits(PushMajor(s, c), ds[1..], rest);
    }
  }

  lemma FeedMajor(s: State, n: nat, rest: string)
    requires s.stage == MajorStart && s.req.major == 0
    ensures Feed(s, Decimal(n) + "." + rest) == Feed(Move(s.(req := s.req.(major := n)), MinorStart), rest)
  {
    hide Feed, Decimal;
    var ds := Decimal(n);
    assert ds + "." + rest == [ds[0]] + (ds[1..] + "." + rest);
    assert ds[0] in ds;
    FeedStep(s, ds[0], ds[1..] + "." + rest);
    FeedMajorDigits(Move(PushMajor(s, ds[0]), Major), ds[1..], rest);
    DecimalValue(n);
  }

  lemma {:induction false} FeedMinorDigits(s: State, ds: string, rest: string)
    requires s.stage == Minor && forall c :: c in ds ==> IsDigit(c)
    ensures Feed(s, ds + "\r\n" + rest) ==
            Feed(Move(s.(req := s.req.(minor := DigitsValue(s.req.minor, ds))), HeaderLineStart), rest)
    decreases |ds|
  {
    hide Feed;
    if ds == "" {
      assert ds + "\r\n" + rest == ['\r'] + (['\n'] + rest);
      FeedStep(s, '\r', ['\n'] + rest);
      FeedStep(Move(s, Newline1), '\n', rest);
    } else {
      var c, tail := ds[0], ds[1..] + "\r\n" + rest;
      assert ds + "\r\n" + rest == [c] + tail;
      assert c in ds && c != '\r';
      FeedStep(s, c, tail);
      FeedMinorDigits(PushMinor(s, c), ds[1..], rest);
    }
  }

  lemma FeedMinor(s: State, n: nat, rest: string)
    requires s.stage == MinorStart && s.req.minor == 0
    ensures Feed(s, Decimal(n) + "\r\n" + rest) == Feed(Move(s.(req := s.req.(minor := n)), HeaderLineStart), rest)
  {
    hide Feed, Decimal;
    var ds := Decimal(n);
    assert ds + "\r\n" + rest == [ds[0]] + (ds[1..] + "\r\n" + rest);
    assert ds[0] in ds;
    FeedStep(s, ds[0], ds[1..] + "\r\n" + rest);
    FeedMinorDigits(Move(PushMinor(s, ds[0]), Minor), ds[1..], rest);
    DecimalValue(n);
  }

  // ---------------------------------------------------------------- headers

  /** The last header's name, or value, continued. */
  function Named(s: State, n: string): State
    requires s.req.headers != []
  {
    var h := Back(s.req.headers);
    s.(req := s.req.(headers := SetBack(s.req.headers, h.(name := h.name + n))))
  }

  function Valued(s: State, v: string): State
    requires s.req.headers != []
  {
    var h := Back(s.req.headers);
    s.(req := s.req.(headers := SetBack(s.req.headers, h.(value := h.value + v))))
  }

  lemma NamedStep(s: State, c: char, n: string)
    requires s.req.headers != []
    ensures Named(PushName(s, c), n) == Named(s, [c] + n) && Named(s, "") == s
  {
    var hs, h := s.req.headers, Back(s.req.headers);
    assert h.name + [c] + n == h.name + ([c] + n) && h.name + "" == h.name;
    assert SetBack(hs, h) == hs;
    assert SetBack(PushName(s, c).req.headers, h.(name := h.name + [c] + n)) ==
      SetBack(hs, h.(name := h.name + [c] + n));
  }

  lemma ValuedStep(s: State, c: char, v: string)
    requires s.req.headers != []
    ensures Valued(PushValue(s, c), v) == Valued(s, [c] + v) && Valued(s, "") == s
  {
    var hs, h := s.req.headers, Back(s.req.headers);
    assert h.value + [c] + v == h.value + ([c] + v) && h.value + "" == h.value;
    assert SetBack(hs, h) == hs;
    assert SetBack(PushValue(s, c).req.headers, h.(value := h.value + [c] + v)) ==
      SetBack(hs, h.(value := h.value + [c] + v));
  }

  lemma {:induction false} FeedName(s: State, n: string, rest: string)
    requires s.stage == HeaderName && s.req.headers != [] && AllTokens(n)
    ensures Feed(s, n + ": " + rest) == Feed(Move(Named(s, n), HeaderValue), rest)
    decreases |n|
  {
    hide IsToken, Named, PushName, Feed;
    if n == "" {
      assert n + ": " + rest == [':'] + ([' '] + rest);
      NamedStep(s, ' ', "");
      FeedStep(s, ':', [' '] + rest);
      FeedStep(Move(s, SpaceBeforeValue), ' ', rest);
    } else {
      SpaceIsNoToken(n[0]);
      assert n + ": " + rest == [n[0]] + (n[1..] + ": " + rest);
      FeedStep(s, n[0], n[1..] + ": " + rest);
      PushNameStays(s, n[0]);
      FeedName(PushName(s, n[0]), n[1..], rest);
      NamedStep(s, n[0], n[1..]);
      assert n == [n[0]] + n[1..];
    }
  }

  lemma PushNameStays(s: State, c: char)
    requires s.req.headers != []
    ensures PushName(s, c).stage == s.stage && PushName(s, c).req.headers != []
    ensures PushValue(s, c).stage == s.stage && PushValue(s, c).req.headers != []
  {
  }

  lemma {:induction false} FeedValue(s: State, v: string, rest: string)
    requires s.stage == HeaderValue && s.req.headers != [] && forall c :: c in v ==> !IsCtl(c)
    ensures Feed(s, v + "\r\n" + rest) == Feed(Move(Valued(s, v), HeaderLineStart), rest)
    decreases |v|
  {
    hide Valued, PushValue, Feed;
    if v == "" {
      assert v + "\r\n" + rest == ['\r'] + (['\n'] + rest);
      ValuedStep(s, ' ', "");
      FeedStep(s, '\r', ['\n'] + rest);
      FeedStep(Move(s, Newline2), '\n', rest);
    } else {
      assert v + "\r\n" + rest == [v[0]] + (v[1..] + "\r\n" + rest);
      FeedStep(s, v[0], v[1..] + "\r\n" + rest);
      PushNameStays(s, v[0]);
      FeedValue(PushValue(s, v[0]), v[1..], rest);
      ValuedStep(s, v[0], v[1..]);
      assert v == [v[0]] + v[1..];
    }
  }

  function AddHeader(s: State, h: Header): State
  {
    s.(req := s.req.(headers := s.req.headers + [h]))
  }

  lemma FeedHeader(s: State, h: Header, rest: string)
    requires s.stage == HeaderLineStart && GoodHeader(h)
    ensures Feed(s, h.name + ": " + h.value + "\r\n" + rest) == Feed(AddHeader(s, h), rest)
  {
    hide Feed, IsToken, IsCtl;
    var c, n := h.name[0], h.name[1..];
    var tail := h.value + "\r\n" + rest;
    SpaceIsNoToken(c);
    assert h.name + ": " + h.value + "\r\n" + rest == [c] + (n + ": " + tail);
    FeedStep(s, c, n + ": " + tail);
    var s1 := Move(AddHeader(s, Header([c], "")), HeaderName);
    FeedName(s1, n, tail);
    var s2 := Move(AddHeader(s, Header(h.name, "")), HeaderValue);
    assert [c] + n == h.name;
    assert SetBack(s1.req.headers, Header(h.name, "")) == s2.req.headers;
    FeedValue(s2, h.value, rest);
    assert "" + h.value == h.value;
    assert SetBack(s2.req.headers, h) == AddHeader(s, h).req.headers;
  }

  lemma {:induction false} FeedHeaders(s: State, hs: seq<Header>, rest: string)
    requires s.stage == HeaderLineStart && forall h :: h in hs ==> GoodHeader(h)
    ensures Feed(s, RenderHeaders(hs) + rest) == Feed(s.(req := s.req.(headers := s.req.headers + hs)), rest)
    decreases |hs|
  {
    hide Feed, GoodHeader;
    if hs == [] {
      assert RenderHeaders(hs) + rest == rest;
      assert s.req.headers + hs == s.req.headers;
    } else {
      var h, tail := hs[0], RenderHeaders(hs[1..]) + rest;
      assert RenderHeaders(hs) + rest == h.name + ": " + h.value + "\r\n" + tail;
      FeedHeader(s, h, tail);
      FeedHeaders(AddHeader(s, h), hs[1..], rest);
      assert s.req.headers + [h] + hs[1..] == s.req.headers + hs;
    }
  }

  // ---------------------------------------------------------------- content

  /** With c bytes counted and a size of n, exactly n - c + 1 more are read, whatever they are. */
  lemma {:induction false} FeedContent(s: State, content: string, rest: string)
    requires s.stage == ReadContent && s.postCount <= s.postSize && |content| == s.postSize - s.postCount + 1
    ensures Feed(s, content + rest) ==
            Outcome(s.(req := s.req.(content := s.req.content + content), postCount := s.postSize), Good, rest)
    decreases |content|
  {
    var c, tail := content[0], content[1..] + rest;
    assert content + rest == [c] + tail;
    FeedStep(s, c, tail);
    if s.postCount < s.postSize {
      FeedContent(PushContent(s, c).0, content[1..], rest);
      assert s.req.content + [c] + content[1..] == s.req.content + content;
    } else {
      assert content == [c] && tail == rest;
    }
  }

  /** A new request; its version numbers are uninitialised. */
  predicate Blank(q: Request)
  {
    q.verb == "" && q.uri == "" && q.headers == [] && q.content == ""
  }

  /** A fresh parser with a new request. */
  predicate Fresh(s: State)
  {
    s.stage == MethodStart && s.postSize == 0 && s.postCount == 0 && Blank(s.req)
  }

  /** The first Content-Length is between 2 and 10241. */
  predicate Acceptable(headers: seq<Header>)
  {
    var length := ContentLength(headers); length.Some? && 2 <= length.value <= MAX_POST + 1
  }

  /** The end of the headers on a parser that has counted no content yet. A POST is accepted if and
      only if the first Content-Length is between 2 and 10241, and then exactly that many bytes are
      its content. Otherwise, also without a Content-Length, it is refused at the newline. */
  lemma ContentLengthExact(s: State, content: string, rest: string)
    requires s.stage == Newline3 && s.req.verb == "POST" && s.req.content == "" && s.postSize == 0 && s.postCount == 0
    ensures Acceptable(s.req.headers) && ContentLength(s.req.headers) == Some(|content|) ==>
              Feed(s, "\n" + content + rest) ==
              Outcome(State(ReadContent, |content| - 1, |content| - 1, s.req.(content := content)), Good, rest)
    ensures !Acceptable(s.req.headers) ==> Feed(s, "\n" + rest).result == Bad && Feed(s, "\n" + rest).rest == rest
  {
    hide Feed, ContentLength;
    assert "\n" + content + rest == ['\n'] + (content + rest);
    FeedStep(s, '\n', content + rest);
    FeedStep(s, '\n', rest);
    var reading := EndHeaders(s).0;
    if Acceptable(s.req.headers) && ContentLength(s.req.headers) == Some(|content|) {
      FeedContent(reading, content, rest);
      assert "" + content == content;
    }
  }

  /** reset() leaves the content counter where it was. A parser that has counted c bytes before reads c
      bytes too few of the content of a POST, or refuses it if there are not that many. */
  lemma CarriedCounter(s: State, content: string, rest: string)
    requires s.stage == Newline3 && s.req.verb == "POST" && s.postCount >= 0
    requires 2 <= |content| <= MAX_POST + 1 && ContentLength(s.req.headers) == Some(|content|)
    ensures var o := Feed(s, "\n" + content + rest);
            if s.postCount < |content| then
              var k := |content| - s.postCount;
              && o.result == Good && o.s.req.content == s.req.content + content[..k] && o.rest == content[k..] + rest
              && o.s == State(ReadContent, |content| - 1, |content| - 1, s.req.(content := s.req.content +
                   content[..k]))
            else o.result == Bad
  {
    hide Feed, ContentLength;
    assert "\n" + content + rest == ['\n'] + (content + rest);
    FeedStep(s, '\n', content + rest);
    var reading := EndHeaders(s).0;
    if s.postCount < |content| {
      var k := |content| - s.postCount;
      assert content + rest == content[..k] + (content[k..] + rest);
      FeedContent(reading, content[..k], content[k..] + rest);
    } else {
      assert content + rest == [content[0]] + (content[1..] + rest);
      FeedStep(reading, content[0], content[1..] + rest);
    }
  }

  /** So a POST of acceptable length is accepted with exactly its content if and only if the parser has
      counted none before. */
  lemma ReusedParserIff(s: State, content: string, rest: string)
    requires s.stage == Newline3 && s.req.verb == "POST" && s.postCount >= 0
    requires 2 <= |content| <= MAX_POST + 1 && ContentLength(s.req.headers) == Some(|content|)
    ensures var o := Feed(s, "\n" + content + rest);
            o.result == Good && o.rest == rest <==> s.postCount == 0
  {
    hide Feed, ContentLength;
    CarriedCounter(s, content, rest);
    assert content[|content|..] + rest == rest;
  }

  // ---------------------------------------------------------------- the parser inverts the printer

  /** The head of a request, on a parser that may have been used before. */
  lemma FeedHead(s: State, q: Request, rest: string)
    requires s.stage == MethodStart && Blank(s.req) && WellFormed(q)
    ensures Feed(s, RenderHead(q) + rest) ==
            Feed(State(HeaderLineStart, s.postSize, s.postCount, q.(content := "")), "\r\n" + rest)
  {
    hide Feed, IsToken, IsCtl, Decimal, RenderHeaders, GoodHeader, GoodContent, ContentLength;
    var r6 := "\r\n" + rest;
    var r5 := RenderHeaders(q.headers) + r6;
    var r4 := Decimal(q.minor) + "\r\n" + r5;
    var r3 := Decimal(q.major) + "." + r4;
    var r2 := "HTTP/" + r3;
    var r1 := q.uri + " " + r2;
    RenderedHead(q, rest);
    FeedVerb(s, q.verb, r1);
    var s1 := Move(s.(req := s.req.(verb := q.verb)), Uri);
    FeedUri(s1, q.uri, r2);
    assert "" + q.uri == q.uri;
    var s2 := Move(s1.(req := s1.req.(uri := q.uri)), VersionH);
    FeedProtocol(s2, r3);
    var s3 := Move(s2.(req := s2.req.(major := 0, minor := 0)), MajorStart);
    FeedMajor(s3, q.major, r4);
    var s4 := Move(s3.(req := s3.req.(major := q.major)), MinorStart);
    FeedMinor(s4, q.minor, r5);
    var s5 := Move(s4.(req := s4.req.(minor := q.minor)), HeaderLineStart);
    FeedHeaders(s5, q.headers, r6);
    assert [] + q.headers == q.headers;
  }

  lemma RenderedHead(q: Request, rest: string)
    requires q.major >= 0 && q.minor >= 0
    ensures RenderHead(q) + rest ==
            q.verb + " " + (q.uri + " " + ("HTTP/" + (Decimal(q.major) + "." + (Decimal(q.minor) + "\r\n" +
            (RenderHeaders(q.headers) + ("\r\n" + rest))))))
  {
    hide Decimal, RenderHeaders;
    var h := RenderHeaders(q.headers) + "\r\n";
    var m := Decimal(q.minor) + "\r\n" + h;
    var j := Decimal(q.major) + "." + m;
    var p := "HTTP/" + j;
    var u := q.uri + " " + p;
    assert h + rest == RenderHeaders(q.headers) + ("\r\n" + rest);
    assert m + rest == Decimal(q.minor) + "\r\n" + (h + rest);
    assert j + rest == Decimal(q.major) + "." + (m + rest);
    assert p + rest == "HTTP/" + (j + rest);
    assert u + rest == q.uri + " " + (p + rest);
  }

  /** Fed a rendered request and whatever follows, a fresh parser stops exactly at the request's last
      byte with the result good and the request that was rendered. */
  lemma ParserInvertsPrinter(s: State, q: Request, rest: string)
    requires Fresh(s) && WellFormed(q)
    ensures var o := Feed(s, Render(q) + rest);
            o.result == Good && o.s.req == q && o.rest == rest
  {
    hide Feed, Render, ContentLength, GoodHeader;
    FeedRequest(s, q, rest);
    assert q.content[..|q.content|] == q.content && q.content[|q.content|..] + rest == rest;
  }

  /** And every proper prefix of the request leaves it indeterminate. */
  lemma PrefixesIndeterminate(s: State, q: Request, k: nat)
    requires Fresh(s) && WellFormed(q) && k < |Render(q)|
    ensures Feed(s, Render(q)[..k]).result == Indeterminate
    ensures Feed(s, Render(q)).result == Good && Feed(s, Render(q)).s.req == q
  {
    hide Feed, RenderHead, GoodHeader, GoodContent, AllTokens, IsCtl;
    ParserInvertsPrinter(s, q, "");
    assert Render(q) + "" == Render(q);
    ProperPrefixes(s, Render(q), k);
  }

  // ---------------------------------------------------------------- one parser for many requests

  /** Everything of a request up to the last newline of its head. */
  lemma FeedUpToContent(s: State, q: Request, rest: string)
    requires s.stage == MethodStart && Blank(s.req) && WellFormed(q)
    ensures Feed(s, Render(q) + rest) ==
            Feed(State(Newline3, s.postSize, s.postCount, q.(content := "")), "\n" + (q.content + rest))
  {
    hide Feed, RenderHead, GoodHeader, GoodContent, AllTokens, IsCtl, Blank;
    var tail := q.content + rest;
    FeedHead(s, q, tail);
    assert Render(q) + rest == RenderHead(q) + tail;
    assert "\r\n" + tail == ['\r'] + ("\n" + tail);
    FeedStep(State(HeaderLineStart, s.postSize, s.postCount, q.(content := "")), '\r', "\n" + tail);
  }

  /** What one request does to a parser, used before or not: with c bytes counted earlier, c bytes of
      its content are left unread, or it is refused. */
  lemma FeedRequest(s: State, q: Request, rest: string)
    requires s.stage == MethodStart && Blank(s.req) && s.postCount >= 0 && WellFormed(q)
    ensures var o := Feed(s, Render(q) + rest);
            if q.verb != "POST" then
              o.result == Good && o.s.req == q && o.rest == rest && o.s.postCount == s.postCount
            else if s.postCount < |q.content| then
              var k := |q.content| - s.postCount;
              && o.result == Good && o.s.req == q.(content := q.content[..k]) && o.rest == q.content[k..] + rest
              && o.s.postCount == |q.content| - 1
            else o.result == Bad
  {
    hide Feed, Render, ContentLength, GoodHeader, AllTokens, Blank, IsCtl;
    FeedUpToContent(s, q, rest);
    var last := State(Newline3, s.postSize, s.postCount, q.(content := ""));
    if q.verb == "POST" {
      assert "\n" + (q.content + rest) == "\n" + q.content + rest;
      CarriedCounter(last, q.content, rest);
      NothingBefore(q.content);
    } else {
      EndsHere(last, rest);
      assert "\n" + (q.content + rest) == "\n" + rest;
      assert q.(content := "") == q;
    }
  }

  lemma NothingBefore(content: string)
    ensures forall k :: 0 <= k <= |content| ==> "" + content[..k] == content[..k]
  {
  }

  /** A request without content ends with its head. */
  lemma EndsHere(s: State, rest: string)
    requires s.stage == Newline3 && s.req.verb != "POST"
    ensures Feed(s, "\n" + rest) == Outcome(s, Good, rest)
  {
    hide Feed, ContentLength;
    assert "\n" + rest == ['\n'] + rest;
    FeedStep(s, '\n', rest);
  }

  /** reset() between two requests, and a new request to fill. */
  function Again(s: State, blank: Request): State
  {
    s.(stage := MethodStart, req := blank)
  }

  /** The requests read from the input by one parser that is reset after each, if none is refused or
      incomplete and nothing is left over. */
  function ReadAll(s: State, input: string, n: nat, blank: Request): Option<seq<Request>>
    requires Staged(s)
    decreases n
  {
    if n == 0 then (if input == "" then Some([]) else None)
    else
      var o := Feed(s, input);
      if o.result != Good then None
      else
        var others := ReadAll(Again(o.s, blank), o.rest, n - 1, blank);
        if others.Some? then Some([o.s.req] + others.value) else None
  }

  function RenderAll(qs: seq<Request>): string
    requires forall i :: 0 <= i < |qs| ==> WellFormed(qs[i])
  {
    if qs == [] then "" else assert WellFormed(qs[0]); Render(qs[0]) + RenderAll(qs[1..])
  }

  function Posts(qs: seq<Request>): nat
  {
    if qs == [] then 0 else (if qs[0].verb == "POST" then 1 else 0) + Posts(qs[1..])
  }

  /** One parser, reset between requests, gives back the requests rendered for it if and only if at most
      one of them is a POST, or none if it has counted content before. */
  lemma {:induction false} ReusedParserReadsAllIff(s: State, qs: seq<Request>, blank: Request)
    requires s.stage == MethodStart && Blank(s.req) && Blank(blank) && s.postCount >= 0
    requires forall i :: 0 <= i < |qs| ==> WellFormed(qs[i])
    ensures ReadAll(s, RenderAll(qs), |qs|, blank) == Some(qs) <==> Posts(qs) + (if s.postCount > 0 then 1 else 0) <= 1
    decreases |qs|
  {
    hide Feed, Render, WellFormed, Blank;
    if qs == [] {
      assert RenderAll(qs) == "";
    } else {
      var q, others := qs[0], qs[1..];
      FeedRequest(s, q, RenderAll(others));
      PostHasContent(q);
      var o := Feed(s, RenderAll(qs));
      assert q.content[..|q.content|] == q.content;
      assert q.content[|q.content|..] + RenderAll(others) == RenderAll(others);
      if o.result == Good && o.s.req == q {
        ReusedParserReadsAllIff(Again(o.s, blank), others, blank);
        assert qs == [q] + others;
      }
    }
  }

  lemma PostHasContent(q: Request)
    requires WellFormed(q)
    ensures q.verb == "POST" ==> |q.content| >= 2
  {
  }

  // ---------------------------------------------------------------- what is accepted is well formed

  predicate Early(stage: Stage)
  {
    stage in {MethodStart, Method, Uri, VersionH, VersionT1, VersionT2, VersionP, VersionSlash}
  }

  predicate InHeader(stage: Stage)
  {
    stage in {HeaderLws, HeaderName, SpaceBeforeValue, HeaderValue}
  }

  /** What a parser that started fresh, and has not refused anything, knows of the request so far. */
  predicate Sound(s: State)
  {
    && Staged(s)
    && AllTokens(s.req.verb) && (s.stage != MethodStart ==> s.req.verb != "")
    && (forall c :: c in s.req.uri ==> !IsCtl(c) && c != ' ')
    && (!Early(s.stage) ==> s.req.major >= 0 && s.req.minor >= 0)
    && (Early(s.stage) || s.stage in {MajorStart, Major, MinorStart, Minor, Newline1} ==> s.req.headers == [])
    && (forall h :: h in s.req.headers ==> GoodHeader(h))
    && (if s.stage == ReadContent then Counting(s) else s.postSize == 0 && s.postCount == 0 && s.req.content == "")
  }

  /** Reading the content of a POST of acceptable length. */
  predicate Counting(s: State)
  {
    && s.req.verb == "POST" && 0 < s.postSize <= MAX_POST && ContentLength(s.req.headers) == Some(s.postSize + 1)
    && 0 <= s.postCount == |s.req.content| <= s.postSize
  }

  lemma FreshSound(s: State)
    requires Fresh(s)
    ensures Sound(s)
  {
  }

  lemma ConsumeLineSound(s: State, c: char)
    requires Sound(s) && (Early(s.stage) || s.stage in {MajorStart, Major, MinorStart, Minor})
    ensures var (s1, r) := Consume(s, c); r != Good && (r == Indeterminate ==> Sound(s1))
  {
    hide IsTspecial, IsChar, GoodHeader, Counting;
    DigitNonNegative(c);
  }

  lemma DigitNonNegative(c: char)
    ensures IsDigit(c) ==> Digit(c) >= 0
  {
  }

  lemma ConsumeHeaderSound(s: State, c: char)
    requires Sound(s) && (s.stage == HeaderLineStart || InHeader(s.stage))
    ensures var (s1, r) := Consume(s, c); r != Good && (r == Indeterminate ==> Sound(s1))
  {
    hide Sound, Consume;
    if s.stage == HeaderLineStart {
      ConsumeLineStartSound(s, c);
    } else {
      ConsumeInHeaderSound(s, c);
    }
  }

  lemma ConsumeLineStartSound(s: State, c: char)
    requires Sound(s) && s.stage == HeaderLineStart
    ensures var (s1, r) := Consume(s, c); r != Good && (r == Indeterminate ==> Sound(s1))
  {
    hide IsToken, IsCtl, Counting, ContentLength;
  }

  lemma ConsumeInHeaderSound(s: State, c: char)
    requires Sound(s) && InHeader(s.stage)
    ensures var (s1, r) := Consume(s, c); r != Good && (r == Indeterminate ==> Sound(s1))
  {
    hide IsToken, IsCtl, Counting, ContentLength;
    var hs := s.req.headers;
    var h := Back(hs);
    assert h in hs;
    SetBackGood(hs, h.(name := h.name + [c]));
    SetBackGood(hs, h.(value := h.value + [c]));
  }

  lemma SetBackGood(hs: seq<Header>, h: Header)
    requires hs != [] && forall x :: x in hs ==> GoodHeader(x)
    ensures GoodHeader(h) ==> forall x :: x in SetBack(hs, h) ==> GoodHeader(x)
  {
    hide GoodHeader;
  }

  lemma ConsumeEndSound(s: State, c: char)
    requires Sound(s) && s.stage in {Newline1, Newline2, Newline3, ReadContent}
    ensures var (s1, r) := Consume(s, c); (r == Indeterminate ==> Sound(s1)) && (r == Good ==> WellFormed(s1.req))
  {
    hide IsToken, IsCtl, GoodHeader, ContentLength, AllTokens;
  }

  lemma ConsumeSound(s: State, c: char)
    requires Sound(s)
    ensures var (s1, r) := Consume(s, c); (r == Indeterminate ==> Sound(s1)) && (r == Good ==> WellFormed(s1.req))
  {
    hide Sound, Consume, WellFormed;
    SoundStaged(s);
    if Early(s.stage) || s.stage in {MajorStart, Major, MinorStart, Minor} {
      ConsumeLineSound(s, c);
    } else if s.stage == HeaderLineStart || InHeader(s.stage) {
      ConsumeHeaderSound(s, c);
    } else {
      ConsumeEndSound(s, c);
    }
  }

  lemma SoundStaged(s: State)
    requires Sound(s)
    ensures Staged(s)
  {
  }

  lemma {:induction false} FeedSound(s: State, input: string)
    requires Sound(s)
    ensures Feed(s, input).result == Good ==> WellFormed(Feed(s, input).s.req)
    decreases |input|
  {
    hide Sound, Consume, WellFormed;
    SoundStaged(s);
    if input != "" {
      ConsumeSound(s, input[0]);
      if Consume(s, input[0]).1 == Indeterminate {
        FeedSound(Consume(s, input[0]).0, input[1..]);
      }
    }
  }

  /** Whatever bytes a fresh parser accepts, the request it then holds is well formed; so printing that
      request and parsing it again gives the same request. */
  lemma AcceptedIsWellFormed(s: State, input: string)
    requires Fresh(s) && Feed(s, input).result == Good
    ensures var q := Feed(s, input).s.req;
            WellFormed(q) && Feed(s, Render(q)).result == Good && Feed(s, Render(q)).s.req == q
  {
    hide Feed, Fresh, GoodHeader, GoodContent, AllTokens, IsCtl, RenderHead, Sound;
    FreshSound(s);
    FeedSound(s, input);
    var q := Feed(s, input).s.req;
    ParserInvertsPrinter(s, q, "");
    assert Render(q) + "" == Render(q);
  }
}
