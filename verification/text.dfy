/** The text codec (encode_output, url_decode and seperate_string in src/request_handler.cpp):
    percent-encoding after section 2.1 of RFC 3986, with '+' for a space after section 8.2.1 of RFC 1866. */
module Text {
  import opened Wire

  // ---------------------------------------------------------------- percent-encoding

  /** replace_all for a one-character pattern. */
  function ReplaceAll(s: string, c: char, sub: string): string
  {
    if s == "" then "" else (if s[0] == c then sub else [s[0]]) + ReplaceAll(s[1..], c, sub)
  }

  /** The seven passes of encode_output, percent first. */
  function SevenPasses(s: string): string
  {
    var s1 := ReplaceAll(s, '%', "%25");
    var s2 := ReplaceAll(s1, '"', "%22");
    var s3 := ReplaceAll(s2, '#', "%23");
    var s4 := ReplaceAll(s3, '&', "%26");
    var s5 := ReplaceAll(s4, '\'', "%27");
    var s6 := ReplaceAll(s5, '=', "%3d");
    ReplaceAll(s6, '\\', "%5c")
  }

  function EncodeChar(c: char): string
  {
    match c
    case '%' => "%25"
    case '"' => "%22"
    case '#' => "%23"
    case '&' => "%26"
    case '\'' => "%27"
    case '=' => "%3d"
    case '\\' => "%5c"
    case _ => [c]
  }

  /** One pass over the characters. */
  function EncodeValue(s: string): string
  {
    if s == "" then "" else EncodeChar(s[0]) + EncodeValue(s[1..])
  }

  lemma {:induction false} ReplaceAllConcat(a: string, b: string, c: char, sub: string)
    ensures ReplaceAll(a + b, c, sub) == ReplaceAll(a, c, sub) + ReplaceAll(b, c, sub)
  {
    if a == "" {
      assert a + b == b;
    } else {
      assert (a + b)[1..] == a[1..] + b;
      ReplaceAllConcat(a[1..], b, c, sub);
    }
  }

  lemma SevenPassesConcat(a: string, b: string)
    ensures SevenPasses(a + b) == SevenPasses(a) + SevenPasses(b)
  {
    var a1, b1 := ReplaceAll(a, '%', "%25"), ReplaceAll(b, '%', "%25");
    ReplaceAllConcat(a, b, '%', "%25");
    var a2, b2 := ReplaceAll(a1, '"', "%22"), ReplaceAll(b1, '"', "%22");
    ReplaceAllConcat(a1, b1, '"', "%22");
    var a3, b3 := ReplaceAll(a2, '#', "%23"), ReplaceAll(b2, '#', "%23");
    ReplaceAllConcat(a2, b2, '#', "%23");
    var a4, b4 := ReplaceAll(a3, '&', "%26"), ReplaceAll(b3, '&', "%26");
    ReplaceAllConcat(a3, b3, '&', "%26");
    var a5, b5 := ReplaceAll(a4, '\'', "%27"), ReplaceAll(b4, '\'', "%27");
    ReplaceAllConcat(a4, b4, '\'', "%27");
    var a6, b6 := ReplaceAll(a5, '=', "%3d"), ReplaceAll(b5, '=', "%3d");
    ReplaceAllConcat(a5, b5, '=', "%3d");
    ReplaceAllConcat(a6, b6, '\\', "%5c");
  }

  lemma ReplaceOne(x: char, c: char, sub: string)
    ensures ReplaceAll([x], c, sub) == if x == c then sub else [x]
  {
    assert [x][1..] == "";
    assert ReplaceAll([x][1..], c, sub) == "";
  }

  /** A string without the pattern is left alone. */
  lemma {:induction false} ReplaceNone(s: string, c: char, sub: string)
    requires c !in s
    ensures ReplaceAll(s, c, sub) == s
  {
    if s != "" {
      ReplaceNone(s[1..], c, sub);
    }
  }

  lemma SevenPassesOne(x: char)
    ensures SevenPasses([x]) == EncodeChar(x)
  {
    hide ReplaceAll;
    var s1 := ReplaceAll([x], '%', "%25");
    ReplaceOne(x, '%', "%25");
    var s2 := ReplaceAll(s1, '"', "%22");
    if x == '"' { ReplaceOne(x, '"', "%22"); } else { ReplaceNone(s1, '"', "%22"); }
    var s3 := ReplaceAll(s2, '#', "%23");
    if x == '#' { ReplaceOne(x, '#', "%23"); } else { ReplaceNone(s2, '#', "%23"); }
    var s4 := ReplaceAll(s3, '&', "%26");
    if x == '&' { ReplaceOne(x, '&', "%26"); } else { ReplaceNone(s3, '&', "%26"); }
    var s5 := ReplaceAll(s4, '\'', "%27");
    if x == '\'' { ReplaceOne(x, '\'', "%27"); } else { ReplaceNone(s4, '\'', "%27"); }
    var s6 := ReplaceAll(s5, '=', "%3d");
    if x == '=' { ReplaceOne(x, '=', "%3d"); } else { ReplaceNone(s5, '=', "%3d"); }
    if x == '\\' { ReplaceOne(x, '\\', "%5c"); } else { ReplaceNone(s6, '\\', "%5c"); }
  }

  /** The seven passes are one pass. */
  lemma {:induction false} SevenPassesAreOne(s: string)
    ensures SevenPasses(s) == EncodeValue(s)
  {
    hide SevenPasses, EncodeChar;
    if s == "" {
      SevenPassesEmpty();
    } else {
      SevenPassesConcat([s[0]], s[1..]);
      SevenPassesOne(s[0]);
      SevenPassesAreOne(s[1..]);
      assert s == [s[0]] + s[1..];
    }
  }

  lemma SevenPassesEmpty()
    ensures SevenPasses("") == ""
  {
  }

  /** The same passes with percent last. */
  function PercentLast(s: string): string
  {
    var s1 := ReplaceAll(s, '"', "%22");
    var s2 := ReplaceAll(s1, '#', "%23");
    var s3 := ReplaceAll(s2, '&', "%26");
    var s4 := ReplaceAll(s3, '\'', "%27");
    var s5 := ReplaceAll(s4, '=', "%3d");
    var s6 := ReplaceAll(s5, '\\', "%5c");
    ReplaceAll(s6, '%', "%25")
  }

  /** The characters other than percent that are encoded. */
  predicate IsReserved(c: char)
  {
    c in {'"', '#', '&', '\'', '=', '\\'}
  }

  lemma PercentLastConcat(a: string, b: string)
    ensures PercentLast(a + b) == PercentLast(a) + PercentLast(b)
  {
    var a1, b1 := ReplaceAll(a, '"', "%22"), ReplaceAll(b, '"', "%22");
    ReplaceAllConcat(a, b, '"', "%22");
    var a2, b2 := ReplaceAll(a1, '#', "%23"), ReplaceAll(b1, '#', "%23");
    ReplaceAllConcat(a1, b1, '#', "%23");
    var a3, b3 := ReplaceAll(a2, '&', "%26"), ReplaceAll(b2, '&', "%26");
    ReplaceAllConcat(a2, b2, '&', "%26");
    var a4, b4 := ReplaceAll(a3, '\'', "%27"), ReplaceAll(b3, '\'', "%27");
    ReplaceAllConcat(a3, b3, '\'', "%27");
    var a5, b5 := ReplaceAll(a4, '=', "%3d"), ReplaceAll(b4, '=', "%3d");
    ReplaceAllConcat(a4, b4, '=', "%3d");
    var a6, b6 := ReplaceAll(a5, '\\', "%5c"), ReplaceAll(b5, '\\', "%5c");
    ReplaceAllConcat(a5, b5, '\\', "%5c");
    ReplaceAllConcat(a6, b6, '%', "%25");
  }

  /** The escape of a reserved character is itself encoded. */
  lemma PercentLastOne(x: char)
    ensures PercentLast([x]) == if IsReserved(x) then "%25" + EncodeChar(x)[1..] else EncodeChar(x)
  {
    hide ReplaceAll;
    var s1 := ReplaceAll([x], '"', "%22");
    ReplaceOne(x, '"', "%22");
    var s2 := ReplaceAll(s1, '#', "%23");
    if x == '#' { ReplaceOne(x, '#', "%23"); } else { ReplaceNone(s1, '#', "%23"); }
    var s3 := ReplaceAll(s2, '&', "%26");
    if x == '&' { ReplaceOne(x, '&', "%26"); } else { ReplaceNone(s2, '&', "%26"); }
    var s4 := ReplaceAll(s3, '\'', "%27");
    if x == '\'' { ReplaceOne(x, '\'', "%27"); } else { ReplaceNone(s3, '\'', "%27"); }
    var s5 := ReplaceAll(s4, '=', "%3d");
    if x == '=' { ReplaceOne(x, '=', "%3d"); } else { ReplaceNone(s4, '=', "%3d"); }
    var s6 := ReplaceAll(s5, '\\', "%5c");
    if x == '\\' { ReplaceOne(x, '\\', "%5c"); } else { ReplaceNone(s5, '\\', "%5c"); }
    if IsReserved(x) {
      var digits := EncodeChar(x)[1..];
      assert s6 == "%" + digits;
      ReplaceAllConcat("%", digits, '%', "%25");
      ReplaceOne('%', '%', "%25");
      ReplaceNone(digits, '%', "%25");
    } else {
      ReplaceOne(x, '%', "%25");
    }
  }

  lemma {:induction false} PercentLastLonger(s: string)
    ensures |PercentLast(s)| >= |EncodeValue(s)|
    ensures |PercentLast(s)| == |EncodeValue(s)| <==> forall c :: c in s ==> !IsReserved(c)
    ensures |PercentLast(s)| == |EncodeValue(s)| ==> PercentLast(s) == EncodeValue(s)
  {
    hide PercentLast, EncodeChar, IsReserved;
    if s == "" {
      PercentLastEmpty();
    } else {
      PercentLastLonger(s[1..]);
      PercentLastConcat([s[0]], s[1..]);
      PercentLastOne(s[0]);
      EncodeCharNotEmpty(s[0]);
      assert s == [s[0]] + s[1..];
    }
  }

  lemma PercentLastEmpty()
    ensures PercentLast("") == ""
  {
  }

  lemma EncodeCharNotEmpty(c: char)
    ensures EncodeChar(c) != ""
  {
  }

  /** The percent pass comes first for a reason: last, it would encode the escapes of the other passes
      again, and so the result is the same if and only if no other reserved character occurs. */
  lemma PercentFirstMatters(s: string)
    ensures PercentLast(s) == SevenPasses(s) <==> forall c :: c in s ==> !IsReserved(c)
  {
    hide PercentLast, SevenPasses, IsReserved;
    SevenPassesAreOne(s);
    PercentLastLonger(s);
  }

  // ---------------------------------------------------------------- decoding

  function HexDigit(c: char): Option<nat>
  {
    if '0' <= c <= '9' then Some(c as int - '0' as int)
    else if 'a' <= c <= 'f' then Some(c as int - 'a' as int + 10)
    else if 'A' <= c <= 'F' then Some(c as int - 'A' as int + 10)
    else None
  }

  /** What the input stream makes of two characters that are not both hexadecimal digits. */
  type Malformed = (char, char) -> Option<char>

  function Escape(malformed: Malformed, a: char, b: char): Option<char>
  {
    var h, l := HexDigit(a), HexDigit(b);
    if h.Some? && l.Some? && 16 * h.value + l.value < 256 then Some((16 * h.value + l.value) as char)
    else malformed(a, b)
  }

  /** url_decode from the front of the input. */
  function UrlDecode(malformed: Malformed, s: string): Option<string>
  {
    if s == "" then Some("")
    else if s[0] == '%' then
      if 3 <= |s| then
        match Escape(malformed, s[1], s[2])
        case None => None
        case Some(c) => Prepend(c, UrlDecode(malformed, s[3..]))
      else None
    else Prepend(if s[0] == '+' then ' ' else s[0], UrlDecode(malformed, s[1..]))
  }

  function Prepend(c: char, s: Option<string>): Option<string>
  {
    if s.None? then None else Some([c] + s.value)
  }

  /** The loop of url_decode with its index and its output string. */
  method DecodeUrl(malformed: Malformed, s: string) returns (ok: bool, out: string)
    ensures ok == UrlDecode(malformed, s).Some?
    ensures ok ==> out == UrlDecode(malformed, s).value
  {
    hide Escape;
    out := "";
    var i := 0;
    while i < |s|
      invariant 0 <= i <= |s|
      invariant UrlDecode(malformed, s).Some? <==> UrlDecode(malformed, s[i..]).Some?
      invariant UrlDecode(malformed, s).Some? ==>
                  UrlDecode(malformed, s).value == out + UrlDecode(malformed, s[i..]).value
    {
      assert s[i..][0] == s[i] && s[i..][1..] == s[i + 1..];
      if s[i] == '%' {
        if i + 3 <= |s| {
          assert s[i..][1] == s[i + 1] && s[i..][2] == s[i + 2] && s[i..][3..] == s[i + 3..];
          var value := Escape(malformed, s[i + 1], s[i + 2]);
          if value.Some? {
            out := out + [value.value];
            i := i + 2;
          } else {
            return false, out;
          }
        } else {
          return false, out;
        }
      } else if s[i] == '+' {
        out := out + " ";
      } else {
        out := out + [s[i]];
      }
      i := i + 1;
    }
    return true, out;
  }

  const LOWER := "0123456789abcdef"
  const UPPER := "0123456789ABCDEF"

  /** The digits of both cases stand for their places. */
  lemma HexDigitIs(c: char, i: nat)
    requires i < 16
    ensures HexDigit(c) == Some(i) <==> c == LOWER[i] || c == UPPER[i]
  {
  }

  /** The characters that are encoded, and how: a percent sign and the two digits of the code, in lower case. */
  lemma EncodedInHex(c: char)
    ensures EncodeChar(c) ==
            if c in {'%', '"', '#', '&', '\'', '=', '\\'} then ['%', LOWER[c as int / 16 % 16], LOWER[c as int % 16]]
            else [c]
  {
  }

  /** An escape of any two digits, in either case, is decoded as the character with that code. */
  lemma {:induction false} EscapeDecoded(malformed: Malformed, a: char, b: char, i: nat, j: nat, rest: string)
    requires i < 16 && (a == LOWER[i] || a == UPPER[i]) && j < 16 && (b == LOWER[j] || b == UPPER[j])
    ensures UrlDecode(malformed, ['%', a, b] + rest) == Prepend((16 * i + j) as char, UrlDecode(malformed, rest))
  {
    HexDigitIs(a, i);
    HexDigitIs(b, j);
    hide LOWER, UPPER, HexDigit;
    assert (['%', a, b] + rest)[3..] == rest;
  }

  /** The only loss of the round trip. */
  function PlusToSpace(s: string): (t: string)
    ensures |t| == |s|
    ensures forall i :: 0 <= i < |s| ==> t[i] == if s[i] == '+' then ' ' else s[i]
  {
    if s == "" then "" else [if s[0] == '+' then ' ' else s[0]] + PlusToSpace(s[1..])
  }

  lemma DecodeOne(malformed: Malformed, c: char, rest: string)
    ensures UrlDecode(malformed, EncodeChar(c) + rest) ==
            Prepend(if c == '+' then ' ' else c, UrlDecode(malformed, rest))
  {
    var e := EncodeChar(c);
    assert (e + rest)[|e|..] == rest;
  }

  /** Decoding an encoded value turns every '+' into a space and changes nothing else. */
  lemma {:induction false} DecodeEncoded(malformed: Malformed, s: string)
    ensures UrlDecode(malformed, EncodeValue(s)) == Some(PlusToSpace(s))
  {
    hide EncodeChar;
    if s != "" {
      DecodeEncoded(malformed, s[1..]);
      DecodeOne(malformed, s[0], EncodeValue(s[1..]));
    }
  }

  /** The round trip of a value holds exactly when it has no '+'. */
  lemma ValueRoundTripIff(malformed: Malformed, s: string)
    ensures UrlDecode(malformed, SevenPasses(s)) == Some(s) <==> '+' !in s
  {
    hide SevenPasses, UrlDecode, EncodeValue;
    SevenPassesAreOne(s);
    DecodeEncoded(malformed, s);
    if '+' !in s {
      assert PlusToSpace(s) == s;
    }
  }

  // ---------------------------------------------------------------- splitting

  predicate OccursAt(s: string, sep: string, i: nat)
  {
    i + |sep| <= |s| && s[i..i + |sep|] == sep
  }

  /** string::find: the first occurrence from position i on, if any. */
  function Find(s: string, sep: string, i: nat): (r: Option<nat>)
    requires i <= |s|
    ensures r.Some? ==> OccursAt(s, sep, r.value) && i <= r.value && forall j :: i <= j < r.value ==>
            !OccursAt(s, sep, j)
    ensures r.None? ==> forall j :: i <= j ==> !OccursAt(s, sep, j)
    decreases |s| - i
  {
    if OccursAt(s, sep, i) then Some(i)
    else if i == |s| then None
    else Find(s, sep, i + 1)
  }

  function Split(s: string, sep: string): (tokens: seq<string>)
    requires sep != ""
    ensures |tokens| >= 1
    decreases |s|
  {
    var pos := Find(s, sep, 0);
    if pos.None? then [s] else [s[..pos.value]] + Split(s[pos.value + |sep|..], sep)
  }

  /** The loop of seperate_string. It ends for every separator but the empty one. */
  method SeperateString(s: string, sep: string) returns (tokens: seq<string>)
    requires sep != ""
    ensures tokens == Split(s, sep)
  {
    hide OccursAt;
    tokens := [];
    var input := s;
    var pos := Find(input, sep, 0);
    while pos.Some?
      invariant pos == Find(input, sep, 0)
      invariant tokens + Split(input, sep) == Split(s, sep)
      decreases |input|
    {
      FindFits(input, sep);
      tokens := tokens + [input[..pos.value]];
      input := input[pos.value + |sep|..];
      pos := Find(input, sep, 0);
    }
    tokens := tokens + [input];
  }

  lemma FindFits(s: string, sep: string)
    ensures Find(s, sep, 0).Some? ==> Find(s, sep, 0).value + |sep| <= |s|
  {
  }

  function Join(tokens: seq<string>, sep: string): string
  {
    if tokens == [] then ""
    else if |tokens| == 1 then tokens[0]
    else tokens[0] + sep + Join(tokens[1..], sep)
  }

  /** Splitting loses nothing: for every string and separator, joining the tokens gives it back. */
  lemma {:induction false} JoinOfSplit(s: string, sep: string)
    requires sep != ""
    ensures Join(Split(s, sep), sep) == s
    decreases |s|
  {
    hide OccursAt, Find;
    var pos := Find(s, sep, 0);
    if pos.Some? {
      FindOccurs(s, sep);
      var rest := s[pos.value + |sep|..];
      JoinOfSplit(rest, sep);
      assert s == s[..pos.value] + sep + rest;
    }
  }

  /** And it leaves nothing to split: no token contains the separator. */
  lemma {:induction false} SplitTokensClean(s: string, sep: string, k: nat, i: nat)
    requires sep != "" && k < |Split(s, sep)|
    ensures !OccursAt(Split(s, sep)[k], sep, i)
    decreases |s|
  {
    hide OccursAt, Find;
    var pos := Find(s, sep, 0);
    if pos.None? || k == 0 {
      BeforeFirst(s, sep, i);
    } else {
      FindFits(s, sep);
      SplitTokensClean(s[pos.value + |sep|..], sep, k - 1, i);
    }
  }

  lemma BeforeFirst(s: string, sep: string, i: nat)
    requires sep != ""
    ensures var pos := Find(s, sep, 0);
            if pos.None? then !OccursAt(s, sep, i)
            else pos.value + |sep| <= |s| && !OccursAt(s[..pos.value], sep, i)
  {
    hide Find;
    var pos := Find(s, sep, 0);
    if pos.Some? && i + |sep| <= pos.value {
      assert s[..pos.value][i..i + |sep|] == s[i..i + |sep|];
      assert !OccursAt(s, sep, i);
    }
  }

  lemma FindOccurs(s: string, sep: string)
    ensures var r := Find(s, sep, 0);
            r.Some? ==> r.value + |sep| <= |s| && s[r.value..r.value + |sep|] == sep
  {
  }

  /** With a one-character separator that no token contains, splitting undoes joining. */
  lemma {:induction false} SplitOfJoin(tokens: seq<string>, c: char)
    requires tokens != [] && forall t :: t in tokens ==> c !in t
    ensures Split(Join(tokens, [c]), [c]) == tokens
  {
    var s := Join(tokens, [c]);
    if |tokens| == 1 {
      FindNone(s, c);
    } else {
      FindFirst(tokens[0], c, Join(tokens[1..], [c]));
      assert s == tokens[0] + [c] + Join(tokens[1..], [c]);
      assert s[..|tokens[0]|] == tokens[0];
      assert s[|tokens[0]| + 1..] == Join(tokens[1..], [c]);
      SplitOfJoin(tokens[1..], c);
    }
  }

  lemma FindNone(s: string, c: char)
    requires c !in s
    ensures Find(s, [c], 0).None?
  {
    forall j: nat | j + 1 <= |s|
      ensures !OccursAt(s, [c], j)
    {
      assert s[j..j + 1][0] == s[j];
    }
  }

  lemma FindFirst(t: string, c: char, rest: string)
    requires c !in t
    ensures Find(t + [c] + rest, [c], 0) == Some(|t|)
  {
    var s := t + [c] + rest;
    assert s[|t|..|t| + 1] == [c];
    assert OccursAt(s, [c], |t|);
    forall j | 0 <= j < |t|
      ensures !OccursAt(s, [c], j)
    {
      assert s[j..j + 1][0] == t[j];
    }
  }

  // ---------------------------------------------------------------- structured text

  /** The entries of a string_map in iteration order. */
  type Entries = seq<(string, string)>

  function Field(e: (string, string)): string
  {
    e.0 + "=" + SevenPasses(e.1)
  }

  function Fields(m: Entries): (fs: seq<string>)
    ensures |fs| == |m|
  {
    seq(|m|, i requires 0 <= i < |m| => Field(m[i]))
  }

  function EncodeMap(m: Entries): string
  {
    Join(Fields(m), "&")
  }

  function EncodedMaps(ms: seq<Entries>): (ts: seq<string>)
    ensures |ts| == |ms|
  {
    seq(|ms|, i requires 0 <= i < |ms| => EncodeMap(ms[i]))
  }

  function EncodeMaps(ms: seq<Entries>): string
  {
    Join(EncodedMaps(ms), "#")
  }

  lemma {:induction false} JoinAppend(tokens: seq<string>, t: string, sep: string)
    requires tokens != []
    ensures Join(tokens + [t], sep) == Join(tokens, sep) + sep + t
  {
    if |tokens| == 1 {
      assert (tokens + [t])[1..] == [t];
    } else {
      JoinAppend(tokens[1..], t, sep);
      assert (tokens + [t])[1..] == tokens[1..] + [t];
    }
  }

  /** One more entry is written behind an ampersand, with an equals sign before its value. */
  lemma MapWritten(m: Entries, key: string, value: string)
    ensures EncodeMap(m + [(key, value)]) ==
            (if m == [] then "" else EncodeMap(m) + "&") + key + "=" + EncodeValue(value)
  {
    hide SevenPasses, EncodeValue;
    SevenPassesAreOne(value);
    var e := (key, value);
    assert Fields(m + [e]) == Fields(m) + [Field(e)];
    if m != [] {
      JoinAppend(Fields(m), Field(e), "&");
    }
  }

  /** And one more map behind a hash sign. */
  lemma MapsWritten(ms: seq<Entries>, m: Entries)
    ensures EncodeMaps(ms + [m]) == (if ms == [] then "" else EncodeMaps(ms) + "#") + EncodeMap(m)
  {
    hide EncodeMap;
    assert EncodedMaps(ms + [m]) == EncodedMaps(ms) + [EncodeMap(m)];
    if ms != [] {
      JoinAppend(EncodedMaps(ms), EncodeMap(m), "#");
    }
  }

  /** A separator before every entry but the first. */
  method EncodeOutput(m: Entries) returns (answer: string)
    ensures answer == EncodeMap(m)
  {
    hide SevenPasses;
    answer := "";
    for i := 0 to |m|
      invariant answer == Join(Fields(m)[..i], "&")
    {
      if i != 0 {
        JoinAppend(Fields(m)[..i], Field(m[i]), "&");
        answer := answer + "&";
      }
      answer := answer + (m[i].0 + "=" + SevenPasses(m[i].1));
      assert Fields(m)[..i + 1] == Fields(m)[..i] + [Field(m[i])];
    }
    assert Fields(m)[..|m|] == Fields(m);
  }

  method EncodeOutputs(ms: seq<Entries>) returns (answer: string)
    ensures answer == EncodeMaps(ms)
  {
    hide EncodeMap;
    answer := "";
    for i := 0 to |ms|
      invariant answer == Join(EncodedMaps(ms)[..i], "#")
    {
      if i != 0 {
        JoinAppend(EncodedMaps(ms)[..i], EncodeMap(ms[i]), "#");
        answer := answer + "#";
      }
      var part := EncodeOutput(ms[i]);
      answer := answer + part;
      assert EncodedMaps(ms)[..i + 1] == EncodedMaps(ms)[..i] + [EncodeMap(ms[i])];
    }
    assert EncodedMaps(ms)[..|ms|] == EncodedMaps(ms);
  }

  /** Reading one entry: the name before the '=', the decoded value behind it. */
  function DecodeField(malformed: Malformed, t: string): Option<(string, string)>
  {
    var parts := Split(t, "=");
    if |parts| != 2 then None
    else
      match UrlDecode(malformed, parts[1])
      case None => None
      case Some(v) => Some((parts[0], v))
  }

  function DecodeFields(malformed: Malformed, ts: seq<string>): Option<Entries>
  {
    if ts == [] then Some([])
    else
      var first, rest := DecodeField(malformed, ts[0]), DecodeFields(malformed, ts[1..]);
      if first.None? || rest.None? then None else Some([first.value] + rest.value)
  }

  function DecodeRows(malformed: Malformed, ts: seq<string>): Option<seq<Entries>>
  {
    if ts == [] then Some([])
    else
      var first, rest := DecodeFields(malformed, Split(ts[0], "&")), DecodeRows(malformed, ts[1..]);
      if first.None? || rest.None? then None else Some([first.value] + rest.value)
  }

  /** Splitting on "#", "&" and "=" in turn, and decoding the values. */
  function DecodeMaps(malformed: Malformed, s: string): Option<seq<Entries>>
  {
    DecodeRows(malformed, Split(s, "#"))
  }

  predicate PlainKey(k: string)
  {
    '&' !in k && '=' !in k && '#' !in k
  }

  predicate PlainKeys(m: Entries)
  {
    m != [] && forall e :: e in m ==> PlainKey(e.0)
  }

  function Spaced(m: Entries): (n: Entries)
    ensures |n| == |m|
  {
    seq(|m|, i requires 0 <= i < |m| => (m[i].0, PlusToSpace(m[i].1)))
  }

  function AllSpaced(ms: seq<Entries>): (ns: seq<Entries>)
    ensures |ns| == |ms|
  {
    seq(|ms|, i requires 0 <= i < |ms| => Spaced(ms[i]))
  }

  /** No structural character survives the encoding of a value. */
  lemma {:induction false} EncodedIsPlain(s: string)
    ensures PlainKey(EncodeValue(s))
  {
    if s != "" {
      EncodedIsPlain(s[1..]);
      var e := EncodeChar(s[0]);
      assert PlainKey(e);
    }
  }

  lemma FieldRoundTrip(malformed: Malformed, e: (string, string))
    requires PlainKey(e.0)
    ensures DecodeField(malformed, Field(e)) == Some((e.0, PlusToSpace(e.1)))
    ensures '&' !in Field(e) && '#' !in Field(e)
  {
    hide SevenPasses, UrlDecode, EncodeValue;
    SevenPassesAreOne(e.1);
    EncodedIsPlain(e.1);
    var v := SevenPasses(e.1);
    var parts := [e.0, v];
    assert Join(parts[1..], "=") == v;
    assert Join(parts, "=") == Field(e);
    SplitOfJoin(parts, '=');
    DecodeEncoded(malformed, e.1);
  }

  lemma {:induction false} FieldsRoundTrip(malformed: Malformed, m: Entries)
    requires forall e :: e in m ==> PlainKey(e.0)
    ensures DecodeFields(malformed, Fields(m)) == Some(Spaced(m))
    ensures forall t :: t in Fields(m) ==> '&' !in t && '#' !in t
  {
    hide Field, DecodeField, PlainKey;
    if m != [] {
      assert m[0] in m;
      FieldRoundTrip(malformed, m[0]);
      FieldsRoundTrip(malformed, m[1..]);
      assert Fields(m) == [Field(m[0])] + Fields(m[1..]);
      assert Spaced(m) == [(m[0].0, PlusToSpace(m[0].1))] + Spaced(m[1..]);
    }
  }

  lemma {:induction false} JoinAvoids(tokens: seq<string>, sep: string, c: char)
    requires c !in sep && forall t :: t in tokens ==> c !in t
    ensures c !in Join(tokens, sep)
  {
    if |tokens| > 1 {
      JoinAvoids(tokens[1..], sep, c);
    }
  }

  lemma MapRoundTrip(malformed: Malformed, m: Entries)
    requires PlainKeys(m)
    ensures DecodeFields(malformed, Split(EncodeMap(m), "&")) == Some(Spaced(m))
    ensures '#' !in EncodeMap(m)
  {
    hide Field, DecodeFields, Split, Join;
    FieldsRoundTrip(malformed, m);
    SplitOfJoin(Fields(m), '&');
    JoinAvoids(Fields(m), "&", '#');
  }

  lemma {:induction false} RowsRoundTrip(malformed: Malformed, ms: seq<Entries>)
    requires forall m :: m in ms ==> PlainKeys(m)
    ensures DecodeRows(malformed, EncodedMaps(ms)) == Some(AllSpaced(ms))
    ensures forall t :: t in EncodedMaps(ms) ==> '#' !in t
  {
    hide EncodeMap, DecodeFields, PlainKeys, Split;
    if ms != [] {
      assert ms[0] in ms;
      MapRoundTrip(malformed, ms[0]);
      RowsRoundTrip(malformed, ms[1..]);
      assert EncodedMaps(ms) == [EncodeMap(ms[0])] + EncodedMaps(ms[1..]);
      assert AllSpaced(ms) == [Spaced(ms[0])] + AllSpaced(ms[1..]);
    }
  }

  /** Any non-empty list of non-empty maps whose keys avoid the three separators comes back with
      every '+' in its values turned into a space. */
  lemma MapsDecode(malformed: Malformed, ms: seq<Entries>)
    requires ms != [] && forall m :: m in ms ==> PlainKeys(m)
    ensures DecodeMaps(malformed, EncodeMaps(ms)) == Some(AllSpaced(ms))
  {
    hide DecodeRows, EncodedMaps, Split, Join, PlainKeys;
    RowsRoundTrip(malformed, ms);
    SplitOfJoin(EncodedMaps(ms), '#');
  }

  lemma SpacedSame(s: string)
    ensures PlusToSpace(s) == s <==> '+' !in s
  {
    if '+' !in s {
      assert forall i :: 0 <= i < |s| ==> PlusToSpace(s)[i] == s[i];
    }
  }

  lemma {:induction false} SplitChars(s: string, sep: string, k: nat, c: char)
    requires sep != "" && k < |Split(s, sep)| && c in Split(s, sep)[k]
    ensures c in s
    decreases |s|
  {
    hide Find, OccursAt;
    var pos := Find(s, sep, 0);
    if pos.Some? && k > 0 {
      FindFits(s, sep);
      SplitChars(s[pos.value + |sep|..], sep, k - 1, c);
    }
  }

  /** A token of a split at a character does not contain it. */
  lemma TokenAvoids(s: string, c: char, k: nat)
    requires k < |Split(s, [c])|
    ensures c !in Split(s, [c])[k]
  {
    hide Split;
    var t := Split(s, [c])[k];
    forall i | 0 <= i < |t|
      ensures t[i] != c
    {
      SplitTokensClean(s, [c], k, i);
      assert t[i..i + 1] == [t[i]];
    }
  }

  lemma DecodedKeyPlain(malformed: Malformed, t: string)
    requires '&' !in t && '#' !in t && DecodeField(malformed, t).Some?
    ensures PlainKey(DecodeField(malformed, t).value.0)
  {
    hide Split, UrlDecode;
    var key := Split(t, "=")[0];
    TokenAvoids(t, '=', 0);
    forall c | c in key
      ensures c in t
    {
      SplitChars(t, "=", 0, c);
    }
  }

  lemma {:induction false} DecodedFieldsPlain(malformed: Malformed, ts: seq<string>)
    requires (forall t :: t in ts ==> '&' !in t && '#' !in t) && DecodeFields(malformed, ts).Some?
    ensures |DecodeFields(malformed, ts).value| == |ts|
    ensures forall e :: e in DecodeFields(malformed, ts).value ==> PlainKey(e.0)
  {
    hide DecodeField, PlainKey;
    if ts != [] {
      DecodedKeyPlain(malformed, ts[0]);
      DecodedFieldsPlain(malformed, ts[1..]);
    }
  }

  lemma {:induction false} DecodedRowsPlain(malformed: Malformed, ts: seq<string>)
    requires (forall t :: t in ts ==> '#' !in t) && DecodeRows(malformed, ts).Some?
    ensures |DecodeRows(malformed, ts).value| == |ts|
    ensures forall m :: m in DecodeRows(malformed, ts).value ==> PlainKeys(m)
  {
    hide DecodeFields, PlainKey, Split;
    if ts != [] {
      var fields := Split(ts[0], "&");
      forall k | 0 <= k < |fields|
        ensures '&' !in fields[k] && '#' !in fields[k]
      {
        TokenAvoids(ts[0], '&', k);
        if '#' in fields[k] {
          SplitChars(ts[0], "&", k, '#');
        }
      }
      DecodedFieldsPlain(malformed, fields);
      DecodedRowsPlain(malformed, ts[1..]);
    }
  }

  /** Whatever text is decoded, what comes out is not empty, nor is any of its maps, and its keys are plain. */
  lemma DecodedIsPlain(malformed: Malformed, s: string)
    requires DecodeMaps(malformed, s).Some?
    ensures var ms := DecodeMaps(malformed, s).value; ms != [] && forall m :: m in ms ==> PlainKeys(m)
  {
    hide DecodeRows, Split, PlainKeys;
    var rows := Split(s, "#");
    forall k | 0 <= k < |rows|
      ensures '#' !in rows[k]
    {
      TokenAvoids(s, '#', k);
    }
    DecodedRowsPlain(malformed, rows);
  }

  /** The round trip of plain maps is exact if and only if no value contains a '+'. */
  lemma PlainMapsRoundTripIff(malformed: Malformed, ms: seq<Entries>)
    requires ms != [] && forall m :: m in ms ==> PlainKeys(m)
    ensures DecodeMaps(malformed, EncodeMaps(ms)) == Some(ms) <==>
            forall i, j :: 0 <= i < |ms| && 0 <= j < |ms[i]| ==> '+' !in ms[i][j].1
  {
    hide DecodeMaps, EncodeMaps, PlainKeys, PlusToSpace;
    MapsDecode(malformed, ms);
    var ns := AllSpaced(ms);
    forall i, j | 0 <= i < |ms| && 0 <= j < |ms[i]|
      ensures ns[i][j] == ms[i][j] <==> '+' !in ms[i][j].1
    {
      SpacedSame(ms[i][j].1);
    }
    if forall i, j :: 0 <= i < |ms| && 0 <= j < |ms[i]| ==> '+' !in ms[i][j].1 {
      forall i | 0 <= i < |ms|
        ensures ns[i] == ms[i]
      {
        assert forall j :: 0 <= j < |ms[i]| ==> ns[i][j] == ms[i][j];
      }
      assert ns == ms;
    }
  }

  /** Any list of maps at all comes back from the round trip if and only if it is not empty, none of its
      maps is empty, no key contains a separator and no value contains a '+'. */
  lemma MapsRoundTripIff(malformed: Malformed, ms: seq<Entries>)
    ensures DecodeMaps(malformed, EncodeMaps(ms)) == Some(ms) <==>
            && ms != [] && (forall m :: m in ms ==> PlainKeys(m))
            && forall i, j :: 0 <= i < |ms| && 0 <= j < |ms[i]| ==> '+' !in ms[i][j].1
  {
    hide DecodeMaps, EncodeMaps, PlainKeys;
    if DecodeMaps(malformed, EncodeMaps(ms)) == Some(ms) {
      DecodedIsPlain(malformed, EncodeMaps(ms));
    }
    if ms != [] && forall m :: m in ms ==> PlainKeys(m) {
      PlainMapsRoundTripIff(malformed, ms);
    }
  }
}
