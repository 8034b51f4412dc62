/** The response's header printer and the request's header parser are inverse to each other. */
module HeaderRoundTrip {
  import opened Wrappers
  import opened Strings
  import opened Requests
  import Responses
  import Decimal

  /** A header that survives printing and parsing (section 4.2 of RFC 1945). */
  predicate WellFormed(h: Header) {
    && h.0 != ""
    && (forall c :: c in h.0 ==> c != ':' && c != '\r' && c != '\n')
    && (forall c :: c in h.1 ==> c != '\r' && c != '\n')
    && (h.1 != "" ==> !IsSpace(h.1[0]))
  }

  /** What the dictionary holds after the calls, a later one replacing an earlier one. */
  function Bindings(headers: seq<Header>): map<string, string> {
    if headers == [] then map[]
    else Bindings(headers[..|headers| - 1])[headers[|headers| - 1].0 := headers[|headers| - 1].1]
  }

  lemma TokenUpTo(token: string, d: char, rest: string, delim: set<char>)
    requires token != "" && d in delim && forall c :: c in token ==> c !in delim
    ensures SepExt(Some(token + [d] + rest), delim) == (Some(token), Some(rest))
  {
    var s := token + [d] + rest;
    CutIs(s, delim, |token|);
    assert s[..|token|] == token && s[|token| + 1..] == rest;
  }

  lemma SkipDelimiter(d: char, rest: string, delim: set<char>)
    requires d in delim
    ensures SepExt(Some([d] + rest), delim) == SepExt(Some(rest), delim)
  {
    CutIs([d] + rest, delim, 0);
    assert ([d] + rest)[1..] == rest && ([d] + rest)[..0] == "";
  }

  lemma HeaderLineParses(h: Header)
    requires WellFormed(h)
    ensures ParseHeaderLine(h.0 + ": " + h.1) == Some(h)
  {
    assert h.0 + ": " + h.1 == h.0 + [':'] + (" " + h.1);
    TokenUpTo(h.0, ':', " " + h.1, HEADER_DELIMITER);
    assert (" " + h.1)[1..] == h.1;
    assert DropSpace(" " + h.1) == DropSpace(h.1) == h.1;
  }

  /** The line of a header, as the parser sees it after the end of the line before. */
  lemma LineTaken(h: Header, rest: string)
    requires WellFormed(h)
    ensures SepExt(Some(Responses.Line(h) + rest), LINE_DELIMITER) == (Some(h.0 + ": " + h.1), Some("\n" + rest))
  {
    var line := h.0 + ": " + h.1;
    assert Responses.Line(h) + rest == line + ['\r'] + ("\n" + rest);
    TokenUpTo(line, '\r', "\n" + rest, LINE_DELIMITER);
  }

  lemma BlankLineEnds()
    ensures SepExt(Some(Responses.CRLF), LINE_DELIMITER) == (None, None)
  {
    SkipDelimiter('\r', "\n", LINE_DELIMITER);
    assert "\n" == ['\n'] + "";
    SkipDelimiter('\n', "", LINE_DELIMITER);
  }

  lemma {:induction false} PrintedParses(headers: seq<Header>)
    requires forall h :: h in headers ==> WellFormed(h)
    ensures ParseHeaders(Some(Responses.Lines(headers) + Responses.CRLF)) == Some(headers)
  {
    var text := Responses.Lines(headers) + Responses.CRLF;
    if headers == [] {
      assert text == Responses.CRLF;
      BlankLineEnds();
    } else {
      var h, rest := headers[0], Responses.Lines(headers[1..]) + Responses.CRLF;
      assert text == Responses.Line(h) + rest;
      LineTaken(h, rest);
      HeaderLineParses(h);
      PrintedParses(headers[1..]);
      NewlineSkipped(rest);
      assert [h] + headers[1..] == headers;
    }
  }

  lemma NewlineSkipped(rest: string)
    ensures ParseHeaders(Some("\n" + rest)) == ParseHeaders(Some(rest))
  {
    SkipDelimiter('\n', rest, LINE_DELIMITER);
  }

  /** A token and what follows it are made of characters of the text. */
  lemma {:induction false} SepExtChars(s: Option<string>, delim: set<char>)
    ensures
      var (token, rest) := SepExt(s, delim);
      && (token.Some? ==> s.Some? && forall c :: c in token.value ==> c in s.value)
      && (rest.Some? ==> s.Some? && forall c :: c in rest.value ==> c in s.value)
    decreases if s.None? then 0 else 1 + |s.value|
  {
    if s.Some? {
      var (token, rest) := Sep(s.value, delim);
      if token == "" { SepExtChars(rest, delim); }
    }
  }

  /** Whatever the parser stores is well formed. */
  lemma {:induction false} ParsedIsWellFormed(text: Option<string>)
    ensures ParseHeaders(text).Some? ==> forall h :: h in ParseHeaders(text).value ==> WellFormed(h)
    decreases if text.None? then 0 else 1 + |text.value|
  {
    var (line, rest) := SepExt(text, LINE_DELIMITER);
    if ParseHeaders(text).Some? && line.Some? {
      var (key, value) := SepExt(Some(line.value), HEADER_DELIMITER);
      SepExtChars(Some(line.value), HEADER_DELIMITER);
      DropSpaceKeeps(value.value);
      ParsedIsWellFormed(rest);
      assert WellFormed(ParseHeaderLine(line.value).value);
    }
  }

  /** Printing headers and parsing the result gives back the same headers exactly when each of them is
      well formed. */
  lemma RoundTrip(headers: seq<Header>)
    ensures ParseHeaders(Some(Responses.Lines(headers) + Responses.CRLF)) == Some(headers)
      <==> forall h :: h in headers ==> WellFormed(h)
  {
    if forall h :: h in headers ==> WellFormed(h) {
      PrintedParses(headers);
    }
    ParsedIsWellFormed(Some(Responses.Lines(headers) + Responses.CRLF));
  }

  /** With unique keys the dictionary holds exactly the headers, in whatever order they were printed. */
  lemma {:induction false} UniqueKeysBind(headers: seq<Header>, key: string, value: string)
    requires forall i, j :: 0 <= i < j < |headers| ==> headers[i].0 != headers[j].0
    ensures (key in Bindings(headers) && Bindings(headers)[key] == value) <==> (key, value) in headers
  {
    if headers != [] {
      var front, last := headers[..|headers| - 1], headers[|headers| - 1];
      assert headers == front + [last];
      UniqueKeysBind(front, key, value);
      assert (key, value) in headers <==> (key, value) in front || (key, value) == last;
      assert forall i :: 0 <= i < |front| ==> front[i] == headers[i] && front[i].0 != last.0;
    }
  }

  /** The text of a GET request. */
  function Printed(path: string, headers: seq<Header>): string {
    "GET " + path + " HTTP/1.0" + Responses.CRLF + (Responses.Lines(headers) + Responses.CRLF)
  }

  /** A whole request: the action line's words and the headers come back. */
  lemma RequestRoundTrip(path: string, headers: seq<Header>)
    requires path != "" && forall c :: c in path ==> c != ' ' && c != '\r' && c != '\n'
    requires forall h :: h in headers ==> WellFormed(h)
    ensures Parse(Printed(path, headers)) == Some(Parsed(Action(Get, path, Http10), headers))
  {
    hide Parse, ParseHeaders, Responses.Lines, Words, SepExt;
    var rest := Responses.Lines(headers) + Responses.CRLF;
    ActionLineParses("GET " + path + " HTTP/1.0", rest);
    PrintedParses(headers);
    WordsOf(path);
  }

  /** The same in place: the printed request in a buffer, cut up by the parser, leaves slices that say the
      path and exactly the headers printed, so with unique keys the header dictionary is rebuilt. What
      follows the text's terminator in the buffer does not matter. */
  method ParsePrinted(path: string, headers: seq<Header>, spare: string) returns (r: Request)
    requires path != "" && forall c :: c in path ==> c != ' ' && c != '\r' && c != '\n'
    requires forall h :: h in headers ==> WellFormed(h)
    requires NUL !in path && forall h :: h in headers ==> NUL !in h.0 && NUL !in h.1
    ensures r.path.Some? && r.path.value < r.buffer.Length && CStr(r.buffer[..], r.path.value) == path
    ensures r.method_ == Get && r.version == Http10
    ensures Behind(r.buffer[..], r.headers, None) && Says(r.buffer[..], r.headers) == headers
    ensures
      (forall i, j :: 0 <= i < j < |headers| ==> headers[i].0 != headers[j].0) ==>
      forall key, value ::
        (key in Bindings(Says(r.buffer[..], r.headers)) && Bindings(Says(r.buffer[..], r.headers))[key] == value) <==>
        (key, value) in headers
  {
    var text := Printed(path, headers);
    var all := text + [NUL] + spare + [NUL];
    var buffer := new char[|all|](i requires 0 <= i < |all| => all[i]);
    assert buffer[..] == all;
    PrintedNulFree(path, headers);
    NulFreeText(all, text);
    RequestRoundTrip(path, headers);
    hide CStr, Printed, Parse, Says, Bindings, WellFormed;
    r := new Request(buffer);
    var ok := r.ParseBuffer();
    if forall i, j :: 0 <= i < j < |headers| ==> headers[i].0 != headers[j].0 {
      forall key, value { UniqueKeysBind(headers, key, value); }
    }
  }

  lemma NulFreeText(all: string, text: string)
    requires |text| < |all| && all[..|text|] == text && all[|text|] == NUL && NUL !in text
    ensures CStr(all, 0) == text
  {
    forall i | 0 <= i < |text| ensures all[i] != NUL { assert all[i] == all[..|text|][i] == text[i]; }
    StrLenIs(all, 0, |text|);
  }

  lemma PrintedNulFree(path: string, headers: seq<Header>)
    requires NUL !in path && forall h :: h in headers ==> NUL !in h.0 && NUL !in h.1
    ensures NUL !in Printed(path, headers)
  {
    LinesNulFree(headers);
  }

  lemma {:induction false} LinesNulFree(headers: seq<Header>)
    requires forall h :: h in headers ==> NUL !in h.0 && NUL !in h.1
    ensures NUL !in Responses.Lines(headers)
  {
    if headers != [] {
      assert headers[0] in headers;
      LinesNulFree(headers[1..]);
    }
  }

  lemma ActionLineParses(line: string, rest: string)
    requires line != "" && forall c :: c in line ==> c != '\r' && c != '\n'
    ensures Parse(line + Responses.CRLF + rest) ==
      var action := ParseAction(Some(line));
      if action.None? || ParseHeaders(Some(rest)).None? then None
      else Some(Parsed(action.value, ParseHeaders(Some(rest)).value))
  {
    hide ParseAction, ParseHeaders;
    assert line + Responses.CRLF + rest == line + ['\r'] + ("\n" + rest);
    TokenUpTo(line, '\r', "\n" + rest, LINE_DELIMITER);
    NewlineSkipped(rest);
  }

  /** A text without delimiters is one token. */
  lemma LastToken(token: string, delim: set<char>)
    requires token != "" && forall i :: 0 <= i < |token| ==> token[i] !in delim
    ensures SepExt(Some(token), delim) == (Some(token), None)
  {
    CutIs(token, delim, |token|);
    assert token[..|token|] == token;
  }

  lemma WordsOf(path: string)
    requires path != "" && forall c :: c in path ==> c != ' '
    ensures Words(Some("GET " + path + " HTTP/1.0")) == (Some("GET"), Some(path), Some("HTTP/1.0"))
  {
    hide SepExt;
    var get, version := "GET", "HTTP/1.0";
    var rest := path + [' '] + version;
    assert "GET " + path + " HTTP/1.0" == get + [' '] + rest;
    assert forall i :: 0 <= i < |get| ==> get[i] !in BLANK;
    assert forall i :: 0 <= i < |version| ==> version[i] !in BLANK;
    TokenUpTo(get, ' ', rest, BLANK);
    TokenUpTo(path, ' ', version, BLANK);
    LastToken(version, BLANK);
  }

  // ----- Trimming -----

  /** What the comment on strtrim promises: white space goes at both ends. */
  function TrimBoth(s: string): string { DropTrailing(DropSpace(s)) }

  function DropTrailing(s: string): (t: string)
    ensures |t| <= |s|
  {
    if s != "" && IsSpace(s[|s| - 1]) then DropTrailing(s[..|s| - 1]) else s
  }

  /** The code keeps white space at the end: it trims both ends exactly when the text is all white space
      or does not end in any. */
  lemma TrimsFrontOnly(s: string)
    ensures DropSpace(s) == TrimBoth(s) <==> DropSpace(s) == "" || !IsSpace(s[|s| - 1])
    ensures DropSpace("a ") != TrimBoth("a ")
  {
    DropSpaceEnd(s);
    assert "a "[..1] == "a";
  }

  lemma {:induction false} DropSpaceEnd(s: string)
    ensures |DropSpace(s)| <= |s|
    ensures DropSpace(s) != "" ==> s != "" && DropSpace(s)[|DropSpace(s)| - 1] == s[|s| - 1]
  {
    if s != "" && IsSpace(s[0]) { DropSpaceEnd(s[1..]); }
  }

  // ----- The action line -----

  /** A word of the action line. */
  predicate IsWord(s: string) { s != "" && ' ' !in s }

  /** The three words of an action line: the method is GET if the first starts with these letters, and the
      version what the last one starts with. */
  lemma ActionLineReads(first: string, path: string, last: string)
    requires IsWord(first) && IsWord(path) && IsWord(last)
    ensures ParseAction(Some(first + " " + path + " " + last)) == Some(Action(
      if |first| >= 3 && first[0] == 'G' && first[1] == 'E' && first[2] == 'T' then Get else UnknownMethod,
      path,
      if |last| >= 8 && last[..8] == "HTTP/1.0" then Http10
      else if |last| >= 8 && last[..8] == "HTTP/1.1" then Http11
      else UnknownVersion))
  {
    hide Words, IsWord;
    ThreeWords(first, path, last);
    assert "GET" <= first <==> |first| >= 3 && first[..3] == "GET";
    assert |first| >= 3 ==> first[..3] == [first[0], first[1], first[2]];
  }

  lemma ThreeWords(first: string, path: string, last: string)
    requires IsWord(first) && IsWord(path) && IsWord(last)
    ensures Words(Some(first + " " + path + " " + last)) == (Some(first), Some(path), Some(last))
  {
    hide SepExt;
    var rest := path + [' '] + last;
    assert first + " " + path + " " + last == first + [' '] + rest;
    assert forall i :: 0 <= i < |last| ==> last[i] in last;
    TokenUpTo(first, ' ', rest, BLANK);
    TokenUpTo(path, ' ', last, BLANK);
    LastToken(last, BLANK);
  }

  /** With fewer than three words there is no request. */
  lemma ShortActionLine(first: string, path: string)
    requires IsWord(first) && IsWord(path)
    ensures ParseAction(Some(first)) == None && ParseAction(Some(first + " " + path)) == None
  {
    assert first + " " + path == first + [' '] + path;
    assert forall i :: 0 <= i < |first| ==> first[i] in first;
    assert forall i :: 0 <= i < |path| ==> path[i] in path;
    TokenUpTo(first, ' ', path, BLANK);
    LastToken(first, BLANK);
    LastToken(path, BLANK);
  }

  // ----- The response reads back -----

  /** A status line: protocol, three digits that say the code, its name, and the end of the line. */
  predicate IsStatusLine(line: string, code: nat, name: string) {
    && |line| == |name| + 15 && line[..9] == "HTTP/1.0 "
    && (forall c :: c in line[9..12] ==> Decimal.IsDigit(c)) && Decimal.Value(line[9..12]) == code
    && line[12] == ' ' && line[13..|name| + 13] == name && line[|name| + 13..] == "\r\n"
  }

  lemma StatusLineReads(code: nat, name: string)
    requires 100 <= code <= 999 && |name| <= 239
    ensures IsStatusLine(Responses.StatusLine(code, name), code, name)
  {
    Decimal.RenderValue(code);
    ThreeDigits(code);
    var line, digits := Responses.StatusLine(code, name), Decimal.Render(code);
    assert line == "HTTP/1.0 " + digits + " " + name + "\r\n";
    hide Decimal.Render, Responses.StatusLine;
    assert line[9..12] == digits;
  }

  lemma ThreeDigits(code: nat)
    requires 100 <= code <= 999
    ensures |Decimal.Render(code)| == 3
  {
    assert |Decimal.Render(code / 10)| == 1 + |Decimal.Render(code / 10 / 10)|;
    assert |Decimal.Render(code / 10 / 10)| == 1;
  }

  /** What a client reads: the status line, header lines that parse back to the headers, the blank line, and
      what is left is the string or the content of the file. */
  lemma ImageReads(r: Responses.Response)
    requires 100 <= r.code <= 999 && |r.name| <= 239 && forall h :: h in r.headers ==> WellFormed(h)
    ensures var image, n := r.Image(), |r.name| + 15;
      var m := n + |Responses.Lines(r.headers)|;
      && m + 2 <= |image|
      && IsStatusLine(image[..n], r.code, r.name)
      && ParseHeaders(Some(image[n..m + 2])) == Some(r.headers) && image[m..m + 2] == "\r\n"
      && image[m + 2..] == match r.body { case Text(t) => t case File(c) => c case NoBody => "" }
  {
    hide Responses.StatusLine, Responses.Lines, Responses.Content, Responses.Response.Image;
    hide IsStatusLine, ParseHeaders, WellFormed;
    StatusLineReads(r.code, r.name);
    StatusLineSize(Responses.StatusLine(r.code, r.name), r.code, r.name);
    RoundTrip(r.headers);
    ImageParts(r);
    BodyIs(r.body);
    var line, lines := Responses.StatusLine(r.code, r.name), Responses.Lines(r.headers);
    FourParts(line, lines, Responses.CRLF, Responses.Content(r.body));
  }

  lemma StatusLineSize(line: string, code: nat, name: string)
    requires IsStatusLine(line, code, name)
    ensures |line| == |name| + 15
  {}

  lemma BodyIs(body: Responses.Body)
    ensures Responses.Content(body) == match body { case Text(t) => t case File(c) => c case NoBody => "" }
  {}

  lemma ImageParts(r: Responses.Response)
    ensures r.Image() ==
      Responses.StatusLine(r.code, r.name) + Responses.Lines(r.headers) + Responses.CRLF + Responses.Content(r.body)
  {
    hide Responses.StatusLine, Responses.Lines, Responses.Content;
    var line, lines := Responses.StatusLine(r.code, r.name), Responses.Lines(r.headers);
    var body := Responses.Content(r.body);
    assert line + (lines + Responses.CRLF + body) == line + lines + Responses.CRLF + body;
  }

  lemma FourParts(a: string, b: string, c: string, d: string)
    ensures var s, m := a + b + c + d, |a| + |b|;
      |s| == m + |c| + |d| && s[..|a|] == a && s[|a|..m + |c|] == b + c && s[m..m + |c|] == c && s[m + |c|..] == d
  {}
}
