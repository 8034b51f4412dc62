/** The request parser of webserver/http/httprequest.c, which cuts the buffer into slices in place. */
module Requests {
  import opened Wrappers
  import opened Strings

  const LINE_DELIMITER := {'\r', '\n'}
  const HEADER_DELIMITER := {':'}
  const BLANK := {' '}

  datatype Method = Get | UnknownMethod
  datatype Version = Http10 | Http11 | UnknownVersion

  type Header = (string, string)

  /** strncmp(s, p, strlen(p)) == 0 */
  predicate StartsWith(s: string, p: string) { p <= s }

  // ----- What a request text says -----

  function MethodOf(s: string): Method { if StartsWith(s, "GET") then Get else UnknownMethod }

  function VersionOf(s: string): Version {
    if StartsWith(s, "HTTP/1.0") then Http10 else if StartsWith(s, "HTTP/1.1") then Http11 else UnknownVersion
  }

  datatype Action = Action(method_: Method, path: string, version: Version)

  /** HTTPRequestParseActionLine */
  function ParseAction(line: Option<string>): Option<Action> {
    var (method_, path, version) := Words(line);
    if method_.None? || path.None? || version.None? then None
    else Some(Action(MethodOf(method_.value), path.value, VersionOf(version.value)))
  }

  /** HTTPRequestParseHeaderLine */
  function ParseHeaderLine(line: string): Option<Header> {
    var (key, rest) := SepExt(Some(line), HEADER_DELIMITER);
    if rest.None? then None else Some((key.value, DropSpace(rest.value)))
  }

  /** HTTPRequestParseHeader: the DictionarySet calls it makes, in order; None when a line has no colon. */
  function ParseHeaders(text: Option<string>): Option<seq<Header>>
    decreases if text.None? then 0 else 1 + |text.value|
  {
    var (line, rest) := SepExt(text, LINE_DELIMITER);
    if line.None? then Some([])
    else
      var header := ParseHeaderLine(line.value);
      if header.None? then None else After([header.value], ParseHeaders(rest))
  }

  function After(done: seq<Header>, more: Option<seq<Header>>): Option<seq<Header>> {
    if more.None? then None else Some(done + more.value)
  }

  datatype Parsed = Parsed(action: Action, headers: seq<Header>)

  /** HTTPRequestParse */
  function Parse(text: string): Option<Parsed> {
    var (line, rest) := SepExt(Some(text), LINE_DELIMITER);
    var action := ParseAction(line);
    if action.None? then None
    else
      var headers := ParseHeaders(rest);
      if headers.None? then None else Some(Parsed(action.value, headers.value))
  }

  // ----- The parser, in place -----

  /** strtrim: its second loop looks at the terminator, which is no white space, so only the front goes. */
  method StrTrim(b: array<char>, s: nat) returns (p: nat)
    requires Terminated(b[..]) && s < b.Length
    ensures s <= p < b.Length && CStr(b[..], p) == DropSpace(CStr(b[..], s))
    ensures EndOf(b[..], p) == EndOf(b[..], s)
  {
    p := SkipSpace(b, s);
  }

  /** The slices point at strings that end before pos, where the next cut may happen. */
  ghost predicate Behind(b: seq<char>, slices: seq<(nat, nat)>, pos: Option<nat>) {
    forall i :: 0 <= i < |slices| ==>
      && slices[i].0 < |b| && slices[i].1 < |b|
      && (pos.Some? ==> EndOf(b, slices[i].0) < pos.value && EndOf(b, slices[i].1) < pos.value)
  }

  /** What the slices say. */
  ghost function Says(b: seq<char>, slices: seq<(nat, nat)>): seq<Header>
    requires Behind(b, slices, None)
  {
    seq(|slices|, i requires 0 <= i < |slices| => (CStr(b, slices[i].0), CStr(b, slices[i].1)))
  }

  /** Cuts further on leave the slices and what they say alone. */
  lemma SlicesKept(b: seq<char>, b': seq<char>, slices: seq<(nat, nat)>, pos: nat)
    requires pos <= |b| && OnlyInside(b, b', pos) && Behind(b, slices, Some(pos))
    ensures Behind(b', slices, Some(pos)) && Says(b', slices) == Says(b, slices)
  {
    forall i | 0 <= i < |slices|
      ensures EndOf(b', slices[i].0) == EndOf(b, slices[i].0) && CStr(b', slices[i].0) == CStr(b, slices[i].0)
      ensures EndOf(b', slices[i].1) == EndOf(b, slices[i].1) && CStr(b', slices[i].1) == CStr(b, slices[i].1)
    {
      CStrSame(b, b', slices[i].0);
      CStrSame(b, b', slices[i].1);
    }
  }

  lemma NothingSaid(b: seq<char>)
    ensures Says(b, []) == [] && Behind(b, [], None)
  {}

  /** What the loop of HTTPRequestParseHeader has still to do, with a line already taken. */
  function FromLine(line: Option<string>, rest: Option<string>): Option<seq<Header>> {
    if line.None? then Some([])
    else
      var header := ParseHeaderLine(line.value);
      if header.None? then None else After([header.value], ParseHeaders(rest))
  }

  lemma AfterNothing(more: Option<seq<Header>>)
    ensures After([], more) == more
  {
    if more.Some? { assert [] + more.value == more.value; }
  }

  lemma TakeLine(text: Option<string>)
    ensures ParseHeaders(text) == After([], FromLine(SepExt(text, LINE_DELIMITER).0, SepExt(text, LINE_DELIMITER).1))
  {
    AfterNothing(ParseHeaders(text));
  }

  lemma AfterAfter(done: seq<Header>, h: Header, more: Option<seq<Header>>)
    ensures After(done, After([h], more)) == After(done + [h], more)
  {
    if more.Some? { assert done + ([h] + more.value) == (done + [h]) + more.value; }
  }

  /** Parsing a line leaves the text after it alone. */
  lemma RestKept(b: seq<char>, b': seq<char>, line: nat, rest: nat)
    requires line <= |b| && rest <= |b| && OnlyInside(b, b', line) && EndOf(b, line) < rest
    ensures CStr(b', rest) == CStr(b, rest) && EndOf(b', rest) == EndOf(b, rest)
  {
    CStrSame(b, b', rest);
  }

  class Request {
    const buffer: array<char>
    var method_: Method
    var version: Version
    var path: Option<nat>
    /** The key and value pointers handed to DictionarySet, in order. */
    var headers: seq<(nat, nat)>

    constructor (buffer: array<char>)
      ensures this.buffer == buffer && headers == [] && path == None
    {
      this.buffer := buffer;
      method_, version, path, headers := Get, Http10, None, [];
    }

    /** HTTPRequestParseHeaderLine on the line at that offset. */
    method ParseLineAt(line: nat) returns (ok: bool)
      requires Terminated(buffer[..]) && line < buffer.Length && Behind(buffer[..], headers, Some(line))
      modifies this`headers, buffer
      ensures Terminated(buffer[..]) && OnlyInside(old(buffer[..]), buffer[..], line)
      ensures ok <==> ParseHeaderLine(CStr(old(buffer[..]), line)).Some?
      ensures ok ==>
        && Behind(buffer[..], headers, None)
        && Says(buffer[..], headers) ==
             old(Says(buffer[..], headers)) + [ParseHeaderLine(CStr(old(buffer[..]), line)).value]
        && forall i :: 0 <= i < |headers| ==>
             && EndOf(buffer[..], headers[i].0) <= EndOf(old(buffer[..]), line)
             && EndOf(buffer[..], headers[i].1) <= EndOf(old(buffer[..]), line)
    {
      hide StrLen, CStr, SepExt, DropSpace;
      ghost var was := buffer[..];
      var key, rest := StrSepExt(buffer, Some(line), HEADER_DELIMITER);
      SlicesKept(was, buffer[..], headers, line);
      if rest == None {
        return false;
      }
      var value := StrTrim(buffer, rest.value);
      headers := headers + [(key.value, value)];
      return true;
    }

    /** A line taken from the buffer, and the pointer to what follows it. */
    ghost predicate Taken(line: Option<nat>, rest: Option<nat>)
      reads buffer
    {
      && Terminated(buffer[..])
      && (line.Some? ==> line.value < buffer.Length)
      && (rest.Some? ==> line.Some? && rest.value < buffer.Length && EndOf(buffer[..], line.value) < rest.value)
    }

    /** The headers already stored, then those the loop will still store. */
    ghost function Outlook(line: Option<nat>, rest: Option<nat>): Option<seq<Header>>
      reads this, buffer
      requires Taken(line, rest) && Behind(buffer[..], headers, line)
    {
      After(Says(buffer[..], headers), FromLine(At(buffer[..], line), At(buffer[..], rest)))
    }

    /** One turn of the loop of HTTPRequestParseHeader. */
    method ParseLineAndTakeNext(line: nat, rest: Option<nat>)
      returns (ok: bool, nextLine: Option<nat>, nextRest: Option<nat>)
      requires Taken(Some(line), rest) && Behind(buffer[..], headers, Some(line))
      modifies this`headers, buffer
      ensures Terminated(buffer[..]) && forall i :: 0 <= i < line ==> buffer[i] == old(buffer[i])
      ensures !ok ==> old(Outlook(Some(line), rest)) == None
      ensures ok ==>
        && Taken(nextLine, nextRest) && Behind(buffer[..], headers, nextLine)
        && (nextLine.Some? ==> line < nextLine.value)
        && Outlook(nextLine, nextRest) == old(Outlook(Some(line), rest))
    {
      hide StrLen, CStr, SepExt, Says, ParseHeaderLine, ParseHeaders;
      ghost var before, said := buffer[..], Says(buffer[..], headers);
      ok := ParseLineAt(line);
      if !ok { return false, None, None; }
      ghost var cut := buffer[..];
      AfterAfter(said, ParseHeaderLine(CStr(before, line)).value, ParseHeaders(At(before, rest)));
      if rest.Some? { RestKept(before, cut, line, rest.value); }
      TakeLine(At(cut, rest));
      AfterNothing(FromLine(SepExt(At(cut, rest), LINE_DELIMITER).0, SepExt(At(cut, rest), LINE_DELIMITER).1));
      nextLine, nextRest := StrSepExt(buffer, rest, LINE_DELIMITER);
      if rest.Some? { SlicesKept(cut, buffer[..], headers, rest.value); }
    }

    /** HTTPRequestParseHeader on the rest of the buffer from pos. */
    method ParseHeadersAt(pos: Option<nat>) returns (ok: bool)
      requires Terminated(buffer[..]) && headers == []
      requires pos.Some? ==> pos.value < buffer.Length
      modifies this`headers, buffer
      ensures Terminated(buffer[..])
      ensures forall i :: 0 <= i < buffer.Length && (pos.Some? ==> i < pos.value) ==> buffer[i] == old(buffer[i])
      ensures ok <==> ParseHeaders(At(old(buffer[..]), pos)).Some?
      ensures ok ==>
        && Behind(buffer[..], headers, None)
        && Says(buffer[..], headers) == ParseHeaders(At(old(buffer[..]), pos)).value
    {
      hide StrLen, CStr, SepExt, Says, ParseHeaderLine, ParseHeaders;
      ghost var text := At(buffer[..], pos);
      NothingSaid(buffer[..]);
      TakeLine(text);
      var line, rest := StrSepExt(buffer, pos, LINE_DELIMITER);
      NothingSaid(buffer[..]);
      while line != None
        invariant Taken(line, rest) && Behind(buffer[..], headers, line)
        invariant line.Some? ==> pos.Some? && pos.value <= line.value
        invariant forall i :: 0 <= i < buffer.Length && (pos.Some? ==> i < pos.value) ==> buffer[i] == old(buffer[i])
        invariant Outlook(line, rest) == ParseHeaders(text)
        decreases if line.None? then 0 else buffer.Length - line.value
      {
        ok, line, rest := ParseLineAndTakeNext(line.value, rest);
        if !ok { return; }
      }
      ok := true;
      assert Says(buffer[..], headers) + [] == Says(buffer[..], headers);
    }

    /** The three calls to strsep_ext at the start of HTTPRequestParseActionLine. */
    method CutWords(line: Option<nat>) returns (first: Option<nat>, second: Option<nat>, third: Option<nat>)
      requires Terminated(buffer[..]) && (line.Some? ==> line.value < buffer.Length)
      modifies buffer
      ensures Terminated(buffer[..])
      ensures line.Some? ==> OnlyInside(old(buffer[..]), buffer[..], line.value)
      ensures line.None? ==> buffer[..] == old(buffer[..])
      ensures first.Some? ==> first.value < buffer.Length
      ensures second.Some? ==> second.value < buffer.Length && first.Some?
      ensures third.Some? ==>
        third.value < buffer.Length && second.Some? && line.Some?
        && EndOf(buffer[..], second.value) < EndOf(old(buffer[..]), line.value)
      ensures (At(buffer[..], first), At(buffer[..], second), At(buffer[..], third)) == Words(At(old(buffer[..]), line))
    {
      hide StrLen, CStr, SepExt;
      ghost var b0 := buffer[..];
      var rest1, rest2, rest3;
      first, rest1 := StrSepExt(buffer, line, BLANK);
      ghost var b1 := buffer[..];
      second, rest2 := StrSepExt(buffer, rest1, BLANK);
      ghost var b2 := buffer[..];
      if rest1.Some? { StringKept(b1, b2, first.value, rest1.value); }
      third, rest3 := StrSepExt(buffer, rest2, BLANK);
      ghost var b3 := buffer[..];
      if rest2.Some? {
        StringKept(b2, b3, second.value, rest2.value);
        StringKept(b2, b3, first.value, rest2.value);
      }
    }

    /** HTTPRequestParseActionLine on the line at that offset. */
    method ParseActionAt(line: Option<nat>) returns (ok: bool)
      requires Terminated(buffer[..]) && (line.Some? ==> line.value < buffer.Length)
      modifies this`method_, this`version, this`path, buffer
      ensures Terminated(buffer[..])
      ensures line.Some? ==> OnlyInside(old(buffer[..]), buffer[..], line.value)
      ensures line.None? ==> buffer[..] == old(buffer[..])
      ensures ok <==> ParseAction(At(old(buffer[..]), line)).Some?
      ensures ok ==>
        && path.Some? && path.value < buffer.Length && line.Some?
        && EndOf(buffer[..], path.value) < EndOf(old(buffer[..]), line.value)
        && ParseAction(At(old(buffer[..]), line)) == Some(Action(method_, CStr(buffer[..], path.value), version))
    {
      hide StrLen, CStr, SepExt;
      var methodString, pathString, versionString := CutWords(line);
      path := pathString;
      if methodString == None {
        return false;
      }
      method_ := if IsPrefixAt(buffer, methodString.value, "GET") then Get else UnknownMethod;
      if versionString == None {
        return false;
      }
      version :=
        if IsPrefixAt(buffer, versionString.value, "HTTP/1.0") then Http10
        else if IsPrefixAt(buffer, versionString.value, "HTTP/1.1") then Http11
        else UnknownVersion;
      return true;
    }

    /** HTTPRequestParse, on a buffer that starts with the request text. It accepts what Parse accepts,
        and when all cutting is done, every slice still says what Parse says. */
    method ParseBuffer() returns (ok: bool)
      requires Terminated(buffer[..]) && headers == []
      modifies this, buffer
      ensures ok <==> Parse(CStr(old(buffer[..]), 0)).Some?
      ensures ok ==>
        && path.Some? && path.value < buffer.Length && Behind(buffer[..], headers, None)
        && Parse(CStr(old(buffer[..]), 0)) ==
             Some(Parsed(Action(method_, CStr(buffer[..], path.value), version), Says(buffer[..], headers)))
    {
      hide StrLen, CStr, SepExt, Says, ParseHeaders, ParseAction;
      var actionLine, rest := StrSepExt(buffer, Some(0), LINE_DELIMITER);
      ghost var b1 := buffer[..];
      ok := ParseActionAt(actionLine);
      ghost var b2 := buffer[..];
      if rest.Some? { RestKept(b1, b2, actionLine.value, rest.value); }
      if !ok { return; }
      ok := ParseHeadersAt(rest);
      CStrSame(b2, buffer[..], path.value);
    }
  }

  /** The first three words of a line. */
  function Words(line: Option<string>): (Option<string>, Option<string>, Option<string>) {
    var (first, rest1) := SepExt(line, BLANK);
    var (second, rest2) := SepExt(rest1, BLANK);
    (first, second, SepExt(rest2, BLANK).0)
  }

  /** strncmp(b + s, p, strlen(p)) == 0 */
  function IsPrefixAt(b: array<char>, s: nat, p: string): bool
    reads b
    requires s <= b.Length
  {
    p <= CStr(b[..], s)
  }

  /** A cut beyond the end of a string leaves it alone. */
  lemma StringKept(b: seq<char>, b': seq<char>, p: nat, cut: nat)
    requires p <= |b| && cut <= |b| && OnlyInside(b, b', cut) && EndOf(b, p) < cut
    ensures CStr(b', p) == CStr(b, p) && EndOf(b', p) == EndOf(b, p)
  {
    CStrSame(b, b', p);
  }
}
