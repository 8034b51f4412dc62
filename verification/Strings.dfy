/** C strings inside a buffer, and what strsep and strsep_ext make of them. */
module Strings {
  import opened Wrappers

  const NUL: char := '\0'

  /** strlen(b + p), for a buffer whose last byte is NUL. */
  function StrLen(b: seq<char>, p: nat): (n: nat)
    requires p <= |b|
    ensures p + n <= |b| && forall i :: p <= i < p + n ==> b[i] != NUL
    ensures p + n < |b| ==> b[p + n] == NUL
    decreases |b| - p
  {
    if p == |b| || b[p] == NUL then 0 else 1 + StrLen(b, p + 1)
  }

  /** The string at b + p. */
  function CStr(b: seq<char>, p: nat): string
    requires p <= |b|
  {
    b[p..p + StrLen(b, p)]
  }

  lemma StrLenIs(b: seq<char>, p: nat, n: nat)
    requires p + n <= |b| && (forall i :: p <= i < p + n ==> b[i] != NUL)
    requires p + n == |b| || b[p + n] == NUL
    ensures StrLen(b, p) == n && CStr(b, p) == b[p..p + n]
  {
    var m := StrLen(b, p);
    assert p + m < |b| ==> b[p + m] == NUL;
    assert p + n < |b| ==> b[p + n] == NUL;
  }

  /** A string keeps its content as long as its bytes and its terminator do. */
  lemma CStrSame(b: seq<char>, b': seq<char>, p: nat)
    requires |b'| == |b| && p <= |b|
    requires forall i :: p <= i < |b| && i <= p + StrLen(b, p) ==> b'[i] == b[i]
    ensures StrLen(b', p) == StrLen(b, p) && CStr(b', p) == CStr(b, p)
  {
    StrLenIs(b', p, StrLen(b, p));
  }

  /** Where s is cut: its first character among the delimiters, or its end. */
  function Cut(s: string, delim: set<char>): (k: nat)
    ensures k <= |s| && (forall i :: 0 <= i < k ==> s[i] !in delim) && (k < |s| ==> s[k] in delim)
  {
    if s == "" || s[0] in delim then 0 else 1 + Cut(s[1..], delim)
  }

  lemma CutIs(s: string, delim: set<char>, k: nat)
    requires k <= |s| && (forall i :: 0 <= i < k ==> s[i] !in delim) && (k < |s| ==> s[k] in delim)
    ensures Cut(s, delim) == k
  {}

  /** strsep: the token before the first delimiter and what follows it; None is NULL. */
  function Sep(s: string, delim: set<char>): (string, Option<string>) {
    var k := Cut(s, delim);
    (s[..k], if k == |s| then None else Some(s[k + 1..]))
  }

  /** strsep_ext: the first token that is not empty. */
  function SepExt(s: Option<string>, delim: set<char>): (r: (Option<string>, Option<string>))
    ensures r.0.Some? ==> r.0.value != "" && forall c :: c in r.0.value ==> c !in delim
    ensures r.1.Some? ==> r.0.Some? && s.Some? && |r.1.value| < |s.value|
    decreases if s.None? then 0 else 1 + |s.value|
  {
    if s.None? then (None, None)
    else
      var (token, rest) := Sep(s.value, delim);
      if token == "" then SepExt(rest, delim) else (Some(token), rest)
  }

  /** isspace in the C locale. */
  predicate IsSpace(c: char) {
    c == ' ' || c == '\t' || c == '\n' || c == '\r' || c == 11 as char || c == 12 as char
  }

  /** s from its first character that is not white space. */
  function DropSpace(s: string): string {
    if s != "" && IsSpace(s[0]) then DropSpace(s[1..]) else s
  }

  lemma {:induction false} DropSpaceKeeps(s: string)
    ensures DropSpace(s) != "" ==> !IsSpace(DropSpace(s)[0])
    ensures forall c :: c in DropSpace(s) ==> c in s
  {
    if s != "" && IsSpace(s[0]) { DropSpaceKeeps(s[1..]); }
  }

  /** The loop that both versions of strtrim begin with. */
  method SkipSpace(b: array<char>, s: nat) returns (p: nat)
    requires Terminated(b[..]) && s < b.Length
    ensures s <= p < b.Length && CStr(b[..], p) == DropSpace(CStr(b[..], s))
    ensures EndOf(b[..], p) == EndOf(b[..], s)
  {
    p := s;
    while IsSpace(b[p])
      invariant s <= p < b.Length && EndOf(b[..], p) == EndOf(b[..], s)
      invariant DropSpace(CStr(b[..], p)) == DropSpace(CStr(b[..], s))
      decreases b.Length - p
    {
      assert CStr(b[..], p)[1..] == CStr(b[..], p + 1);
      p := p + 1;
    }
  }

  /** A pointer into b that is NULL, or the string it points to. */
  function At(b: seq<char>, p: Option<nat>): Option<string>
    requires p.Some? ==> p.value <= |b|
  {
    if p.None? then None else Some(CStr(b, p.value))
  }

  /** A buffer whose last byte is NUL, so that every string in it ends inside it. */
  predicate Terminated(b: seq<char>) { b != [] && b[|b| - 1] == NUL }

  /** The bytes after strsep on the string at s: the delimiter found is overwritten with NUL. */
  function CutBuffer(b: seq<char>, s: nat, delim: set<char>): seq<char>
    requires s < |b|
  {
    var k := Cut(CStr(b, s), delim);
    if k < StrLen(b, s) then b[s + k := NUL] else b
  }

  /** The pointer strsep leaves. */
  function CutRest(b: seq<char>, s: nat, delim: set<char>): Option<nat>
    requires s < |b|
  {
    var k := Cut(CStr(b, s), delim);
    if k < StrLen(b, s) then Some(s + k + 1) else None
  }

  /** Bytes outside the string at s are left alone. */
  predicate OnlyInside(b: seq<char>, b': seq<char>, s: nat)
    requires s <= |b|
  {
    |b'| == |b| && forall i :: 0 <= i < |b| && !(s <= i < s + StrLen(b, s)) ==> b'[i] == b[i]
  }

  /** strsep cuts the string at s into the token and the rest, which ends where the whole did. */
  lemma CutSplits(b: seq<char>, s: nat, delim: set<char>)
    requires Terminated(b) && s < |b|
    ensures Terminated(CutBuffer(b, s, delim)) && OnlyInside(b, CutBuffer(b, s, delim), s)
    ensures CutRest(b, s, delim).Some? ==>
      && s < CutRest(b, s, delim).value < |b|
      && s + StrLen(CutBuffer(b, s, delim), s) < CutRest(b, s, delim).value
      && CutRest(b, s, delim).value + StrLen(CutBuffer(b, s, delim), CutRest(b, s, delim).value) == s + StrLen(b, s)
    ensures StrLen(CutBuffer(b, s, delim), s) <= StrLen(b, s)
    ensures CStr(CutBuffer(b, s, delim), s) == Sep(CStr(b, s), delim).0
    ensures At(CutBuffer(b, s, delim), CutRest(b, s, delim)) == Sep(CStr(b, s), delim).1
  {
    hide StrLen, Cut;
    var str := CStr(b, s);
    var k, b' := Cut(str, delim), CutBuffer(b, s, delim);
    if k < |str| {
      StrLenIs(b', s, k);
      StrLenIs(b', s + k + 1, |str| - k - 1);
      assert CStr(b', s) == str[..k];
      assert CStr(b', s + k + 1) == str[k + 1..];
    } else {
      assert str[..k] == str;
    }
  }

  /** strsep */
  method StrSep(b: array<char>, s: nat, delim: set<char>) returns (rest: Option<nat>)
    requires Terminated(b[..]) && s < b.Length
    modifies b
    ensures b[..] == CutBuffer(old(b[..]), s, delim) && rest == CutRest(old(b[..]), s, delim)
  {
    ghost var was := b[..];
    ghost var str := CStr(was, s);
    var i := s;
    while b[i] != NUL && b[i] !in delim
      invariant s <= i <= s + |str| && i < b.Length && b[..] == was
      invariant forall k :: s <= k < i ==> was[k] !in delim
      decreases b.Length - i
    {
      i := i + 1;
    }
    CutIs(str, delim, i - s);
    if b[i] == NUL {
      rest := None;
    } else {
      b[i] := NUL;
      rest := Some(i + 1);
    }
  }

  /** Where a pointer's string ends. */
  function EndOf(b: seq<char>, p: nat): nat
    requires p <= |b|
  {
    p + StrLen(b, p)
  }

  lemma EmptyAt(b: seq<char>, p: nat)
    requires p < |b|
    ensures CStr(b, p) == "" <==> b[p] == NUL
  {}

  /** strsep_ext: strsep until a token is not empty. The token's string ends before the rest begins. */
  method StrSepExt(b: array<char>, s: Option<nat>, delim: set<char>) returns (token: Option<nat>, rest: Option<nat>)
    requires Terminated(b[..]) && (s.Some? ==> s.value < b.Length)
    modifies b
    ensures Terminated(b[..])
    ensures token.Some? ==> s.Some? && s.value <= token.value < b.Length
    ensures rest.Some? ==> token.Some? && rest.value < b.Length && EndOf(b[..], token.value) < rest.value
    ensures (At(b[..], token), At(b[..], rest)) == SepExt(At(old(b[..]), s), delim)
    ensures s.None? ==> b[..] == old(b[..])
    ensures s.Some? ==> OnlyInside(old(b[..]), b[..], s.value)
    ensures token.Some? ==> EndOf(b[..], token.value) <= EndOf(old(b[..]), s.value)
    ensures rest.Some? ==> EndOf(b[..], rest.value) == EndOf(old(b[..]), s.value)
  {
    hide StrLen, Cut, CutBuffer, CutRest, CStr;
    token, rest := s, s;
    ghost var was := b[..];
    while rest.Some?
      invariant Terminated(b[..]) && token == rest
      invariant token.Some? ==> s.Some? && s.value <= token.value < b.Length
      invariant s.None? ==> b[..] == was
      invariant s.Some? ==> OnlyInside(was, b[..], s.value)
      invariant token.Some? ==> EndOf(b[..], token.value) == EndOf(was, s.value)
      invariant SepExt(At(b[..], token), delim) == SepExt(At(was, s), delim)
      decreases if rest.None? then 0 else b.Length - rest.value
    {
      ghost var before := b[..];
      CutSplits(before, token.value, delim);
      rest := StrSep(b, token.value, delim);
      EmptyAt(b[..], token.value);
      if b[token.value] != NUL {
        return;
      }
      token := rest;
    }
  }
}
