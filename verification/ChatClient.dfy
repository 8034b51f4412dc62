/** A chat client's output buffer, and what a nickname is (chat/server/client.c, chat/utils/str_helper.c). */
module ChatClients {
  import opened Wrappers
  import opened Strings

  const SPACES: set<char> := {' ', '\t', '\n', '\r', 11 as char, 12 as char}

  /** The chat's strtrim: from the first character that is not white space up to the next white space. */
  function Nick(s: string): string {
    var d := DropSpace(s);
    d[..Cut(d, SPACES)]
  }

  /** What may be a nickname. */
  predicate IsNick(s: string) { s != "" && forall c :: c in s ==> !IsSpace(c) && c != NUL }

  /** A trimmed C string is empty or a nickname; nicknames are their own trimming. */
  lemma NickIsNick(s: string)
    requires forall c :: c in s ==> c != NUL
    ensures Nick(s) == "" || IsNick(Nick(s))
    ensures IsNick(s) ==> Nick(s) == s
  {
    DropSpaceKeeps(s);
    var d := DropSpace(s);
    var k := Cut(d, SPACES);
    assert d != "" ==> d[0] !in SPACES;
    forall i | 0 <= i < k ensures !IsSpace(d[i]) && d[i] != NUL { assert d[i] !in SPACES && d[i] in d; }
    if IsNick(s) {
      assert s[0] in s;
      forall i | 0 <= i < |s| ensures s[i] !in SPACES { assert s[i] in s; }
      CutIs(s, SPACES, |s|);
    }
  }

  /** Trimming takes the first word: white space before it goes, and so does everything from the next
      white space on. */
  lemma {:induction false} NickIsFirstWord(s: string) returns (k: nat)
    ensures k + |Nick(s)| <= |s| && Nick(s) == s[k..k + |Nick(s)|]
    ensures forall i :: 0 <= i < k ==> IsSpace(s[i])
    ensures forall i :: k <= i < k + |Nick(s)| ==> !IsSpace(s[i])
    ensures k + |Nick(s)| < |s| ==> IsSpace(s[k + |Nick(s)|])
    ensures Nick(s) == "" ==> forall i :: 0 <= i < |s| ==> IsSpace(s[i])
  {
    if s != "" && IsSpace(s[0]) {
      var rest := NickIsFirstWord(s[1..]);
      k := rest + 1;
      assert forall i :: 0 <= i < |s| - 1 ==> s[1..][i] == s[i + 1];
    } else {
      k := 0;
    }
  }

  lemma Slice(b: seq<char>, p: nat, n: nat, k: nat)
    requires k <= n && p + n <= |b|
    ensures b[p..p + n][..k] == b[p..p + k]
  {}

  /** strtrim in place: skip white space, then end the string at the next one. */
  method StrTrim(b: array<char>, s: nat) returns (p: nat)
    requires Terminated(b[..]) && s < b.Length
    modifies b
    ensures s <= p < b.Length && Terminated(b[..])
    ensures CStr(b[..], p) == Nick(CStr(old(b[..]), s))
  {
    hide StrLen, Cut;
    p := SkipSpace(b, s);
    ghost var was, d := b[..], CStr(b[..], p);
    var ptr := p;
    while b[ptr] != NUL && !IsSpace(b[ptr])
      invariant p <= ptr <= p + |d| && ptr < b.Length && b[..] == was
      invariant forall k :: p <= k < ptr ==> !IsSpace(was[k])
      decreases b.Length - ptr
    {
      ptr := ptr + 1;
    }
    CutIs(d, SPACES, ptr - p);
    b[ptr] := NUL;
    StrLenIs(b[..], p, ptr - p);
    assert b[..][p..ptr] == was[p..ptr];
    Slice(was, p, |d|, ptr - p);
  }

  class Client {
    var nickname: Option<string>
    var outBuffer: array?<char>
    var outBufferLength: nat
    var outBufferFilled: nat

    ghost predicate Tidy()
      reads this`outBuffer, this`outBufferLength, this`outBufferFilled
    {
      && (outBuffer == null ==> outBufferLength == 0 && outBufferFilled == 0)
      && (outBuffer != null ==> outBufferFilled <= outBufferLength == outBuffer.Length)
    }

    /** What waits to be sent. */
    ghost function Out(): string
      reads this`outBuffer, this`outBufferLength, this`outBufferFilled, outBuffer
      requires Tidy()
    {
      if outBuffer == null then "" else outBuffer[..outBufferFilled]
    }

    constructor ()
      ensures Tidy() && Out() == "" && nickname == None && outBuffer == null
    {
      nickname, outBuffer, outBufferLength, outBufferFilled := None, null, 0, 0;
    }

    /** ClientWriteLine: grow the buffer by what the line needs if it does not fit, then append it and a
        newline. */
    method WriteLine(line: string)
      requires Tidy()
      modifies this`outBuffer, this`outBufferLength, this`outBufferFilled, outBuffer
      ensures Tidy() && outBuffer != null && (outBuffer == old(outBuffer) || fresh(outBuffer))
      ensures Out() == old(Out()) + line + "\n"
    {
      if outBufferLength - outBufferFilled < |line| + 1 {
        outBufferLength := outBufferLength + |line| + 1;
        var grown := new char[outBufferLength];
        if outBuffer != null {
          forall i | 0 <= i < outBufferFilled { grown[i] := outBuffer[i]; }
        }
        assert grown[..outBufferFilled] == old(Out());
        outBuffer := grown;
      }
      forall i | 0 <= i < |line| { outBuffer[outBufferFilled + i] := line[i]; }
      outBufferFilled := outBufferFilled + |line|;
      outBuffer[outBufferFilled] := '\n';
      outBufferFilled := outBufferFilled + 1;
    }

    /** ClientDoWrite when send takes everything: the buffer is discarded. With nothing to send it sends no
        byte, which counts as a client that is gone. */
    method WriteAll() returns (connected: bool, sent: string)
      requires Tidy()
      modifies this`outBuffer, this`outBufferLength, this`outBufferFilled
      ensures Tidy() && sent == old(Out()) && Out() == ""
      ensures connected <==> old(Out()) != ""
    {
      sent := if outBuffer == null then "" else outBuffer[..outBufferFilled];
      connected := |sent| > 0;
      if connected { outBuffer, outBufferLength, outBufferFilled := null, 0, 0; }
    }
  }
}
