/** The input buffer of a chat client (chat/server/client.c): bytes from the socket become lines. */
module LineBuffer {
  import opened Wrappers
  import opened Strings
  import opened Reading

  /** One call on buffered bytes b: the line handed on, if any, and the bytes kept. The C string in the
      buffer ends at the first NUL; when a NUL follows the line, what is behind it is dropped. */
  function Next(b: string): (r: (Option<string>, string)) {
    var z := StrLen(b, 0);
    var n := Cut(b[..z], {'\n'});
    if n == z then (None, b)
    else (Some(b[..n]), Behind(b, n))
  }

  /** What is kept of b behind a newline at n. */
  function Behind(b: string, n: nat): string
    requires n < |b|
  {
    if n + 1 < |b| && b[n + 1] == NUL then "" else b[n + 1..]
  }

  /** Lines with their newlines. */
  function Join(lines: seq<string>): string {
    if lines == [] then "" else Join(lines[..|lines| - 1]) + lines[|lines| - 1] + "\n"
  }

  predicate IsLine(s: string) { '\n' !in s && NUL !in s }

  /** Without a NUL from the peer the lines handed on and the bytes kept are exactly what was received. */
  ghost predicate Accounted(handled: seq<string>, kept: string, stream: string, pos: nat) {
    && pos <= |stream|
    && (forall i :: 0 <= i < |handled| ==> IsLine(handled[i]))
    && (NulFree(stream) ==> Join(handled) + kept == stream[..pos])
  }

  /** Nothing is dropped exactly when no NUL follows the first newline of the C string. */
  lemma NextConserves(b: string)
    ensures var (line, kept) := Next(b);
      && (line.Some? ==> IsLine(line.value) && |line.value| < |b|)
      && (line == None ==> kept == b)
      && (line.Some? ==>
            (line.value + "\n" + kept == b <==> |line.value| + 1 == |b| || b[|line.value| + 1] != NUL))
  {
    var z := StrLen(b, 0);
    var n := Cut(b[..z], {'\n'});
    if n < z { assert b == b[..n] + "\n" + b[n + 1..]; }
  }

  /** The first newline of b is at i, and no NUL is before it. */
  predicate EndsAt(b: string, i: nat) {
    i < |b| && b[i] == '\n' && forall j :: 0 <= j < i ==> b[j] != '\n' && b[j] != NUL
  }

  /** The line handed on is the first of b, if b has a complete one. */
  ghost predicate HandsOn(b: string, line: Option<string>) {
    && (line.Some? <==> exists i: nat :: EndsAt(b, i))
    && (forall i: nat :: EndsAt(b, i) ==> line == Some(b[..i]))
  }

  /** What a line that ends at i makes of b: what precedes it is handed on, and what follows it is kept,
      unless it starts with a NUL. */
  lemma NextAt(b: string, i: nat)
    requires EndsAt(b, i)
    ensures Next(b) == (Some(b[..i]), if i + 1 < |b| && b[i + 1] == NUL then "" else b[i + 1..])
  {
    var z := StrLen(b, 0);
    assert z < |b| ==> b[z] == NUL;
    assert i < z;
    assert b[..z][i] == b[i] && forall j :: 0 <= j < i ==> b[..z][j] == b[j];
    CutIs(b[..z], {'\n'}, i);
  }

  /** A complete line is handed on at once. */
  lemma NextHandsOn(b: string)
    ensures HandsOn(b, Next(b).0)
  {
    var z := StrLen(b, 0);
    var n := Cut(b[..z], {'\n'});
    if n < z {
      assert b[..z][n] == b[n] && forall j :: 0 <= j < n ==> b[..z][j] == b[j];
      assert EndsAt(b, n);
    }
    hide EndsAt;
    forall i: nat | EndsAt(b, i) ensures Next(b).0 == Some(b[..i]) { NextAt(b, i); }
  }

  /** Without NUL any newline makes a complete line. */
  lemma NewlineEnds(b: string)
    requires NUL !in b && '\n' in b
    ensures forall line :: HandsOn(b, line) ==> line.Some?
  {
    var k :| 0 <= k < |b| && b[k] == '\n';
    var n := Cut(b, {'\n'});
    assert n <= k;
    assert EndsAt(b, n);
  }

  /** What was kept and what arrives are part of the stream. */
  lemma BytesOfStream(handled: seq<string>, kept: string, stream: string, pos: nat, pos': nat)
    requires Accounted(handled, kept, stream, pos) && pos <= pos' <= |stream| && NulFree(stream)
    ensures NUL !in kept + stream[pos..pos']
  {
    var b := kept + stream[pos..pos'];
    assert Join(handled) + b == (Join(handled) + kept) + stream[pos..pos'] == stream[..pos'];
    forall i | 0 <= i < |b| ensures b[i] != NUL { SliceNulFree(stream, Join(handled), b, i); }
  }

  /** The part of a chat client that reads: its socket and its input buffer. */
  class Input {
    const socket: Peer
    var inBuffer: array?<char>
    var inBufferLength: nat
    var inBufferFilled: nat
    /** The lines handed to ClientHandleLine so far. */
    var handled: seq<string>

    /** The filled part is followed by zeros, at least one. */
    ghost predicate Tidy()
      reads this, inBuffer
    {
      && (inBuffer == null ==> inBufferLength == 0 && inBufferFilled == 0)
      && (inBuffer != null ==>
            && inBuffer.Length == inBufferLength && inBufferFilled < inBufferLength
            && forall i :: inBufferFilled <= i < inBufferLength ==> inBuffer[i] == NUL)
    }

    ghost predicate Valid()
      reads this, inBuffer, socket
    {
      Tidy() && Accounted(handled, Kept(), socket.stream, socket.pos)
    }

    ghost function Kept(): string
      reads this, inBuffer
      requires inBuffer != null ==> inBufferFilled <= inBuffer.Length
    {
      if inBuffer == null then "" else inBuffer[..inBufferFilled]
    }

    constructor (socket: Peer)
      requires socket.pos == 0
      ensures Valid() && this.socket == socket && handled == [] && Kept() == ""
    {
      this.socket, inBuffer, inBufferLength, inBufferFilled, handled := socket, null, 0, 0, [];
    }

    /** Make room for a byte and the terminator; realloc and memset. */
    method MakeRoom()
      requires Tidy()
      modifies this`inBuffer, this`inBufferLength
      ensures Tidy() && inBuffer != null && (inBuffer == old(inBuffer) || fresh(inBuffer))
      ensures Kept() == old(Kept()) && inBufferLength - inBufferFilled >= 2
    {
      if inBufferLength - inBufferFilled < 2 {
        inBufferLength := inBufferLength * 2;
        if inBufferLength < 1024 { inBufferLength := 1024; }
        var grown := new char[inBufferLength](_ => NUL);
        if inBuffer != null {
          forall i | 0 <= i < inBufferFilled { grown[i] := inBuffer[i]; }
        }
        assert grown[..inBufferFilled] == old(Kept());
        inBuffer := grown;
      }
    }

    /** ClientHandleLine may do anything with the line as long as it stays before its terminator. */
    method HandleLine(end: nat)
      requires inBuffer != null && end < inBuffer.Length
      modifies inBuffer
      ensures forall i :: end <= i < inBuffer.Length ==> inBuffer[i] == old(inBuffer[i])
    {
      for i := 0 to end
        invariant forall k :: end <= k < inBuffer.Length ==> inBuffer[k] == old(inBuffer[k])
      {
        var scribble: char := *;
        inBuffer[i] := scribble;
      }
    }

    /** strchr for the newline; None is NULL. */
    method FindNewline() returns (at: Option<nat>)
      requires Tidy() && inBuffer != null
      ensures at == None ==> Next(Kept()) == (None, Kept())
      ensures at.Some? ==>
        at.value < inBufferFilled && Next(Kept()) == (Some(Kept()[..at.value]), Behind(Kept(), at.value))
    {
      var i := 0;
      ghost var b := Kept();
      while inBuffer[i] != NUL && inBuffer[i] != '\n'
        invariant 0 <= i <= inBufferFilled && b == inBuffer[..inBufferFilled]
        invariant forall k :: 0 <= k < i ==> b[k] != NUL && b[k] != '\n'
        decreases inBufferFilled - i
      {
        i := i + 1;
      }
      at := if inBuffer[i] == '\n' then Some(i) else None;
      ghost var z := StrLen(b, 0);
      if at == None { StrLenIs(b, 0, i); }
      CutIs(b[..z], {'\n'}, i);
    }

    /** What follows the handled line moves to the front, or the buffer is discarded. */
    method Shift(newline: nat)
      requires inBuffer != null && inBuffer.Length == inBufferLength && newline < inBufferFilled < inBufferLength
      requires forall i :: inBufferFilled <= i < inBufferLength ==> inBuffer[i] == NUL
      modifies this`inBuffer, this`inBufferFilled, this`inBufferLength, inBuffer
      ensures inBuffer == old(inBuffer) || inBuffer == null
      ensures inBuffer == null ==> inBufferLength == 0 && inBufferFilled == 0
      ensures inBuffer != null ==>
        && inBuffer.Length == inBufferLength && inBufferFilled < inBufferLength
        && forall i :: inBufferFilled <= i < inBufferLength ==> inBuffer[i] == NUL
      ensures Kept() ==
        if old(inBuffer[newline + 1]) == NUL then "" else old(inBuffer[newline + 1..inBufferFilled])
    {
      if inBuffer[newline + 1] != NUL {
        inBufferFilled := inBufferFilled - (newline + 1);
        forall i | 0 <= i < inBufferFilled { inBuffer[i] := inBuffer[newline + 1 + i]; }
        forall i | inBufferFilled <= i < inBufferLength { inBuffer[i] := NUL; }
      } else {
        inBuffer, inBufferLength, inBufferFilled := null, 0, 0;
      }
    }

    /** recv into the free part of the buffer, all but its last byte. */
    method Receive() returns (r: Received)
      requires Tidy() && inBuffer != null && inBufferLength - inBufferFilled >= 2 && socket.pos <= |socket.stream|
      modifies this`inBufferFilled, inBuffer, socket
      ensures Tidy() && socket.pos <= |socket.stream|
      ensures !r.Data? ==> Kept() == old(Kept()) && socket.pos == old(socket.pos)
      ensures r.Data? ==> socket.pos > old(socket.pos) && r.bytes == socket.stream[old(socket.pos)..socket.pos]
      ensures r.Data? ==> Kept() == old(Kept()) + r.bytes
    {
      r := socket.Recv(inBufferLength - inBufferFilled - 1);
      if r.Data? {
        forall i | 0 <= i < |r.bytes| { inBuffer[inBufferFilled + i] := r.bytes[i]; }
        inBufferFilled := inBufferFilled + |r.bytes|;
      }
    }

    /** Hand the line before the newline on, and keep what follows it. */
    method TakeLine(newline: nat)
      requires Tidy() && inBuffer != null && newline < inBufferFilled
      modifies this`inBuffer, this`inBufferFilled, this`inBufferLength, this`handled, inBuffer
      ensures Tidy() && (inBuffer == old(inBuffer) || inBuffer == null)
      ensures handled == old(handled) + [old(Kept()[..newline])]
      ensures Kept() == Behind(old(Kept()), newline)
    {
      ghost var b := Kept();
      inBuffer[newline] := NUL;
      handled := handled + [inBuffer[..newline]];
      assert inBuffer[..newline] == b[..newline];
      HandleLine(newline);
      assert inBuffer[newline + 1..inBufferFilled] == b[newline + 1..];
      Shift(newline);
    }

    /** Hand the first line on if there is one. */
    method TakeNext() returns (line: Option<string>)
      requires Tidy() && inBuffer != null
      modifies this`inBuffer, this`inBufferFilled, this`inBufferLength, this`handled, inBuffer
      ensures Tidy() && (inBuffer == old(inBuffer) || inBuffer == null)
      ensures (line, Kept()) == Next(old(Kept()))
      ensures handled == if line == None then old(handled) else old(handled) + [line.value]
    {
      hide StrLen, Cut, Next, Behind;
      var newline := FindNewline();
      line := None;
      if newline.Some? {
        TakeLine(newline.value);
        line := Some(handled[|handled| - 1]);
      }
    }

    /** ClientDoRead: at most one line per call; false when the client is disconnected instead. */
    method DoRead() returns (connected: bool, line: Option<string>)
      requires Valid()
      modifies this, inBuffer, socket
      ensures Valid() && (inBuffer == old(inBuffer) || inBuffer == null || fresh(inBuffer))
      ensures !connected ==> handled == old(handled) && Kept() == old(Kept()) && socket.pos == old(socket.pos)
      ensures connected ==> old(socket.pos) < socket.pos <= |socket.stream|
      ensures connected ==> (line, Kept()) == Next(old(Kept()) + socket.stream[old(socket.pos)..socket.pos])
      ensures connected ==> handled == if line == None then old(handled) else old(handled) + [line.value]
      ensures line.Some? ==> IsLine(line.value)
      ensures connected ==>
        var bytes := old(Kept()) + socket.stream[old(socket.pos)..socket.pos];
        HandsOn(bytes, line) && (NulFree(socket.stream) && '\n' in bytes ==> line.Some?)
    {
      hide StrLen, Cut, Join, Next, Behind, Accounted, HandsOn, NulFree;
      WithinStream(handled, Kept(), socket.stream, socket.pos);
      MakeRoom();
      var r := Receive();
      if !r.Data? {
        return false, None;
      }
      connected := true;
      ghost var bytes := Kept();
      NextConserves(bytes);
      NextHandsOn(bytes);
      if NulFree(socket.stream) {
        BytesOfStream(old(handled), old(Kept()), socket.stream, old(socket.pos), socket.pos);
        if '\n' in bytes { NewlineEnds(bytes); }
      }
      line := TakeNext();
      StillAccounted(old(handled), old(Kept()), socket.stream, old(socket.pos), socket.pos);
    }
  }

  lemma WithinStream(handled: seq<string>, kept: string, stream: string, pos: nat)
    requires Accounted(handled, kept, stream, pos)
    ensures pos <= |stream|
  {}

  /** One more piece of a stream: without NUL nothing is lost. */
  lemma StillAccounted(lines: seq<string>, kept: string, stream: string, pos: nat, pos': nat)
    requires pos <= pos' <= |stream| && Accounted(lines, kept, stream, pos)
    ensures var (line, kept') := Next(kept + stream[pos..pos']);
      Accounted(if line == None then lines else lines + [line.value], kept', stream, pos')
  {
    NextConserves(kept + stream[pos..pos']);
    if NulFree(stream) { NothingLost(lines, kept, stream, pos, pos'); }
  }

  lemma JoinOneMore(lines: seq<string>, line: string)
    ensures Join(lines + [line]) == Join(lines) + line + "\n"
  {
    assert (lines + [line])[..|lines|] == lines;
  }

  lemma SliceNulFree(stream: string, front: string, b: string, i: nat)
    requires NulFree(stream) && front + b <= stream && i < |b|
    ensures b[i] != NUL
  {
    assert b[i] == (front + b)[|front| + i] == stream[|front| + i];
    assert stream[|front| + i] in stream;
  }

  lemma NothingLost(lines: seq<string>, kept: string, stream: string, pos: nat, pos': nat)
    requires pos <= pos' <= |stream| && NulFree(stream) && Join(lines) + kept == stream[..pos]
    ensures var (line, kept') := Next(kept + stream[pos..pos']);
      Join(if line == None then lines else lines + [line.value]) + kept' == stream[..pos']
  {
    hide Next, Join, NulFree;
    var b := kept + stream[pos..pos'];
    var (line, kept') := Next(b);
    NextConserves(b);
    assert Join(lines) + b == (Join(lines) + kept) + stream[pos..pos'] == stream[..pos'];
    if line.Some? {
      if |line.value| + 1 < |b| { SliceNulFree(stream, Join(lines), b, |line.value| + 1); }
      JoinOneMore(lines, line.value);
      assert line.value + "\n" + kept' == b;
      assert Join(lines) + (line.value + "\n" + kept') == (Join(lines) + line.value + "\n") + kept';
    }
  }
}
