/** Reading a request from a non-blocking socket (webserver/http/httpconnection.c). */
module Reading {
  import opened Strings

  /** strstr(s, p) != NULL */
  predicate Contains(s: string, p: string) { p <= s || (s != "" && Contains(s[1..], p)) }

  /** HTTPCanParseBuffer, on the string in the buffer. */
  predicate CanParse(s: string) { Contains(s, "\r\n\r\n") || Contains(s, "\n\n") }

  /** p stands at i in s. */
  predicate At(s: string, p: string, i: nat) { i + |p| <= |s| && s[i..i + |p|] == p }

  lemma AtRest(s: string, p: string, i: nat)
    requires s != ""
    ensures At(s[1..], p, i) <==> At(s, p, i + 1)
  {
    if i + 1 + |p| <= |s| { assert s[1..][i..i + |p|] == s[i + 1..i + 1 + |p|]; }
  }

  lemma {:induction false} ContainsIs(s: string, p: string)
    ensures Contains(s, p) <==> exists i: nat :: At(s, p, i)
  {
    hide At;
    AtFront(s, p);
    if s == "" {
      AtEmpty(p);
    } else {
      ContainsIs(s[1..], p);
      if i: nat :| At(s[1..], p, i) { AtRest(s, p, i); }
      if i: nat :| At(s, p, i) {
        if i > 0 { AtRest(s, p, i - 1); }
      }
    }
  }

  lemma AtFront(s: string, p: string)
    ensures p <= s <==> At(s, p, 0)
  {}

  lemma AtEmpty(p: string)
    ensures forall i: nat :: At("", p, i) ==> i == 0
  {}

  /** A request can be parsed when a blank line, of either kind, stands somewhere in the string. */
  lemma CanParseIs(s: string)
    ensures CanParse(s) <==> exists i: nat :: At(s, "\r\n\r\n", i) || At(s, "\n\n", i)
  {
    hide Contains, At;
    ContainsIs(s, "\r\n\r\n");
    ContainsIs(s, "\n\n");
  }

  datatype Received = Data(bytes: string) | Again | Closed | Error

  /** The peer sends stream; recv returns any non-empty piece of what is left, or EAGAIN. It returns
      EAGAIN finitely often while something is left, and fails or ends only if it is not reliable. */
  class Peer {
    const stream: string
    const reliable: bool
    var pos: nat
    var patience: nat

    constructor (stream: string, reliable: bool, patience: nat)
      ensures this.stream == stream && this.reliable == reliable && pos == 0 && this.patience == patience
    {
      this.stream, this.reliable, pos, this.patience := stream, reliable, 0, patience;
    }

    method Recv(max: nat) returns (r: Received)
      requires pos <= |stream| && max > 0
      modifies this
      ensures pos <= |stream| && patience <= old(patience)
      ensures r.Data? ==> 0 < |r.bytes| <= max && pos == old(pos) + |r.bytes| && r.bytes == stream[old(pos)..pos]
      ensures !r.Data? ==> pos == old(pos)
      ensures r.Again? && pos < |stream| ==> patience < old(patience)
      ensures reliable ==> r.Data? || r.Again?
    {
      var waits: bool, fails: bool := *, *;
      if !reliable && fails {
        if waits { r := Closed; } else { r := Error; }
      } else if pos == |stream| {
        r := Again;
      } else if patience > 0 && waits {
        r, patience := Again, patience - 1;
      } else {
        var n :| 0 < n <= max && pos + n <= |stream|;
        r, pos := Data(stream[pos..pos + n]), pos + n;
      }
    }
  }

  datatype Outcome = Dispatched | Rearmed | GaveUp

  class Connection {
    const socket: Peer
    var buffer: array?<char>
    var bufferFilled: nat
    var bufferLength: nat

    /** The buffer holds what was received, then zeros, at least one. */
    ghost predicate Valid()
      reads this, socket, buffer
    {
      && socket.pos <= |socket.stream|
      && (buffer == null ==> socket.pos == 0)
      && (buffer != null ==>
            && buffer.Length == bufferLength && bufferLength >= 255 && bufferFilled < bufferLength
            && buffer[..bufferFilled] == socket.stream[..socket.pos]
            && forall i :: bufferFilled <= i < bufferLength ==> buffer[i] == NUL)
    }

    constructor (socket: Peer)
      requires socket.pos == 0
      ensures Valid() && this.socket == socket && buffer == null
    {
      this.socket, buffer, bufferFilled, bufferLength := socket, null, 0, 0;
    }

    /** The first lines of HTTPConnectionReadRequest: a zeroed buffer, on the first call. */
    method Prepare()
      requires Valid()
      modifies this
      ensures Valid() && buffer != null && (buffer == old(buffer) || fresh(buffer))
    {
      if buffer == null {
        bufferFilled, bufferLength := 0, 255;
        buffer := new char[255](_ => NUL);
      }
    }

    /** Growing the buffer when little room is left, and clearing the new room. */
    method Expand()
      requires Valid() && buffer != null
      modifies this
      ensures Valid() && buffer != null && (buffer == old(buffer) || fresh(buffer))
      ensures bufferFilled == old(bufferFilled) && bufferLength - bufferFilled >= 10
    {
      if bufferLength - bufferFilled < 10 {
        var grown := new char[bufferLength * 2](_ => NUL);
        forall i | 0 <= i < bufferFilled { grown[i] := buffer[i]; }
        assert grown[..bufferFilled] == buffer[..bufferFilled];
        buffer, bufferLength := grown, bufferLength * 2;
      }
    }

    /** recv into the free part of the buffer, all but its last byte. */
    method Fill() returns (r: Received)
      requires Valid() && buffer != null && bufferLength - bufferFilled >= 10
      modifies this`bufferFilled, buffer, socket
      ensures Valid() && socket.pos >= old(socket.pos) && socket.patience <= old(socket.patience)
      ensures r.Data? ==> bufferFilled == old(bufferFilled) + |r.bytes| && socket.pos == old(socket.pos) + |r.bytes|
      ensures r.Data? ==> r.bytes != []
      ensures !r.Data? ==> bufferFilled == old(bufferFilled) && socket.pos == old(socket.pos)
      ensures r.Again? && socket.pos < |socket.stream| ==> socket.patience < old(socket.patience)
      ensures socket.reliable ==> r.Data? || r.Again?
    {
      ghost var pos := socket.pos;
      r := socket.Recv(bufferLength - bufferFilled - 1);
      if r.Data? {
        assert socket.stream[..socket.pos] == socket.stream[..pos] + r.bytes;
        forall i | 0 <= i < |r.bytes| { buffer[bufferFilled + i] := r.bytes[i]; }
        assert buffer[..bufferFilled + |r.bytes|] == old(buffer[..bufferFilled]) + r.bytes;
        bufferFilled := bufferFilled + |r.bytes|;
      }
    }

    /** HTTPConnectionReadRequest: read until recv leaves room unused, then hand the buffer on if the
        string in it has a blank line, or wait for more. */
    method ReadRequest() returns (outcome: Outcome)
      requires Valid()
      modifies this, buffer, socket
      ensures Valid() && socket.pos >= old(socket.pos)
      ensures buffer == old(buffer) || fresh(buffer)
      ensures !outcome.GaveUp? ==>
        buffer != null && (outcome.Dispatched? <==> CanParse(CStr(buffer[..], 0)))
      ensures socket.reliable ==> !outcome.GaveUp?
      ensures outcome.Rearmed? && socket.pos < |socket.stream| ==>
        socket.pos > old(socket.pos) || socket.patience < old(socket.patience)
      ensures socket.patience <= old(socket.patience)
    {
      Prepare();
      var again := true;
      while again
        invariant Valid() && buffer != null && (buffer == old(buffer) || fresh(buffer))
        invariant socket.pos >= old(socket.pos) && socket.patience <= old(socket.patience)
        invariant !again && socket.pos < |socket.stream| ==>
          socket.pos > old(socket.pos) || socket.patience < old(socket.patience)
        decreases |socket.stream| - socket.pos, again
      {
        Expand();
        var room := bufferLength - bufferFilled - 1;
        var r := Fill();
        if r.Closed? || r.Error? {
          outcome := GaveUp;
          return;
        }
        again := r.Data? && |r.bytes| == room;
      }
      outcome := if CanParse(CStr(buffer[..], 0)) then Dispatched else Rearmed;
    }
  }

  predicate NulFree(s: string) { forall c :: c in s ==> c != NUL }

  /** Of a stream without NUL the parser sees everything received so far. */
  lemma BufferIsStream(c: Connection)
    requires c.Valid() && c.buffer != null && NulFree(c.socket.stream)
    ensures CStr(c.buffer[..], 0) == c.socket.stream[..c.socket.pos]
  {
    forall i | 0 <= i < c.bufferFilled ensures c.buffer[..][i] != NUL {
      assert c.bufferFilled == |c.buffer[..c.bufferFilled]| == c.socket.pos;
      assert c.buffer[..][i] == c.buffer[..c.bufferFilled][i] == c.socket.stream[..c.socket.pos][i];
      assert c.socket.stream[i] in c.socket.stream;
    }
    StrLenIs(c.buffer[..], 0, c.bufferFilled);
    assert c.buffer[..][..c.bufferFilled] == c.buffer[..c.bufferFilled];
  }

  /** The first blank line of the stream is at its end. */
  predicate BlankLineAtEnd(stream: string) {
    CanParse(stream) && forall n :: 0 <= n < |stream| ==> !CanParse(stream[..n])
  }

  /** Re-armed each time the socket becomes readable, reading hands on exactly the stream, however it was
      split into pieces and EAGAINs. */
  method ReadWhole(c: Connection) returns (text: string)
    requires c.Valid() && c.buffer == null && c.socket.reliable
    requires NulFree(c.socket.stream) && BlankLineAtEnd(c.socket.stream)
    modifies c, c.socket
    ensures text == c.socket.stream
  {
    var outcome := c.ReadRequest();
    BufferIsStream(c);
    while outcome.Rearmed?
      invariant c.Valid() && c.buffer != null && fresh(c.buffer)
      invariant !outcome.GaveUp? && (outcome.Dispatched? <==> CanParse(c.socket.stream[..c.socket.pos]))
      decreases |c.socket.stream| - c.socket.pos + c.socket.patience, outcome.Rearmed?
    {
      assert c.socket.pos < |c.socket.stream| by {
        assert c.socket.stream[..|c.socket.stream|] == c.socket.stream;
      }
      outcome := c.ReadRequest();
      BufferIsStream(c);
    }
    text := CStr(c.buffer[..], 0);
    BufferIsStream(c);
    assert c.socket.stream[..|c.socket.stream|] == c.socket.stream;
  }
}
