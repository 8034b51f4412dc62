/**
 The resumable response sender of webserver/http/httpresponse.c, over a socket that may take any part of
 what it is offered, or refuse.
 */
module Responses {
  import opened KeyTrees
  import opened Shapes
  import Decimal

  const CRLF := "\r\n"

  /** A non-blocking socket, and what it has taken. A refusal (EAGAIN, or nothing taken) uses up some of
      its patience, which is how a peer that refuses only finitely often is expressed. */
  class Socket {
    var sent: string
    var patience: nat

    constructor (patience: nat)
      ensures sent == "" && this.patience == patience
    {
      sent, this.patience := "", patience;
    }

    /** send: some part of the buffer, or -1. */
    method Send(buffer: string) returns (s: int)
      modifies this
      ensures -1 <= s <= |buffer|
      ensures sent == old(sent) + buffer[..if s < 0 then 0 else s]
      ensures patience <= old(patience)
      ensures s < 0 || (s == 0 && buffer != "") ==> patience < old(patience)
    {
      var refuses: bool := *;
      if patience > 0 && refuses {
        patience := patience - 1;
        s :| -1 <= s <= 0;
        assert buffer[..0] == "";
      } else {
        s :| (if buffer == "" then 0 else 1) <= s <= |buffer|;
      }
      sent := sent + buffer[..if s < 0 then 0 else s];
    }

    /** sendfile of what is left of a file: like Send, but it takes nothing only when nothing is left. */
    method SendFile(left: string) returns (s: int)
      modifies this
      ensures -1 <= s <= |left| && (s == 0 <==> left == "" && s != -1)
      ensures sent == old(sent) + left[..if s < 0 then 0 else s]
      ensures patience <= old(patience)
      ensures s < 0 ==> patience < old(patience)
    {
      var refuses: bool := *;
      if patience > 0 && refuses {
        patience, s := patience - 1, -1;
      } else {
        s :| (if left == "" then 0 else 1) <= s <= |left|;
      }
      sent := sent + left[..if s < 0 then 0 else s];
    }
  }

  type Header = (string, string)

  function Line(h: Header): string { h.0 + ": " + h.1 + CRLF }

  function Lines(headers: seq<Header>): string {
    if headers == [] then "" else Line(headers[0]) + Lines(headers[1..])
  }

  function Pad3(s: string): string {
    if |s| >= 3 then s else if |s| == 2 then " " + s else if |s| == 1 then "  " + s else "   "
  }

  /** snprintf(line, 255, "HTTP/1.0 %3d %s\r\n", code, name) */
  function StatusLine(code: nat, name: string): string {
    var line := "HTTP/1.0 " + Pad3(Decimal.Render(code)) + " " + name + CRLF;
    if |line| > 254 then line[..254] else line
  }

  datatype SendStatus = NotStarted | SendingStatusLine | SendingHeaders | SendingBody | Complete

  datatype HeadersStatus = SendKey | SendKeyValueDelimiter | SendValue | SendLineDelimiter | SendHeadersEnd

  /** sendStatusExtra: NULL or the struct of the current stage. The iterator is what it still visits. */
  datatype Extra =
    | NoExtra
    | StatusLineInfo(sentBytes: nat, statusLine: string)
    | HeadersInfo(sentBytes: nat, status: HeadersStatus, iter: seq<Header>)
    | BodyInfo(sentBytes: nat, fileOffset: nat, fileSize: nat)

  /** responseString, responseFileDescriptor (with what the file holds), or neither. */
  datatype Body = NoBody | Text(text: string) | File(content: string)

  function Content(b: Body): string {
    match b
    case NoBody => ""
    case Text(t) => t
    case File(c) => c
  }

  /** Sending a middle part moves it from what remains to what is out. */
  lemma PartlySent(out: string, s: string, from: nat, to: nat, rest: string)
    requires from <= to <= |s|
    ensures (out + s[from..to]) + (s[to..] + rest) == out + (s[from..] + rest)
    ensures (out + s[from..to]) + s[to..] == out + s[from..]
    ensures (out + s[from..]) + rest == out + (s[from..] + rest)
    ensures s[0..] == s
  {
    assert s[from..] == s[from..to] + s[to..];
  }

  /** The stage after a part is out: the next part of the same header, or the next header. */
  function NextPart(status: HeadersStatus, iter: seq<Header>): (HeadersStatus, seq<Header>)
    requires iter != [] && status != SendHeadersEnd
  {
    match status
    case SendKey => (SendKeyValueDelimiter, iter)
    case SendKeyValueDelimiter => (SendValue, iter)
    case SendValue => (SendLineDelimiter, iter)
    case SendLineDelimiter => (if iter[1..] != [] then SendKey else SendHeadersEnd, iter[1..])
  }

  /** The parts of the headers stage follow one another without gaps. */
  lemma PartsFollow(status: HeadersStatus, iter: seq<Header>)
    requires iter != [] && status != SendHeadersEnd
    ensures
      var (s', i') := NextPart(status, iter);
      Response.AfterPart(status, iter) == Response.Part(s', i') + Response.AfterPart(s', i')
  {
    if iter[1..] != [] { LinesFollow(iter[1..]); }
  }

  lemma NoPartsLeft(status: HeadersStatus)
    ensures Response.Part(status, []) == CRLF && Response.AfterPart(status, []) == ""
  {}

  lemma LinesFollow(iter: seq<Header>)
    requires iter != []
    ensures Response.Part(SendKey, iter) + Response.AfterPart(SendKey, iter) == Lines(iter) + CRLF
  {
    Regroup(iter[0].0, ": ", iter[0].1, CRLF, Lines(iter[1..]), CRLF);
  }

  lemma Regroup(a: string, b: string, c: string, d: string, e: string, f: string)
    ensures a + (b + (c + (d + (e + f)))) == ((a + b + c + d) + e) + f
  {}

  class Response {
    const connection: Socket
    var code: nat
    var name: string
    /** The header dictionary: its tree of keys, and what an iterator over it passes. */
    var tree: Tree
    var headers: seq<Header>
    var body: Body
    var sendStatus: SendStatus
    var sendStatusExtra: Extra

    /** What a complete response looks like on the wire. */
    function Image(): string
      reads this
    {
      StatusLine(code, name) + AfterStatusLine()
    }

    function AfterStatusLine(): string
      reads this
    {
      Lines(headers) + CRLF + Content(body)
    }

    /** The string the headers stage is sending. */
    static function Part(status: HeadersStatus, iter: seq<Header>): string {
      if iter == [] then CRLF
      else
        match status
        case SendKey => iter[0].0
        case SendKeyValueDelimiter => ": "
        case SendValue => iter[0].1
        case SendLineDelimiter => CRLF
        case SendHeadersEnd => ""
    }

    /** What follows that string, before the content. */
    static function AfterPart(status: HeadersStatus, iter: seq<Header>): string {
      if iter == [] then ""
      else
        var later := Lines(iter[1..]) + CRLF;
        match status
        case SendKey => ": " + (iter[0].1 + (CRLF + later))
        case SendKeyValueDelimiter => iter[0].1 + (CRLF + later)
        case SendValue => CRLF + later
        case SendLineDelimiter => later
        case SendHeadersEnd => ""
    }

    ghost predicate Valid()
      reads this
    {
      && headers != []
      && match sendStatus
         case NotStarted => sendStatusExtra == NoExtra
         case SendingStatusLine =>
           sendStatusExtra == NoExtra ||
           (sendStatusExtra.StatusLineInfo? && sendStatusExtra.statusLine == StatusLine(code, name)
            && sendStatusExtra.sentBytes <= |StatusLine(code, name)|)
         case SendingHeaders =>
           sendStatusExtra == NoExtra ||
           (sendStatusExtra.HeadersInfo?
            && (sendStatusExtra.status.SendHeadersEnd? <==> sendStatusExtra.iter == [])
            && sendStatusExtra.sentBytes <= |Part(sendStatusExtra.status, sendStatusExtra.iter)|)
         case SendingBody =>
           sendStatusExtra == NoExtra ||
           (sendStatusExtra.BodyInfo?
            && (body.Text? ==> sendStatusExtra.sentBytes <= |body.text|)
            && (body.File? ==>
                  sendStatusExtra.fileSize == |body.content| && sendStatusExtra.fileOffset <= |body.content|))
         case Complete => sendStatusExtra == NoExtra
    }

    /** The headers come in the order of the dictionary's iterator, past the sentinel. */
    ghost predicate Arranged()
      reads this`tree, this`headers
    {
      InOrder(headers, tree)
    }

    /** What is still to be put on the wire. */
    ghost function Remaining(): string
      reads this
      requires Valid()
    {
      var extra := sendStatusExtra;
      match sendStatus
      case NotStarted => Image()
      case SendingStatusLine =>
        if extra == NoExtra then Image() else StatusLine(code, name)[extra.sentBytes..] + AfterStatusLine()
      case SendingHeaders =>
        if extra == NoExtra then AfterStatusLine()
        else Part(extra.status, extra.iter)[extra.sentBytes..] + (AfterPart(extra.status, extra.iter) + Content(body))
      case SendingBody =>
        if extra == NoExtra then Content(body)
        else if body.Text? then body.text[extra.sentBytes..]
        else if body.File? then body.content[extra.fileOffset..]
        else ""
      case Complete => ""
    }

    /** HTTPResponseCreate: a response always has the Server header. */
    constructor (connection: Socket)
      ensures Valid() && sendStatus == NotStarted && this.connection == connection
      ensures headers == [("Server", "webserver/dev")] && body == NoBody && Arranged()
    {
      this.connection := connection;
      code, name := 0, "";
      tree := Planted(SENTINEL, "Server");
      headers := [("Server", "webserver/dev")];
      body, sendStatus, sendStatusExtra := NoBody, NotStarted, NoExtra;
    }

    /** HTTPResponseSendString: true when the rest of the string is out. */
    method SendString(s: string) returns (done: bool)
      requires sendStatusExtra != NoExtra && sendStatusExtra.sentBytes <= |s|
      modifies this`sendStatusExtra, connection
      ensures sendStatusExtra != NoExtra
      ensures sendStatusExtra == old(sendStatusExtra).(sentBytes := sendStatusExtra.sentBytes)
      ensures connection.patience <= old(connection.patience)
      ensures done ==>
        && sendStatusExtra.sentBytes == 0
        && connection.sent == old(connection.sent) + s[old(sendStatusExtra.sentBytes)..]
      ensures !done ==>
        && old(sendStatusExtra.sentBytes) <= sendStatusExtra.sentBytes <= |s|
        && connection.sent == old(connection.sent) + s[old(sendStatusExtra.sentBytes)..sendStatusExtra.sentBytes]
        && (sendStatusExtra.sentBytes > old(sendStatusExtra.sentBytes)
            || connection.patience < old(connection.patience))
    {
      var from := sendStatusExtra.sentBytes;
      var n := connection.Send(s[from..]);
      if n < 0 {
        return false;
      }
      sendStatusExtra := sendStatusExtra.(sentBytes := from + n);
      assert s[from..][..n] == s[from..from + n];
      if sendStatusExtra.sentBytes < |s| {
        return false;
      }
      sendStatusExtra := sendStatusExtra.(sentBytes := 0);
      return true;
    }

    /** What is left to send once the current stage is done. */
    ghost function AfterStage(): string
      reads this
    {
      match sendStatus
      case NotStarted => Image()
      case SendingStatusLine => AfterStatusLine()
      case SendingHeaders => Content(body)
      case _ => ""
    }

    /** The law every stage keeps: what is out, then what remains, stays the same; and a stage that stops
        early has put something out or was refused. */
    twostate predicate StageKeeps(done: bool)
      reads this, connection
      requires old(Valid()) && Valid()
    {
      && (if done
          then sendStatusExtra == NoExtra && connection.sent + AfterStage() == old(connection.sent + Remaining())
          else connection.sent + Remaining() == old(connection.sent + Remaining()))
      && connection.patience <= old(connection.patience) && |connection.sent| >= |old(connection.sent)|
      && (!done ==> |connection.sent| > |old(connection.sent)| || connection.patience < old(connection.patience))
    }

    /** HTTPResponseSendStatusLine */
    method SendStatusLine() returns (done: bool)
      requires Valid() && sendStatus == SendingStatusLine
      modifies this`sendStatusExtra, connection
      ensures Valid() && StageKeeps(done)
    {
      hide StatusLine, Lines;
      if sendStatusExtra == NoExtra {
        sendStatusExtra := StatusLineInfo(0, StatusLine(code, name));
      }
      var line := sendStatusExtra.statusLine;
      ghost var from, out := sendStatusExtra.sentBytes, connection.sent;
      done := SendString(line);
      PartlySent(out, line, from, if done then |line| else sendStatusExtra.sentBytes, AfterStatusLine());
      if !done { return; }
      sendStatusExtra := NoExtra;
    }

    /** One turn of the loop of HTTPResponseSendHeaders. */
    method SendHeaderPart() returns (done: bool)
      requires Valid() && sendStatus == SendingHeaders && sendStatusExtra.HeadersInfo? && sendStatusExtra.iter != []
      modifies this`sendStatusExtra, connection
      ensures Valid() && sendStatusExtra.HeadersInfo?
      ensures connection.sent + Remaining() == old(connection.sent + Remaining())
      ensures connection.patience <= old(connection.patience) && |connection.sent| >= |old(connection.sent)|
      ensures !done ==> |connection.sent| > |old(connection.sent)| || connection.patience < old(connection.patience)
      ensures done ==>
        if old(sendStatusExtra).status.SendLineDelimiter? then |sendStatusExtra.iter| < |old(sendStatusExtra).iter|
        else
          && sendStatusExtra.iter == old(sendStatusExtra).iter
          && Rank(sendStatusExtra.status) < Rank(old(sendStatusExtra).status)
    {
      hide Lines, Part, AfterPart, Content, StatusLine;
      var iter, status := sendStatusExtra.iter, sendStatusExtra.status;
      var part := Part(status, iter);
      ghost var from, out := sendStatusExtra.sentBytes, connection.sent;
      done := SendString(part);
      PartlySent(out, part, from, if done then |part| else sendStatusExtra.sentBytes,
                 AfterPart(status, iter) + Content(body));
      if !done { return; }
      sendStatusExtra := NextHeaderPart(sendStatusExtra);
      PartsFollow(status, iter);
      HeaderPartStarts();
    }

    /** At the start of a part nothing of it is out. */
    lemma HeaderPartStarts()
      requires Valid() && sendStatus == SendingHeaders && sendStatusExtra.HeadersInfo? && sendStatusExtra.sentBytes == 0
      ensures Remaining() == Part(sendStatusExtra.status, sendStatusExtra.iter)
        + AfterPart(sendStatusExtra.status, sendStatusExtra.iter) + Content(body)
    {
      hide Lines, Part, AfterPart, Content;
    }

    /** The switch's updates of info->status and the iterator. */
    static function NextHeaderPart(extra: Extra): (next: Extra)
      requires extra.HeadersInfo? && extra.iter != [] && extra.status != SendHeadersEnd
      ensures next.HeadersInfo? && next.sentBytes == extra.sentBytes
      ensures (next.status, next.iter) == NextPart(extra.status, extra.iter)
      ensures next.status.SendHeadersEnd? <==> next.iter == []
    {
      match extra.status
      case SendKey => extra.(status := SendKeyValueDelimiter)
      case SendKeyValueDelimiter => extra.(status := SendValue)
      case SendValue => extra.(status := SendLineDelimiter)
      case SendLineDelimiter =>
        extra.(iter := extra.iter[1..], status := if extra.iter[1..] != [] then SendKey else SendHeadersEnd)
    }

    static function Rank(status: HeadersStatus): nat {
      match status
      case SendKey => 4
      case SendKeyValueDelimiter => 3
      case SendValue => 2
      case SendLineDelimiter => 1
      case SendHeadersEnd => 0
    }

    /** HTTPResponseSendHeaders */
    method SendHeaders() returns (done: bool)
      requires Valid() && sendStatus == SendingHeaders
      modifies this`sendStatusExtra, connection
      ensures Valid() && StageKeeps(done)
    {
      hide Lines, Part, AfterPart;
      ghost var whole := connection.sent + Remaining();
      if sendStatusExtra == NoExtra {
        sendStatusExtra := HeadersInfo(0, SendKey, headers);
        StartsHeaders();
      }
      while sendStatusExtra.iter != []
        invariant Valid() && sendStatusExtra.HeadersInfo?
        invariant connection.sent + Remaining() == whole
        invariant connection.patience <= old(connection.patience)
        invariant |connection.sent| >= |old(connection.sent)|
        decreases |sendStatusExtra.iter|, Rank(sendStatusExtra.status)
      {
        done := SendHeaderPart();
        if !done { return; }
      }
      done := SendBlankLine();
    }

    lemma StartsHeaders()
      requires Valid() && sendStatus == SendingHeaders && sendStatusExtra == HeadersInfo(0, SendKey, headers)
      ensures Remaining() == AfterStatusLine()
    {
      LinesFollow(headers);
    }

    /** The end of HTTPResponseSendHeaders. */
    method SendBlankLine() returns (done: bool)
      requires Valid() && sendStatus == SendingHeaders && sendStatusExtra.HeadersInfo? && sendStatusExtra.iter == []
      modifies this`sendStatusExtra, connection
      ensures Valid() && StageKeeps(done)
    {
      hide Lines, StatusLine, Part, AfterPart, Content;
      NoPartsLeft(sendStatusExtra.status);
      assert "" + Content(body) == Content(body);
      ghost var from, out := sendStatusExtra.sentBytes, connection.sent;
      done := SendString(CRLF);
      PartlySent(out, CRLF, from, if done then |CRLF| else sendStatusExtra.sentBytes, "" + Content(body));
      if !done { return; }
      sendStatusExtra := NoExtra;
    }

    /** HTTPConnectionSendFD with sendfile: true once a call finds nothing left to send. */
    method SendFD(content: string) returns (done: bool)
      requires sendStatusExtra.BodyInfo? && sendStatusExtra.fileOffset <= sendStatusExtra.fileSize == |content|
      modifies this`sendStatusExtra, connection
      ensures sendStatusExtra.BodyInfo?
      ensures sendStatusExtra == old(sendStatusExtra).(fileOffset := sendStatusExtra.fileOffset)
      ensures old(sendStatusExtra).fileOffset <= sendStatusExtra.fileOffset <= |content|
      ensures connection.sent ==
        old(connection.sent) + content[old(sendStatusExtra).fileOffset..sendStatusExtra.fileOffset]
      ensures connection.patience <= old(connection.patience)
      ensures done ==> sendStatusExtra.fileOffset == |content|
      ensures !done ==>
        sendStatusExtra.fileOffset > old(sendStatusExtra).fileOffset || connection.patience < old(connection.patience)
    {
      var from := sendStatusExtra.fileOffset;
      var n := connection.SendFile(content[from..]);
      if n < 0 {
        return false;
      }
      sendStatusExtra := sendStatusExtra.(fileOffset := from + n);
      assert content[from..][..n] == content[from..from + n];
      return n == 0;
    }

    /** HTTPResponseSendBody */
    method SendBody() returns (done: bool)
      requires Valid() && sendStatus == SendingBody
      modifies this`sendStatusExtra, connection
      ensures Valid() && StageKeeps(done)
    {
      if sendStatusExtra == NoExtra {
        sendStatusExtra := BodyInfo(0, 0, if body.File? then |body.content| else 0);
      }
      ghost var out := connection.sent;
      if body.Text? {
        ghost var from := sendStatusExtra.sentBytes;
        done := SendString(body.text);
        PartlySent(out, body.text, from, if done then |body.text| else sendStatusExtra.sentBytes, "");
        if !done { return; }
      } else if body.File? {
        ghost var from := sendStatusExtra.fileOffset;
        done := SendFD(body.content);
        PartlySent(out, body.content, from, sendStatusExtra.fileOffset, "");
        if !done { return; }
      }
      sendStatusExtra := NoExtra;
      done := true;
    }

    /** HTTPResponseSend: the switch whose cases fall through. Whatever the socket took, the bytes out so
        far and the bytes remaining make up the same whole; the call returns true exactly when the
        response is complete and nothing remains; and a call that returns false put something out or was
        refused. */
    method Send() returns (done: bool)
      requires Valid()
      modifies this`sendStatus, this`sendStatusExtra, connection
      ensures Valid()
      ensures connection.sent + Remaining() == old(connection.sent + Remaining())
      ensures done <==> sendStatus == Complete
      ensures done ==> Remaining() == ""
      ensures connection.patience <= old(connection.patience) && |connection.sent| >= |old(connection.sent)|
      ensures !done ==> |connection.sent| > |old(connection.sent)| || connection.patience < old(connection.patience)
    {
      hide Lines, StatusLine, Part, AfterPart;
      if sendStatus == NotStarted {
        sendStatus := SendingStatusLine;
      }
      if sendStatus == SendingStatusLine {
        done := SendStatusLine();
        if !done { return; }
        sendStatus := SendingHeaders;
      }
      if sendStatus == SendingHeaders {
        done := SendHeaders();
        if !done { return; }
        sendStatus := SendingBody;
      }
      if sendStatus == SendingBody {
        done := SendBody();
        if !done { return; }
        sendStatus := Complete;
      }
      done := true;
    }

    /** HTTPResponseSetHeaderValue: a new key becomes a leaf of the dictionary's tree, and so comes where the
        iterator passes it; the empty key is the sentinel's, which is not printed. */
    method SetHeaderValue(key: string, value: string)
      requires Valid() && Arranged() && sendStatus == NotStarted
      modifies this`tree, this`headers
      ensures Valid() && Arranged() && tree == Planted(old(tree), key)
      ensures forall h :: h in headers <==> (h == (key, value) && key != "") || (h in old(headers) && h.0 != key)
    {
      hide Planted, Searchable, Order;
      OrderKept(headers, tree, key, value);
      forall h { ValueSet(headers, tree, key, value, h); }
      tree, headers := Planted(tree, key), WithValue(headers, Order(Planted(tree, key))[1..], key, value);
    }
  }

  /** The headers are those of the tree's keys past the sentinel, in the tree's order. */
  ghost predicate InOrder(headers: seq<Header>, tree: Tree) {
    && tree.Branch? && tree.key == "" && Searchable(tree)
    && |Order(tree)| == |headers| + 1
    && forall i :: 0 <= i < |headers| ==> headers[i].0 == Order(tree)[i + 1]
  }

  function ValueOf(headers: seq<Header>, key: string): string {
    if headers == [] then "" else if headers[0].0 == key then headers[0].1 else ValueOf(headers[1..], key)
  }

  /** The headers for the keys, after key has got its value. */
  function WithValue(headers: seq<Header>, keys: seq<string>, key: string, value: string): (r: seq<Header>)
    ensures |r| == |keys|
    ensures forall i :: 0 <= i < |keys| ==>
      r[i] == (keys[i], if keys[i] == key then value else ValueOf(headers, keys[i]))
  {
    seq(|keys|, i requires 0 <= i < |keys| => (keys[i], if keys[i] == key then value else ValueOf(headers, keys[i])))
  }

  lemma {:induction false} ValueOfIs(headers: seq<Header>, i: nat)
    requires i < |headers| && forall k :: 0 <= k < i ==> headers[k].0 != headers[i].0
    ensures ValueOf(headers, headers[i].0) == headers[i].1
  {
    if i > 0 { ValueOfIs(headers[1..], i - 1); }
  }

  /** Each header's value is found under its key, which is not the sentinel's. */
  lemma HeaderFound(headers: seq<Header>, tree: Tree, h: Header)
    requires InOrder(headers, tree) && h in headers
    ensures h.0 in Order(tree) && h.0 != "" && ValueOf(headers, h.0) == h.1
  {
    var i :| 0 <= i < |headers| && headers[i] == h;
    OrderOnce(tree);
    assert Order(tree)[0] == "";
    hide Order, Searchable;
    assert h.0 == Order(tree)[i + 1] != Order(tree)[0];
    assert forall k :: 0 <= k < i ==> headers[k].0 == Order(tree)[k + 1] != Order(tree)[i + 1];
    ValueOfIs(headers, i);
  }

  lemma KeyPrinted(headers: seq<Header>, tree: Tree, key: string)
    requires InOrder(headers, tree) && key in Order(tree) && key != ""
    ensures (key, ValueOf(headers, key)) in headers
  {
    assert Order(tree)[0] == "";
    hide Order, Searchable;
    var j :| 0 <= j < |Order(tree)| && Order(tree)[j] == key;
    assert headers[j - 1].0 == key;
    HeaderFound(headers, tree, headers[j - 1]);
  }

  /** Setting a value keeps the headers in the order of the tree. */
  lemma OrderKept(headers: seq<Header>, tree: Tree, key: string, value: string)
    requires InOrder(headers, tree) && headers != []
    ensures var tree' := Planted(tree, key);
      var headers' := WithValue(headers, Order(tree')[1..], key, value);
      InOrder(headers', tree') && headers' != []
  {
    PlantedSearchable(tree, key);
    PlantedKeys(tree, key);
    CompareIsOrder("", key);
    var tree' := Planted(tree, key);
    assert tree'.key == "" && Order(tree)[0] == "" == Order(tree')[0];
    OrderOnce(tree);
    hide Planted, Searchable, Order;
    assert Order(tree)[1] in Order(tree') && Order(tree)[1] != Order(tree')[0];
  }

  /** And it changes or adds that one header only. */
  lemma ValueSet(headers: seq<Header>, tree: Tree, key: string, value: string, h: Header)
    requires InOrder(headers, tree) && headers != []
    ensures var tree' := Planted(tree, key);
      h in WithValue(headers, Order(tree')[1..], key, value) <==>
      (h == (key, value) && key != "") || (h in headers && h.0 != key)
  {
    OrderKept(headers, tree, key, value);
    PlantedKeys(tree, key);
    var tree' := Planted(tree, key);
    var headers' := WithValue(headers, Order(tree')[1..], key, value);
    hide InOrder, Planted, Order, ValueOf;
    if h in headers' {
      var i :| 0 <= i < |headers'| && headers'[i] == h;
      HeaderFound(headers', tree', h);
      if h.0 != key { KeyPrinted(headers, tree, h.0); }
    }
    if h in headers && h.0 != key {
      HeaderFound(headers, tree, h);
      KeySet(headers, tree', key, value, h.0);
    }
    if key != "" { KeySet(headers, tree', key, value, key); }
  }

  /** What the new headers hold for a key of the new tree. */
  lemma KeySet(headers: seq<Header>, tree': Tree, key: string, value: string, k: string)
    requires tree'.Branch? && tree'.key == "" && k in Order(tree') && k != ""
    ensures (k, if k == key then value else ValueOf(headers, k)) in WithValue(headers, Order(tree')[1..], key, value)
  {
    assert Order(tree')[0] == "";
    hide Order, ValueOf;
    var i :| 0 <= i < |Order(tree')| && Order(tree')[i] == k;
    assert Order(tree')[1..][i - 1] == k;
    assert WithValue(headers, Order(tree')[1..], key, value)[i - 1].0 == k;
  }

  /** HTTPSendResponse, called again each time the poll reports the socket writable, until the connection
      is closed: whatever the socket takes each time, a peer that refuses finitely often has received
      exactly the image of the response, and no more. */
  method Deliver(r: Response)
    requires r.Valid() && r.sendStatus == NotStarted
    modifies r`sendStatus, r`sendStatusExtra, r.connection
    ensures r.connection.sent == old(r.connection.sent) + old(r.Image())
  {
    var done := r.Send();
    while !done
      invariant r.Valid() && (done <==> r.sendStatus == Complete)
      invariant r.connection.sent + r.Remaining() == old(r.connection.sent + r.Image())
      invariant done ==> r.Remaining() == ""
      decreases |r.Remaining()| + r.connection.patience, !done
    {
      done := r.Send();
    }
  }

  /** Any number of calls of HTTPResponseSend, whether the response is complete by then or not: what is out
      is a prefix of the image, and the whole image once a call has returned true. */
  method SendTimes(r: Response, n: nat) returns (done: bool)
    requires r.Valid() && r.sendStatus == NotStarted
    modifies r`sendStatus, r`sendStatusExtra, r.connection
    ensures old(r.connection.sent) <= r.connection.sent
    ensures r.connection.sent[|old(r.connection.sent)|..] <= old(r.Image())
    ensures done ==> r.connection.sent == old(r.connection.sent) + old(r.Image())
    ensures !done && n > 0 ==>
      |r.connection.sent| > |old(r.connection.sent)| || r.connection.patience < old(r.connection.patience)
  {
    hide Response.Valid, Response.Image, Response.Remaining;
    NothingSentYet(r);
    done := false;
    ghost var before, image := r.connection.sent, r.Image();
    for i := 0 to n
      invariant r.Valid() && r.connection.sent + r.Remaining() == before + image && |r.connection.sent| >= |before|
      invariant done ==> r.Remaining() == ""
      invariant r.connection.patience <= old(r.connection.patience)
      invariant !done && i > 0 ==> |r.connection.sent| > |before| || r.connection.patience < old(r.connection.patience)
    {
      done := r.Send();
    }
    OutIsPrefix(before, image, r.connection.sent, r.Remaining());
  }

  lemma NothingSentYet(r: Response)
    requires r.Valid() && r.sendStatus == NotStarted
    ensures r.Remaining() == r.Image()
  {}

  lemma OutIsPrefix(before: string, image: string, out: string, remaining: string)
    requires out + remaining == before + image && |out| >= |before|
    ensures before <= out && out[|before|..] <= image
  {
    var whole := before + image;
    assert out == whole[..|out|];
    assert out[|before|..] == image[..|out| - |before|];
  }
}
