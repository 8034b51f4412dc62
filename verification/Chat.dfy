/** The nickname registry, commands and broadcast of the chat server (chat/server/client.c, server.c). */
module Chat {
  import opened Wrappers
  import opened Strings
  import opened Dictionaries
  import opened Iterators
  import opened ChatClients
  import opened KeyTrees
  import Decimal
  import Finite
  import opened Listings
  import LineBuffer
  import Reading
  import Shapes

  /** The registry and the clients name each other: every key but the sentinel's is the nickname of a
      connected client, and every connected client is registered under its nickname. */
  ghost predicate Registered(names: map<string, Option<Client>>, connected: set<Client>)
    reads connected`nickname
  {
    && "" in names && names[""] == None
    && (forall k :: k in names && k != "" ==>
          IsNick(k) && names[k].Some? && names[k].value in connected && names[k].value.nickname == Some(k))
    && (forall c :: c in connected ==>
          c.nickname.Some? && c.nickname.value in names && names[c.nickname.value] == Some(c))
  }

  /** Output buffers are tidy and not shared. */
  ghost predicate Separate(connected: set<Client>)
    reads connected`outBuffer, connected`outBufferLength, connected`outBufferFilled
  {
    && (forall c :: c in connected ==> c.Tidy())
    && (forall c, d :: c in connected && d in connected && c != d && c.outBuffer != null ==> c.outBuffer != d.outBuffer)
  }

  /** The registry after nick has become c's nickname in place of was. */
  ghost function Renamed(names: map<string, Option<Client>>, was: Option<string>, nick: string, c: Client):
    map<string, Option<Client>>
  {
    (names - (if was.Some? then {was.value} else {}))[nick := Some(c)]
  }

  /** The registry's tree after that. */
  function Rekeyed(t: Tree, was: Option<string>, nick: string): Tree {
    Planted(if was.Some? then Uprooted(t, was.value) else t, nick)
  }

  /** A nickname is refused if it is empty or another client's. */
  ghost predicate CanTake(nick: string, has: Option<string>, names: map<string, Option<Client>>) {
    nick != "" && (has == Some(nick) || nick !in names)
  }

  /** Registered, but for c, which is registered under was whatever its nickname is now. */
  ghost predicate RegisteredBut(names: map<string, Option<Client>>, connected: set<Client>, c: Client,
                                was: Option<string>)
    reads connected - {c}
  {
    && "" in names && names[""] == None
    && (c in connected ==> was.Some? && was.value in names && names[was.value] == Some(c))
    && (c !in connected ==> was == None)
    && (forall k :: k in names && k != "" ==>
          && IsNick(k) && names[k].Some? && names[k].value in connected
          && (if names[k].value == c then was == Some(k) else names[k].value.nickname == Some(k)))
    && (forall d :: d in connected && d != c ==>
          d.nickname.Some? && d.nickname.value in names && names[d.nickname.value] == Some(d))
  }

  lemma RegisteredNow(names: map<string, Option<Client>>, connected: set<Client>, c: Client)
    requires Registered(names, connected) && (c in connected || c.nickname == None)
    ensures RegisteredBut(names, connected, c, c.nickname)
  {}

  /** Putting the new nickname in place of the old one registers c again. */
  lemma RegisteredAgain(names: map<string, Option<Client>>, connected: set<Client>, c: Client, was: Option<string>,
                        nick: string)
    requires RegisteredBut(names, connected, c, was)
    requires IsNick(nick) && nick !in names && c.nickname == Some(nick)
    ensures Registered(Renamed(names, was, nick, c), connected + {c})
  {
    var names' := Renamed(names, was, nick, c);
    forall d | d in connected && d != c
      ensures d.nickname.Some? && d.nickname.value in names' && names'[d.nickname.value] == Some(d)
    {
      assert names[d.nickname.value] == Some(d);
    }
    forall k | k in names' && k != "" && k != nick
      ensures IsNick(k) && names'[k].Some? && names'[k].value in connected && names'[k].value.nickname == Some(k)
    {
      assert k in names && names'[k] == names[k];
    }
  }

  lemma SeparateWith(connected: set<Client>, c: Client)
    requires Separate(connected) && (c in connected || (c.outBuffer == null && c.Tidy()))
    ensures Separate(connected + {c})
  {}

  /** The sentinel is nobody's: its key is no nickname. */
  lemma KeysAndNames(names: map<string, Option<Client>>, connected: set<Client>, k: string)
    requires Registered(names, connected)
    ensures "" in names
    ensures k in names && k != "" ==>
      names[k].Some? && names[k].value in connected && names[k].value.nickname == Some(k)
    ensures forall c :: c in connected ==> c.nickname.Some? && c.nickname.value != "" && c.nickname.value in names
  {}

  lemma NickRegistered(names: map<string, Option<Client>>, connected: set<Client>, c: Client)
    requires Registered(names, connected) && c in connected
    ensures c.nickname.Some? && c.nickname.value != "" && c.nickname.value in names
    ensures names[c.nickname.value] == Some(c)
  {}

  lemma OneKeyLess(names: map<string, Option<Client>>, k: string)
    requires k in names
    ensures |names - {k}| == |names| - 1
  {
    assert names.Keys == (names - {k}).Keys + {k};
  }

  lemma StillOthers(names: map<string, Option<Client>>, connected: set<Client>, c: Client)
    requires Registered(names, connected) && c in connected
    ensures Registered(names - {c.nickname.value}, connected - {c})
  {}

  lemma SentinelAlone(names: map<string, Option<Client>>)
    requires Registered(names, {})
    ensures |names| == 1
  {
    assert names.Keys == {""};
  }

  /** With n clients connected the registry has n + 1 keys, the sentinel's included. */
  lemma {:induction false} RegistrySize(names: map<string, Option<Client>>, connected: set<Client>)
    requires Registered(names, connected)
    ensures |names| == |connected| + 1
    decreases connected
  {
    hide Registered;
    if connected == {} {
      SentinelAlone(names);
    } else {
      var c :| c in connected;
      KeysAndNames(names, connected, "");
      StillOthers(names, connected, c);
      OneKeyLess(names, c.nickname.value);
      RegistrySize(names - {c.nickname.value}, connected - {c});
    }
  }

  lemma WithoutOne(names: map<string, Option<Client>>, connected: set<Client>, c: Client)
    requires Registered(names, connected) && Separate(connected) && c in connected
    ensures Registered(names - {c.nickname.value}, connected - {c}) && Separate(connected - {c})
  {
    StillOthers(names, connected, c);
  }

  /** Setting the nickname a client has leaves the registry as it is. */
  lemma RenamedToSame(names: map<string, Option<Client>>, connected: set<Client>, c: Client, nick: string)
    requires Registered(names, connected) && c.nickname == Some(nick) && c in connected
    ensures Renamed(names, c.nickname, nick, c) == names
  {}

  /** ClientWriteLine to one client leaves what the others have waiting alone. */
  method WriteTo(c: Client, line: string, ghost connected: set<Client>)
    requires Separate(connected) && c in connected
    modifies c`outBuffer, c`outBufferLength, c`outBufferFilled, c.outBuffer
    ensures Separate(connected) && (c.outBuffer == old(c.outBuffer) || fresh(c.outBuffer))
    ensures Told(old(Outs(connected)), Outs(connected), c, line + "\n")
  {
    c.WriteLine(line);
    assert forall d :: d in connected && d != c ==> d.Tidy() && d.Out() == old(d.Out());
    hide Client.Tidy, Client.Out;
    assert old(c.Out()) + line + "\n" == old(c.Out()) + (line + "\n");
  }

  /** A step of the iterator writes to nobody. */
  method Onward(iter: DictionaryIterator<Client>, ghost connected: set<Client>)
    requires iter.Valid() && iter.currentEntry != null && Separate(connected)
    modifies iter, iter.stack, iter.stack.stack
    ensures iter.Valid() && (iter.stack.stack == old(iter.stack.stack) || fresh(iter.stack.stack))
    ensures iter.Rest() == old(iter.Rest())[1..]
    ensures (iter.Calm() <==> old(iter.Calm())) && (iter.currentEntry == null ==> iter.pending == [])
    ensures Separate(connected) && Outs(connected) == old(Outs(connected))
  {
    hide Dictionary.Valid, DictionaryIterator.Valid, DictionaryIterator.Calm, Separate, Visits, Client.Out, Client.Tidy;
    Skip(iter);
  }

  /** One turn of the broadcast loop. */
  method TellCurrent(iter: DictionaryIterator<Client>, msg: string, ghost connected: set<Client>, ghost c: Client)
    requires iter.Valid() && iter.currentEntry != null && iter.currentEntry.value == Some(c)
    requires Separate(connected) && c in connected
    modifies iter, iter.stack, iter.stack.stack, c`outBuffer, c`outBufferLength, c`outBufferFilled, c.outBuffer
    ensures iter.Valid() && (iter.stack.stack == old(iter.stack.stack) || fresh(iter.stack.stack))
    ensures iter.Rest() == old(iter.Rest())[1..]
    ensures (iter.Calm() <==> old(iter.Calm())) && (iter.currentEntry == null ==> iter.pending == [])
    ensures Separate(connected) && (c.outBuffer == old(c.outBuffer) || fresh(c.outBuffer))
    ensures Told(old(Outs(connected)), Outs(connected), c, msg + "\n")
  {
    hide Dictionary.Valid, DictionaryIterator.Valid, DictionaryIterator.Calm, Told, Separate, Client.Out, Client.Tidy;
    hide Outs, Visits;
    WriteTo(iter.currentEntry.value.value, msg, connected);
    Onward(iter, connected);
  }

  /** cs are the connected clients, each once, in the order of the entries es. */
  ghost predicate Covers(nodes: set<Shapes.Entry<Client>>, es: seq<Shapes.Entry<Client>>, cs: seq<Client>,
                         connected: set<Client>)
    reads nodes`value
  {
    && |es| == |cs| && (forall i :: 0 <= i < |cs| ==> es[i] in nodes && es[i].value == Some(cs[i]))
    && (forall i, j :: 0 <= i < j < |cs| ==> cs[i] != cs[j])
    && (forall c :: c in cs ==> c in connected) && (forall c :: c in connected ==> c in cs)
  }

  /** One turn of the broadcast loop: the client cs[k] gets the text too. */
  method TellNext(iter: DictionaryIterator<Client>, msg: string, ghost connected: set<Client>,
                  ghost es: seq<Shapes.Entry<Client>>, ghost cs: seq<Client>, ghost k: nat,
                  ghost c: Client, ghost was: map<Client, string>)
    requires iter.Valid() && iter.currentEntry != null && k < |cs| && k <= |es| && iter.Rest() == es[k..]
    requires Separate(connected) && c == cs[k] && Covers(iter.dictionary.nodes, es, cs, connected)
    requires ToldFirst(was, Outs(connected), cs, k, msg + "\n")
    modifies iter, iter.stack, iter.stack.stack
    modifies c`outBuffer, c`outBufferLength, c`outBufferFilled, c.outBuffer
    ensures iter.Valid() && (iter.stack.stack == old(iter.stack.stack) || fresh(iter.stack.stack))
    ensures iter.Rest() == es[k + 1..]
    ensures (iter.Calm() <==> old(iter.Calm())) && (iter.currentEntry == null ==> iter.pending == [])
    ensures Covers(iter.dictionary.nodes, es, cs, connected)
    ensures Separate(connected) && (c.outBuffer == old(c.outBuffer) || fresh(c.outBuffer))
    ensures ToldFirst(was, Outs(connected), cs, k + 1, msg + "\n")
  {
    hide Dictionary.Valid, DictionaryIterator.Valid, DictionaryIterator.Calm, Told, ToldFirst, Separate, Outs, Visits;
    assert iter.currentEntry == iter.Rest()[0] == es[k];
    DropOne(es, k);
    ghost var now := Outs(connected);
    TellCurrent(iter, msg, connected, c);
    OneMoreTold(was, now, Outs(connected), cs, k, msg + "\n");
  }

  /** The broadcast loop, when cs are the clients behind the entries the iterator still visits. */
  method TellRest(iter: DictionaryIterator<Client>, msg: string, ghost connected: set<Client>, ghost cs: seq<Client>)
    requires iter.Valid() && (iter.currentEntry == null ==> iter.pending == [])
    requires Separate(connected) && Covers(iter.dictionary.nodes, iter.Rest(), cs, connected)
    modifies iter, iter.stack, iter.stack.stack
    modifies connected`outBuffer, connected`outBufferLength, connected`outBufferFilled, Buffers(connected)
    ensures Separate(connected) && (iter.stack.inside <==> old(iter.Calm()))
    ensures iter.dictionary.Valid() && ToldAll(old(Outs(connected)), Outs(connected), msg + "\n")
    ensures forall c :: c in connected ==> c.outBuffer == old(c.outBuffer) || fresh(c.outBuffer)
  {
    hide Dictionary.Valid, DictionaryIterator.Valid, DictionaryIterator.Calm, Separate, Visits, Outs, Told, ToldAll;
    hide ToldFirst, Covers;
    ghost var es, was, text := iter.Rest(), Outs(connected), msg + "\n";
    OutsOf(connected);
    NobodyTold(iter.dictionary.nodes, es, cs, connected, was, text);
    ghost var k := 0;
    while iter.currentEntry != null
      invariant iter.Valid() && (iter.stack.stack == old(iter.stack.stack) || fresh(iter.stack.stack))
      invariant 0 <= k <= |cs| && iter.Rest() == es[k..]
      invariant (iter.Calm() <==> old(iter.Calm())) && (iter.currentEntry == null ==> iter.pending == [])
      invariant |es| == |cs| && Covers(iter.dictionary.nodes, es, cs, connected)
      invariant Separate(connected) && ToldFirst(was, Outs(connected), cs, k, text)
      invariant forall c :: c in connected ==> c.outBuffer == old(c.outBuffer) || fresh(c.outBuffer)
      decreases |cs| - k
    {
      ClientAt(iter.dictionary.nodes, es, cs, connected, k);
      TellNext(iter, msg, connected, es, cs, k, cs[k], was);
      k := k + 1;
    }
    EverybodyTold(was, Outs(connected), cs, text);
    CalmAtEnd(iter);
    DictionaryStays(iter);
  }

  /** One name of the list, with rest behind it, goes into the line begun, which is written before if it has no room;
      false when the name has no room in an empty line either. */
  method ListOne(c: Client, line: string, name: string, ghost rest: seq<string>, ghost connected: set<Client>)
    returns (line': string, fits: bool, ghost sent: string)
    requires Separate(connected) && c in connected && |line| <= ROOM
    modifies c`outBuffer, c`outBufferLength, c`outBufferFilled, c.outBuffer
    ensures Separate(connected) && (c.outBuffer == old(c.outBuffer) || fresh(c.outBuffer))
    ensures Told(old(Outs(connected)), Outs(connected), c, sent)
    ensures (fits <==> Fits(name)) && |line'| <= ROOM
    ensures fits ==> Text(Lines([name] + rest, line)) == sent + Text(Lines(rest, line'))
  {
    hide Separate, Lines, Text, Told, Outs, Fits, Item;
    NothingTold(connected, c);
    line', sent := line, "";
    if ROOM - |line'| < |name| + 3 {
      WriteTo(c, line', connected);
      sent := line' + "\n";
      line' := "";
    }
    ItemSize(name);
    fits := |line'| + |name| + 3 <= ROOM;
    if fits {
      line' := line' + "[" + name + "] ";
      ItemAdded(name, line);
      OneMore(name, rest, line);
    }
  }

  lemma ItemSize(name: string)
    ensures |Item(name)| == |name| + 3 && (Fits(name) <==> |name| + 3 <= ROOM)
  {}

  lemma ItemAdded(name: string, line: string)
    ensures "" + "[" + name + "] " == Item(name) && line + "[" + name + "] " == line + Item(name)
  {}

  /** names are the nicknames of the clients cs. */
  ghost predicate Nicknamed(cs: seq<Client>, names: seq<string>)
    reads cs`nickname
  {
    |cs| == |names| && forall i :: 0 <= i < |cs| ==> cs[i].nickname == Some(names[i])
  }

  lemma NickAt(nodes: set<Shapes.Entry<Client>>, es: seq<Shapes.Entry<Client>>, cs: seq<Client>, connected: set<Client>,
               names: seq<string>, k: nat)
    requires Covers(nodes, es, cs, connected) && Nicknamed(cs, names) && k < |es|
    ensures k < |names| == |es| && es[k].value.Some? && es[k].value.value.nickname == Some(names[k])
  {}

  /** One turn of the loop of ClientHandleListCommand. */
  method ListNext(iter: DictionaryIterator<Client>, c: Client, line: string, ghost connected: set<Client>,
                  ghost es: seq<Shapes.Entry<Client>>, ghost cs: seq<Client>, ghost names: seq<string>, ghost k: nat)
    returns (line': string, fits: bool, ghost sent: string)
    requires iter.Valid() && iter.currentEntry != null && k < |es| && iter.Rest() == es[k..]
    requires Separate(connected) && c in connected && |line| <= ROOM
    requires Covers(iter.dictionary.nodes, es, cs, connected) && Nicknamed(cs, names)
    modifies iter, iter.stack, iter.stack.stack, c`outBuffer, c`outBufferLength, c`outBufferFilled, c.outBuffer
    ensures iter.Valid() && (iter.stack.stack == old(iter.stack.stack) || fresh(iter.stack.stack))
    ensures fits ==> iter.Rest() == es[k + 1..]
    ensures fits ==> (iter.Calm() <==> old(iter.Calm())) && (iter.currentEntry == null ==> iter.pending == [])
    ensures Covers(iter.dictionary.nodes, es, cs, connected) && Nicknamed(cs, names)
    ensures Separate(connected) && (c.outBuffer == old(c.outBuffer) || fresh(c.outBuffer))
    ensures Told(old(Outs(connected)), Outs(connected), c, sent) && |line'| <= ROOM
    ensures k < |names| && (fits <==> Fits(names[k]))
    ensures fits ==> Text(Lines(names[k..], line)) == sent + Text(Lines(names[k + 1..], line'))
  {
    hide Dictionary.Valid, DictionaryIterator.Valid, DictionaryIterator.Calm, Told, Separate, Outs, Visits;
    hide Covers, Nicknamed, Lines, Text, Fits;
    assert iter.currentEntry == iter.Rest()[0] == es[k];
    DropOne(es, k);
    NickAt(iter.dictionary.nodes, es, cs, connected, names, k);
    line', fits, sent := ListOne(c, line, iter.currentEntry.value.value.nickname.value, names[k + 1..], connected);
    assert names[k..] == [names[k]] + names[k + 1..];
    if fits { Onward(iter, connected); }
  }

  /** The loop of ClientHandleListCommand over the entries of the clients cs, with these nicknames; it stops
      when a name has no room in the line buffer. */
  method ListRest(iter: DictionaryIterator<Client>, c: Client, ghost connected: set<Client>, ghost cs: seq<Client>,
                  ghost names: seq<string>)
    returns (fits: bool)
    requires iter.Valid() && (iter.currentEntry == null ==> iter.pending == [])
    requires Separate(connected) && c in connected
    requires Covers(iter.dictionary.nodes, iter.Rest(), cs, connected) && Nicknamed(cs, names)
    modifies iter, iter.stack, iter.stack.stack, c`outBuffer, c`outBufferLength, c`outBufferFilled, c.outBuffer
    ensures Separate(connected) && iter.dictionary.Valid() && (c.outBuffer == old(c.outBuffer) || fresh(c.outBuffer))
    ensures fits <==> AllFit(names)
    ensures fits ==> Told(old(Outs(connected)), Outs(connected), c, Listing(names))
    ensures fits ==> (iter.stack.inside <==> old(iter.Calm()))
  {
    hide Dictionary.Valid, DictionaryIterator.Valid, DictionaryIterator.Calm, Told, Separate, Outs, Visits;
    hide Covers, Nicknamed, Lines, Text, Fits;
    ghost var es, was, out := iter.Rest(), Outs(connected), "";
    ghost var k := 0;
    var line := "";
    SameCount(iter.dictionary.nodes, es, cs, connected, names);
    NothingTold(connected, c);
    assert names[0..] == names;
    while iter.currentEntry != null
      invariant iter.Valid() && (iter.stack.stack == old(iter.stack.stack) || fresh(iter.stack.stack))
      invariant 0 <= k <= |es| == |names| && iter.Rest() == es[k..] && |line| <= ROOM
      invariant (iter.Calm() <==> old(iter.Calm())) && (iter.currentEntry == null ==> iter.pending == [])
      invariant Covers(iter.dictionary.nodes, es, cs, connected) && Nicknamed(cs, names)
      invariant Separate(connected) && Told(was, Outs(connected), c, out)
      invariant out + Text(Lines(names[k..], line)) == Listing(names)
      invariant forall i :: 0 <= i < k ==> Fits(names[i])
      invariant c.outBuffer == old(c.outBuffer) || fresh(c.outBuffer)
      decreases |es| - k
    {
      ghost var now, sent := Outs(connected), "";
      line, fits, sent := ListNext(iter, c, line, connected, es, cs, names, k);
      if !fits {
        DictionaryStays(iter);
        return;
      }
      ToldMore(was, now, Outs(connected), c, out, sent);
      k, out := k + 1, out + sent;
    }
    fits := true;
    CalmAtEnd(iter);
    DictionaryStays(iter);
    LastLine(names[k..], line);
    assert out + "" == out;
    if |line| > 0 {
      ghost var now := Outs(connected);
      WriteTo(c, line, connected);
      ToldMore(was, now, Outs(connected), c, out, line + "\n");
    }
  }

  lemma SameCount(nodes: set<Shapes.Entry<Client>>, es: seq<Shapes.Entry<Client>>, cs: seq<Client>,
                  connected: set<Client>, names: seq<string>)
    requires Covers(nodes, es, cs, connected) && Nicknamed(cs, names)
    ensures |es| == |names|
  {}

  lemma NothingTold(connected: set<Client>, c: Client)
    ensures Told(Outs(connected), Outs(connected), c, "")
  {}

  lemma ToldMore(was: map<Client, string>, now: map<Client, string>, next: map<Client, string>, c: Client, a: string,
                 b: string)
    requires Told(was, now, c, a) && Told(now, next, c, b)
    ensures Told(was, next, c, a + b)
  {}

  lemma LastLine(names: seq<string>, line: string)
    requires names == []
    ensures Text(Lines(names, line)) == if line == "" then "" else line + "\n"
  {
    if line != "" { assert Text([line]) == line + "\n" + Text([]); }
  }

  /** The first k of the clients cs got the text. */
  ghost predicate ToldFirst(was: map<Client, string>, now: map<Client, string>, cs: seq<Client>, k: nat, text: string) {
    forall d :: d in now ==> d in was && d in cs && now[d] == was[d] + if d in cs[..Min(k, |cs|)] then text else ""
  }

  function Min(a: nat, b: nat): nat { if a < b then a else b }

  lemma ClientAt(nodes: set<Shapes.Entry<Client>>, es: seq<Shapes.Entry<Client>>, cs: seq<Client>,
                 connected: set<Client>, k: nat)
    requires Covers(nodes, es, cs, connected) && k < |cs|
    ensures cs[k] in connected
  {}

  lemma NobodyTold(nodes: set<Shapes.Entry<Client>>, es: seq<Shapes.Entry<Client>>, cs: seq<Client>,
                   connected: set<Client>, was: map<Client, string>, text: string)
    requires Covers(nodes, es, cs, connected) && was.Keys == connected
    ensures ToldFirst(was, was, cs, 0, text) && |es| == |cs|
  {}

  lemma OneMoreTold(was: map<Client, string>, now: map<Client, string>, next: map<Client, string>, cs: seq<Client>,
                    k: nat, text: string)
    requires k < |cs| && (forall i, j :: 0 <= i < j < |cs| ==> cs[i] != cs[j])
    requires ToldFirst(was, now, cs, k, text) && Told(now, next, cs[k], text)
    ensures ToldFirst(was, next, cs, k + 1, text)
  {
    assert cs[..k + 1] == cs[..k] + [cs[k]];
  }

  lemma EverybodyTold(was: map<Client, string>, now: map<Client, string>, cs: seq<Client>, text: string)
    requires ToldFirst(was, now, cs, |cs|, text)
    ensures ToldAll(was, now, text)
  {
    assert cs[..|cs|] == cs;
  }

  lemma DictionaryStays(iter: DictionaryIterator<Client>)
    requires iter.Valid()
    ensures iter.dictionary.Valid()
  {}

  ghost function Buffers(connected: set<Client>): set<array<char>>
    reads connected`outBuffer
  {
    set c | c in connected && c.outBuffer != null :: c.outBuffer
  }

  /** What waits to be sent to each client. */
  ghost function Outs(connected: set<Client>): map<Client, string>
    reads connected`outBuffer, connected`outBufferLength, connected`outBufferFilled, Buffers(connected)
  {
    map c | c in connected :: if c.Tidy() then c.Out() else ""
  }

  lemma OutsOf(connected: set<Client>)
    ensures Outs(connected).Keys == connected
  {}

  lemma OutsWith(connected: set<Client>, c: Client)
    requires c.outBuffer == null && c !in connected
    ensures Outs(connected + {c}) == Outs(connected)[c := ""]
  {}

  ghost function NickOf(c: Client): string
    reads c`nickname
  {
    if c.nickname.Some? then c.nickname.value else ""
  }

  /** c alone got the text. */
  ghost predicate Told(was: map<Client, string>, now: map<Client, string>, c: Client, text: string) {
    forall d :: d in now ==> d in was && now[d] == was[d] + if d == c then text else ""
  }

  /** Everybody got the text. */
  ghost predicate ToldAll(was: map<Client, string>, now: map<Client, string>, text: string) {
    forall d :: d in now ==> d in was && now[d] == was[d] + text
  }

  /** The sender and the recipient got the line, twice if they are the same client, and nobody else. */
  ghost predicate ToldBoth(was: map<Client, string>, now: map<Client, string>, c: Client, recpt: Client, line: string) {
    forall d :: d in now ==>
      d in was && now[d] == was[d] + (if d == c then line else "") + (if d == recpt then line else "")
  }

  /** What /msg makes of its argument: strsep_ext for the name, the rest is the message. */
  datatype Request = Usage | Unknown | Deliver(name: string, message: string)

  function MsgRequest(arg: Option<string>, names: set<string>): Request {
    var (name, message) := SepExt(arg, {' '});
    if arg == None || name == None || message == None || message.value == "" then Usage
    else if name.value in names then Deliver(name.value, message.value)
    else Unknown
  }

  /** A nickname and a text, joined by a space, are told apart again. */
  lemma MsgReachesNamed(nick: string, text: string, names: set<string>)
    requires IsNick(nick) && text != ""
    ensures MsgRequest(Some(nick + " " + text), names) == if nick in names then Deliver(nick, text) else Unknown
  {
    var s := nick + " " + text;
    assert forall i :: 0 <= i < |nick| ==> s[i] == nick[i] && nick[i] in nick;
    CutIs(s, {' '}, |nick|);
    assert s[..|nick|] == nick && s[|nick| + 1..] == text;
  }

  /** A name alone, or no argument at all, is no message. */
  lemma MsgIncomplete(nick: string, names: set<string>)
    requires IsNick(nick)
    ensures MsgRequest(Some(nick), names) == MsgRequest(Some(nick + " "), names) == MsgRequest(None, names) == Usage
  {
    var s := nick + " ";
    assert forall i :: 0 <= i < |nick| ==> s[i] == nick[i] && nick[i] in nick;
    CutIs(s, {' '}, |nick|);
    CutIs(nick, {' '}, |nick|);
    assert s[..|nick|] == nick && s[|nick| + 1..] == "" && nick[..|nick|] == nick;
  }

  /** What ClientHandleLine does with a line. */
  datatype Meaning = Nothing | Say(text: string) | Command(name: string, args: Option<string>)

  function MeaningOf(line: string): Meaning {
    if line == "" then Nothing
    else if line[0] == '/' then var (name, args) := Sep(line[1..], {' '}); Command(name, args)
    else Say(line)
  }

  /** Everything but a leading slash is said. */
  lemma SaidLine(line: string)
    requires line != "" && line[0] != '/'
    ensures MeaningOf(line) == Say(line)
  {}

  /** A slash, a command without blanks, and its arguments if a blank follows. */
  lemma CommandLine(name: string, args: string)
    requires ' ' !in name
    ensures MeaningOf("/" + name) == Command(name, None)
    ensures MeaningOf("/" + name + " " + args) == Command(name, Some(args))
  {
    var plain, line := "/" + name, "/" + name + " " + args;
    assert plain[1..] == name && line[1..] == name + " " + args;
    assert forall i :: 0 <= i < |name| ==> name[i] in name;
    CutIs(name, {' '}, |name|);
    CutIs(line[1..], {' '}, |name|);
    assert name[..|name|] == name && line[1..][..|name|] == name && line[1..][|name| + 1..] == args;
  }

  lemma MsgLine(args: string)
    ensures MeaningOf("/msg " + args) == Command("msg", Some(args))
  {
    CommandLine("msg", args);
    assert "/msg " + args == "/" + "msg" + " " + args;
  }

  /** What /msg writes, and to whom. */
  ghost predicate MsgTold(names: map<string, Option<Client>>, was: map<Client, string>, now: map<Client, string>,
                          c: Client, sender: string, arg: Option<string>)
  {
    match MsgRequest(arg, names.Keys)
    case Usage => Told(was, now, c, "-> /msg <name> <message>\n")
    case Unknown => Told(was, now, c, "-> Recipient unkown\n")
    case Deliver(name, message) =>
      && name in names && names[name].Some? && names[name].value in now
      && ToldBoth(was, now, c, names[name].value, sender + "->" + name + ": " + message + "\n")
  }

  /** What /nick writes, and to whom. */
  ghost predicate NickTold(was: map<Client, string>, now: map<Client, string>, c: Client, oldnick: string,
                           arg: Option<string>, ok: bool)
  {
    if ok && arg.Some? then ToldAll(was, now, oldnick + " is now " + Nick(arg.value) + "\n")
    else Told(was, now, c, if arg == None then "-> /nick <name>\n" else "-> This nick is already used.\n")
  }

  predicate AsksForList(line: string) { MeaningOf(line).Command? && MeaningOf(line).name == "list" }

  /** /list answers with all nicknames in the order of the tree, packed into lines, if its line buffer can
      hold each of them; nothing is said about what happens otherwise. */
  ghost predicate ListTold(tree: Tree, was: map<Client, string>, now: map<Client, string>, c: Client) {
    Order(tree) != [] && (AllFit(Order(tree)[1..]) ==> Told(was, now, c, Listing(Order(tree)[1..])))
  }

  /** The nickname a /nick line asks for; empty if it asks for none. */
  function NewNick(line: string): string {
    var m := MeaningOf(line);
    if m.Command? && m.name == "nick" && m.args.Some? then Nick(m.args.value) else ""
  }

  ghost predicate Renames(names: map<string, Option<Client>>, has: Option<string>, line: string) {
    CanTake(NewNick(line), has, names)
  }

  /** Lines for which the server iterates over the registry. */
  ghost predicate Iterates(names: map<string, Option<Client>>, has: Option<string>, line: string) {
    MeaningOf(line).Say? || Renames(names, has, line) || AsksForList(line)
  }

  /** The registry's tree after a line. */
  ghost function LineTree(tree: Tree, names: map<string, Option<Client>>, has: Option<string>, line: string): Tree {
    if Renames(names, has, line) && has != Some(NewNick(line)) then Rekeyed(tree, has, NewNick(line)) else tree
  }

  /** What a line makes the server write, and to whom, if nick is the nickname of c. */
  ghost predicate LineTold(names: map<string, Option<Client>>, tree: Tree, was: map<Client, string>,
                           now: map<Client, string>, c: Client, nick: string, line: string)
  {
    match MeaningOf(line)
    case Nothing => Told(was, now, c, "")
    case Say(text) => ToldAll(was, now, nick + ": " + text + "\n")
    case Command(name, args) =>
      if name == "nick" then NickTold(was, now, c, nick, args, Renames(names, Some(nick), line))
      else if name == "msg" then MsgTold(names, was, now, c, nick, args)
      else if name == "list" then ListTold(tree, was, now, c)
      else Told(was, now, c, "Unkown command.\n")
  }

  /** An empty line does nothing. */
  lemma NothingMeant(names: map<string, Option<Client>>, tree: Tree, was: map<Client, string>, c: Client,
                     has: Option<string>)
    ensures LineTold(names, tree, was, was, c, if has.Some? then has.value else "", "")
    ensures !Iterates(names, has, "") && LineTree(tree, names, has, "") == tree
  {}

  lemma SepIn(s: string, delim: set<char>, ch: char)
    requires ch !in s
    ensures ch !in Sep(s, delim).0 && (Sep(s, delim).1.Some? ==> ch !in Sep(s, delim).1.value)
  {}

  const UINT32_MAX: nat := 0xFFFF_FFFF

  function DefaultNick(i: nat): string { "Derp" + Decimal.Render(i) }

  class Server {
    const clients: Dictionary<Client>
    ghost var connected: set<Client>

    ghost predicate Valid()
      reads this, clients, clients.nodes, connected
    {
      clients.Valid() && Registered(clients.contents, connected) && Separate(connected)
    }

    constructor ()
      ensures Valid() && connected == {} && fresh(clients) && fresh(clients.nodes)
      ensures clients.contents == map["" := None] && TreeOf(clients.shape) == SENTINEL
    {
      clients := new Dictionary();
      connected := {};
    }

    /** The old nickname leaves the registry, the new one enters it. */
    method ChangeKey(c: Client, nickname: string)
      requires clients.Valid() && RegisteredBut(clients.contents, connected, c, c.nickname)
      requires nickname !in clients.contents
      requires c.nickname != Some("")
      modifies clients, clients.nodes, c`nickname
      ensures clients.Valid() && fresh(clients.nodes - old(clients.nodes)) && c.nickname == Some(nickname)
      ensures clients.contents == Renamed(old(clients.contents), old(c.nickname), nickname, c)
      ensures TreeOf(clients.shape) == Rekeyed(old(TreeOf(clients.shape)), old(c.nickname), nickname)
      ensures RegisteredBut(old(clients.contents), connected, c, old(c.nickname))
    {
      hide Dictionary.Valid, RegisteredBut, TreeOf, Planted, Uprooted;
      if c.nickname.Some? { clients.Remove(c.nickname.value); }
      c.nickname := Some(nickname);
      clients.Set(nickname, Some(c));
    }

    /** The part of ClientSetNickname under the lock, for a nickname the client does not have yet. */
    method Register(c: Client, nickname: string) returns (ok: bool)
      requires clients.Valid() && Registered(clients.contents, connected)
      requires IsNick(nickname) && c.nickname != Some(nickname) && (c in connected || c.nickname == None)
      modifies this`connected, clients, clients.nodes, c`nickname
      ensures clients.Valid() && Registered(clients.contents, connected) && fresh(clients.nodes - old(clients.nodes))
      ensures ok <==> nickname !in old(clients.contents)
      ensures ok ==> c.nickname == Some(nickname) && connected == old(connected) + {c}
      ensures ok ==> clients.contents == Renamed(old(clients.contents), old(c.nickname), nickname, c)
      ensures ok ==> TreeOf(clients.shape) == Rekeyed(old(TreeOf(clients.shape)), old(c.nickname), nickname)
      ensures !ok ==>
        connected == old(connected) && clients.contents == old(clients.contents) && c.nickname == old(c.nickname)
      ensures !ok ==> clients.shape == old(clients.shape)
    {
      hide Dictionary.Valid, Registered, RegisteredBut, TreeOf, Rekeyed, Renamed;
      KeysAndNames(clients.contents, connected, nickname);
      RegisteredNow(clients.contents, connected, c);
      ghost var names, others, was := clients.contents, connected, c.nickname;
      var taken := clients.Get(nickname);
      if taken.Some? {
        return false;
      }
      ChangeKey(c, nickname);
      connected := connected + {c};
      RegisteredAgain(names, others, c, was, nickname);
      ok := true;
    }

    /** ClientSetNickname, on a C string. */
    method SetNickname(c: Client, nick: string) returns (ok: bool)
      requires Valid() && NUL !in nick
      requires c in connected || (c.nickname == None && c.Tidy() && c.outBuffer == null)
      modifies this`connected, clients, clients.nodes, c`nickname
      ensures Valid() && fresh(clients.nodes - old(clients.nodes))
      ensures ok <==> CanTake(Nick(nick), old(c.nickname), old(clients.contents))
      ensures ok ==> c.nickname == Some(Nick(nick)) && connected == old(connected) + {c}
      ensures ok ==> clients.contents == Renamed(old(clients.contents), old(c.nickname), Nick(nick), c)
      ensures ok && old(c.nickname) != Some(Nick(nick)) ==>
        TreeOf(clients.shape) == Rekeyed(old(TreeOf(clients.shape)), old(c.nickname), Nick(nick))
      ensures !ok ==>
        connected == old(connected) && clients.contents == old(clients.contents) && c.nickname == old(c.nickname)
      ensures !ok || old(c.nickname) == Some(Nick(nick)) ==> clients.shape == old(clients.shape)
    {
      hide Registered, Separate, Dictionary.Valid, TreeOf, Rekeyed;
      var nickname := Normalize(nick);
      if nickname == "" {
        return false;
      }
      if c.nickname == Some(nickname) {
        RenamedToSame(clients.contents, connected, c, nickname);
        return true;
      }
      SeparateWith(connected, c);
      ok := Register(c, nickname);
    }

    /** ServerSendChannelMessage: every connected client gets the message and a newline, once. With the
        stack's growth test as written this stays inside the stack's array if and only if the registry's
        tree never makes more than two entries wait. */
    method SendChannelMessage(msg: string) returns (ghost inside: bool)
      requires Valid()
      modifies connected`outBuffer, connected`outBufferLength, connected`outBufferFilled, Buffers(connected)
      ensures Valid()
      ensures ToldAll(old(Outs(connected)), Outs(connected), msg + "\n")
      ensures inside <==> Peak(TreeOf(clients.shape)) <= 2
      ensures forall c :: c in connected ==> c.outBuffer == old(c.outBuffer) || fresh(c.outBuffer)
    {
      hide Dictionary.Valid, DictionaryIterator.Valid, DictionaryIterator.Calm, Client.Out, Client.Tidy, Registered;
      hide Covers, Outs, ToldAll, Separate, Preorder, Visits, Peak, TreeOf;
      ghost var cs := Recipients(clients, connected);
      var iter := new DictionaryIterator(clients);
      TellRest(iter, msg, connected, cs);
      inside := iter.stack.inside;
    }

    /** ClientHandleListCommand: the client alone gets all nicknames, in the order of the registry's tree,
        packed into lines; false when a nickname has no room in the line buffer. */
    method HandleList(c: Client) returns (fits: bool, ghost inside: bool)
      requires Valid() && c in connected
      modifies connected`outBuffer, connected`outBufferLength, connected`outBufferFilled, Buffers(connected)
      ensures Valid() && Order(TreeOf(clients.shape)) != []
      ensures fits <==> AllFit(Order(TreeOf(clients.shape))[1..])
      ensures ListTold(TreeOf(clients.shape), old(Outs(connected)), Outs(connected), c)
      ensures fits ==> (inside <==> Peak(TreeOf(clients.shape)) <= 2)
      ensures forall d :: d in connected ==> d.outBuffer == old(d.outBuffer) || fresh(d.outBuffer)
    {
      hide Dictionary.Valid, DictionaryIterator.Valid, DictionaryIterator.Calm, Client.Out, Client.Tidy, Registered;
      hide Covers, Nicknamed, Outs, Told, Separate, Preorder, Visits, Peak, TreeOf, Order, AllFit, Listing;
      ghost var cs := Recipients(clients, connected);
      NamesInOrder(clients, connected, cs);
      var iter := new DictionaryIterator(clients);
      fits := ListRest(iter, c, connected, cs, Order(TreeOf(clients.shape))[1..]);
      inside := iter.stack.inside;
    }

    /** The default-nickname loop of ClientCreate: the first of Derp1, Derp2, ... that is free. */
    method ChooseNick(c: Client) returns (i: nat)
      requires Valid() && c !in connected && c.nickname == None && c.Tidy() && c.outBuffer == null
      requires |clients.contents| < UINT32_MAX
      modifies this`connected, clients, clients.nodes, c`nickname
      ensures Valid() && fresh(clients.nodes - old(clients.nodes))
      ensures 1 <= i <= |old(clients.contents)| && c.nickname == Some(DefaultNick(i))
      ensures DefaultNick(i) !in old(clients.contents)
      ensures forall j :: 1 <= j < i ==> DefaultNick(j) in old(clients.contents)
      ensures connected == old(connected) + {c}
      ensures clients.contents == old(clients.contents)[DefaultNick(i) := Some(c)]
      ensures TreeOf(clients.shape) == Planted(old(TreeOf(clients.shape)), DefaultNick(i))
    {
      hide Registered, Separate, Dictionary.Valid;
      KeysAndNames(clients.contents, connected, "");
      i := 1;
      while i < UINT32_MAX
        invariant Valid() && 1 <= i <= UINT32_MAX && fresh(clients.nodes - old(clients.nodes))
        invariant connected == old(connected) && clients.contents == old(clients.contents) && c.nickname == None
        invariant clients.shape == old(clients.shape)
        invariant forall j :: 1 <= j < i ==> DefaultNick(j) in clients.contents
      {
        DefaultIsNick(i);
        Occupied(clients.contents.Keys, i);
        var ok := SetNickname(c, DefaultNick(i));
        if ok {
          assert clients.contents == old(clients.contents)[DefaultNick(i) := Some(c)];
          return;
        }
        i := i + 1;
      }
      Occupied(clients.contents.Keys, i);
      assert false;
    }

    /** The new client has no nickname yet and nothing to send. */
    method Unnamed() returns (c: Client)
      requires Valid()
      ensures Valid() && fresh(c) && c.nickname == None && c.outBuffer == null && c.Tidy()
      ensures Outs(connected + {c}) == old(Outs(connected))[c := ""]
    {
      hide Registered, Separate, Dictionary.Valid, Client.Out;
      ghost var was := Outs(connected);
      c := new Client();
      assert Outs(connected) == was;
      hide Outs;
      OutsWith(connected, c);
    }

    /** ClientCreate up to the default nickname. */
    method Admit() returns (c: Client, i: nat)
      requires Valid() && |connected| + 1 < UINT32_MAX
      modifies this`connected, clients, clients.nodes
      ensures Valid() && fresh(c) && connected == old(connected) + {c} && fresh(clients.nodes - old(clients.nodes))
      ensures 1 <= i <= |old(connected)| + 1 && c.nickname == Some(DefaultNick(i))
      ensures forall j :: 1 <= j < i ==> DefaultNick(j) in old(clients.contents)
      ensures DefaultNick(i) !in old(clients.contents)
      ensures clients.contents == old(clients.contents)[DefaultNick(i) := Some(c)]
      ensures TreeOf(clients.shape) == Planted(old(TreeOf(clients.shape)), DefaultNick(i))
      ensures c.outBuffer == null && Outs(connected) == old(Outs(connected))[c := ""]
    {
      hide Registered, Separate, Dictionary.Valid, Client.Out, Client.Tidy, DefaultNick, TreeOf, Planted, Outs;
      RegistrySize(clients.contents, connected);
      c := Unnamed();
      ghost var all := connected + {c};
      ghost var outs, buffers := Outs(all), Buffers(all);
      i := ChooseNick(c);
      assert Buffers(all) == buffers;
      assert Outs(all) == outs;
    }

    /** ClientCreate. inside says whether, with the stack as written, the greeting stays inside its array. */
    method Connect() returns (c: Client, i: nat, ghost inside: bool)
      requires Valid() && |connected| + 1 < UINT32_MAX
      modifies this`connected, clients, clients.nodes
      modifies connected`outBuffer, connected`outBufferLength, connected`outBufferFilled, Buffers(connected)
      ensures Valid() && fresh(c) && connected == old(connected) + {c} && fresh(clients.nodes - old(clients.nodes))
      ensures 1 <= i <= |old(connected)| + 1 && c.nickname == Some(DefaultNick(i))
      ensures forall j :: 1 <= j < i ==> DefaultNick(j) in old(clients.contents)
      ensures DefaultNick(i) !in old(clients.contents)
      ensures clients.contents == old(clients.contents)[DefaultNick(i) := Some(c)]
      ensures TreeOf(clients.shape) == Planted(old(TreeOf(clients.shape)), DefaultNick(i))
      ensures ToldAll(old(Outs(connected))[c := ""], Outs(connected), DefaultNick(i) + " has entered...\n")
      ensures forall d :: d in old(connected) ==> d.outBuffer == old(d.outBuffer) || fresh(d.outBuffer)
      ensures c.outBuffer == null || fresh(c.outBuffer)
      ensures inside <==> Peak(TreeOf(clients.shape)) <= 2
    {
      hide Registered, Separate, Dictionary.Valid, Outs, ToldAll, DefaultNick, TreeOf, Planted, Peak;
      c, i := Admit();
      ghost var text := DefaultNick(i) + " has entered...\n";
      assert c.nickname.value + " has entered..." + "\n" == text;
      inside := SendChannelMessage(c.nickname.value + " has entered...");
    }

    /** A line for one client. */
    method Reply(c: Client, line: string)
      requires Valid() && c in connected
      modifies connected`outBuffer, connected`outBufferLength, connected`outBufferFilled, Buffers(connected)
      ensures Valid() && Told(old(Outs(connected)), Outs(connected), c, line + "\n")
      ensures forall d :: d in connected ==> d.outBuffer == old(d.outBuffer) || fresh(d.outBuffer)
    {
      hide Registered, Dictionary.Valid, Separate, Outs, Told;
      WriteTo(c, line, connected);
    }

    method ReplyBoth(c: Client, recpt: Client, line: string)
      requires Valid() && c in connected && recpt in connected
      modifies connected`outBuffer, connected`outBufferLength, connected`outBufferFilled, Buffers(connected)
      ensures Valid() && ToldBoth(old(Outs(connected)), Outs(connected), c, recpt, line + "\n")
      ensures forall d :: d in connected ==> d.outBuffer == old(d.outBuffer) || fresh(d.outBuffer)
    {
      hide Registered, Separate, Dictionary.Valid, Outs;
      Reply(c, line);
      Reply(recpt, line);
    }

    /** ClientHandleMsgCommand: the named client gets the message, and the sender a copy. */
    method HandleMsg(c: Client, arg: Option<string>)
      requires Valid() && c in connected
      modifies connected`outBuffer, connected`outBufferLength, connected`outBufferFilled, Buffers(connected)
      ensures Valid()
      ensures MsgTold(clients.contents, old(Outs(connected)), Outs(connected), c, NickOf(c), arg)
      ensures forall d :: d in connected ==> d.outBuffer == old(d.outBuffer) || fresh(d.outBuffer)
    {
      hide Registered, Separate, Dictionary.Valid, Client.Tidy, Client.Out, SepExt, Outs, Told, ToldBoth;
      var (name, message) := SepExt(arg, {' '});
      if arg == None || name == None || message == None || message.value == "" {
        assert "-> /msg <name> <message>" + "\n" == "-> /msg <name> <message>\n";
        Reply(c, "-> /msg <name> <message>");
        return;
      }
      KeysAndNames(clients.contents, connected, name.value);
      var recpt := clients.Get(name.value);
      if recpt == None {
        assert "-> Recipient unkown" + "\n" == "-> Recipient unkown\n";
        Reply(c, "-> Recipient unkown");
        return;
      }
      var line := c.nickname.value + "->" + name.value + ": " + message.value;
      ReplyBoth(c, recpt.value, line);
      OutsOf(connected);
    }

    /** A connected client's new nickname leaves what waits to be sent alone. */
    method Rename(c: Client, nick: string) returns (ok: bool)
      requires Valid() && c in connected && NUL !in nick
      modifies this`connected, clients, clients.nodes, c`nickname
      ensures Valid() && connected == old(connected) && fresh(clients.nodes - old(clients.nodes))
      ensures Outs(connected) == old(Outs(connected))
      ensures ok <==> CanTake(Nick(nick), old(c.nickname), old(clients.contents))
      ensures ok ==>
        && c.nickname == Some(Nick(nick))
        && clients.contents == Renamed(old(clients.contents), old(c.nickname), Nick(nick), c)
        && (old(c.nickname) != Some(Nick(nick)) ==>
              TreeOf(clients.shape) == Rekeyed(old(TreeOf(clients.shape)), old(c.nickname), Nick(nick)))
      ensures !ok ==> clients.contents == old(clients.contents) && c.nickname == old(c.nickname)
      ensures !ok || old(c.nickname) == Some(Nick(nick)) ==> clients.shape == old(clients.shape)
    {
      hide Registered, Separate, Dictionary.Valid, Client.Tidy, Client.Out, CanTake, TreeOf, Rekeyed, Renamed;
      ok := SetNickname(c, nick);
    }

    /** ClientHandleNickCommand; inside as for Connect, of the announcement if there is one. */
    method HandleNick(c: Client, arg: Option<string>) returns (ok: bool, ghost inside: bool)
      requires Valid() && c in connected && (arg.Some? ==> NUL !in arg.value)
      modifies this`connected, clients, clients.nodes, c`nickname
      modifies connected`outBuffer, connected`outBufferLength, connected`outBufferFilled, Buffers(connected)
      ensures Valid() && connected == old(connected) && fresh(clients.nodes - old(clients.nodes))
      ensures ok <==> arg.Some? && CanTake(Nick(arg.value), old(c.nickname), old(clients.contents))
      ensures NickTold(old(Outs(connected)), Outs(connected), c, old(NickOf(c)), arg, ok)
      ensures forall d :: d in connected ==> d.outBuffer == old(d.outBuffer) || fresh(d.outBuffer)
      ensures ok ==>
        && clients.contents == Renamed(old(clients.contents), old(c.nickname), Nick(arg.value), c)
        && (old(c.nickname) != Some(Nick(arg.value)) ==>
              TreeOf(clients.shape) == Rekeyed(old(TreeOf(clients.shape)), old(c.nickname), Nick(arg.value)))
      ensures !ok ==> clients.contents == old(clients.contents) && c.nickname == old(c.nickname)
      ensures !ok || old(c.nickname) == Some(Nick(arg.value)) ==> clients.shape == old(clients.shape)
      ensures inside <==> (ok ==> Peak(TreeOf(clients.shape)) <= 2)
    {
      hide Registered, Separate, Dictionary.Valid, Client.Tidy, Client.Out, CanTake, TreeOf, Rekeyed, Renamed, Peak;
      hide Outs, Told, ToldAll;
      KeysAndNames(clients.contents, connected, "");
      if arg == None {
        assert "-> /nick <name>" + "\n" == "-> /nick <name>\n";
        Reply(c, "-> /nick <name>");
        return false, true;
      }
      var oldnick := c.nickname.value;
      ok := Rename(c, arg.value);
      if ok {
        assert oldnick + " is now " + c.nickname.value + "\n" == oldnick + " is now " + Nick(arg.value) + "\n";
        inside := SendChannelMessage(oldnick + " is now " + c.nickname.value);
      } else {
        inside := true;
        assert "-> This nick is already used." + "\n" == "-> This nick is already used.\n";
        Reply(c, "-> This nick is already used.");
      }
    }

    /** ClientHandleLine. It returns false when /list runs out of its line buffer; otherwise inside says
        whether, with the stack as written, an iteration over the registry stays inside its array. */
    method HandleLine(c: Client, line: string) returns (fits: bool, ghost inside: bool)
      requires Valid() && c in connected && NUL !in line
      modifies this`connected, clients, clients.nodes, c`nickname
      modifies connected`outBuffer, connected`outBufferLength, connected`outBufferFilled, Buffers(connected)
      ensures Valid() && connected == old(connected)
      ensures
        LineTold(old(clients.contents), old(TreeOf(clients.shape)), old(Outs(connected)), Outs(connected), c,
          old(NickOf(c)), line)
      ensures !fits ==> AsksForList(line) && !AllFit(Order(old(TreeOf(clients.shape)))[1..])
      ensures forall d :: d in connected ==> d.outBuffer == old(d.outBuffer) || fresh(d.outBuffer)
      ensures
        if Renames(old(clients.contents), old(c.nickname), line) then
          clients.contents == Renamed(old(clients.contents), old(c.nickname), NewNick(line), c)
        else clients.contents == old(clients.contents) && c.nickname == old(c.nickname)
      ensures
        TreeOf(clients.shape) ==
          LineTree(old(TreeOf(clients.shape)), old(clients.contents), old(c.nickname), line)
      ensures fits ==>
        (inside <==> (Iterates(old(clients.contents), old(c.nickname), line) ==> Peak(TreeOf(clients.shape)) <= 2))
    {
      hide Registered, Separate, Dictionary.Valid, Client.Tidy, Client.Out, ToldAll, MsgTold, NickTold, MsgRequest;
      hide TreeOf, Rekeyed, Peak;
      fits, inside := true, true;
      KeysAndNames(clients.contents, connected, "");
      match MeaningOf(line) {
        case Nothing =>
        case Say(text) => inside := SendChannelMessage(c.nickname.value + ": " + text);
        case Command(name, args) =>
          if name == "nick" {
            SepIn(line[1..], {' '}, NUL);
            var ok;
            ok, inside := HandleNick(c, args);
          } else if name == "msg" {
            HandleMsg(c, args);
          } else if name == "list" {
            fits, inside := HandleList(c);
          } else {
            assert "Unkown command." + "\n" == "Unkown command.\n";
            Reply(c, "Unkown command.");
          }
      }
    }

    /** The client leaves the registry. */
    method Leave(c: Client)
      requires Valid() && c in connected
      modifies this`connected, clients, clients.nodes
      ensures Valid() && connected == old(connected) - {c} && c.nickname.Some?
      ensures clients.contents == old(clients.contents) - {NickOf(c)}
      ensures TreeOf(clients.shape) == Uprooted(old(TreeOf(clients.shape)), NickOf(c))
      ensures Outs(connected) == old(Outs(connected)) - {c}
    {
      hide Registered, Separate, Dictionary.Valid, Client.Tidy, Client.Out, TreeOf, Uprooted;
      KeysAndNames(clients.contents, connected, "");
      WithoutOne(clients.contents, connected, c);
      clients.Remove(c.nickname.value);
      connected := connected - {c};
    }

    /** ClientDisconnect; inside as for Connect, of the farewell. */
    method Disconnect(c: Client) returns (ghost inside: bool)
      requires Valid() && c in connected
      modifies this`connected, clients, clients.nodes
      modifies connected`outBuffer, connected`outBufferLength, connected`outBufferFilled, Buffers(connected)
      ensures Valid() && connected == old(connected) - {c}
      ensures clients.contents == old(clients.contents) - {NickOf(c)}
      ensures TreeOf(clients.shape) == Uprooted(old(TreeOf(clients.shape)), NickOf(c))
      ensures ToldAll(old(Outs(connected)) - {c}, Outs(connected), NickOf(c) + " has left...\n")
      ensures inside <==> Peak(TreeOf(clients.shape)) <= 2
      ensures forall d :: d in connected ==> d.outBuffer == old(d.outBuffer) || fresh(d.outBuffer)
    {
      hide Registered, Separate, Dictionary.Valid, TreeOf, Uprooted, Peak, Outs, ToldAll;
      Leave(c);
      assert NickOf(c) + " has left..." + "\n" == NickOf(c) + " has left...\n";
      inside := SendChannelMessage(c.nickname.value + " has left...");
    }

    /** ClientDoRead of a client and its input buffer: a line that is complete is handled, and a client whose
        peer is gone is disconnected. */
    method DoRead(c: Client, input: LineBuffer.Input)
      returns (stays: bool, line: Option<string>, fits: bool, ghost inside: bool)
      requires Valid() && c in connected && input.Valid() && Apart(input)
      modifies this`connected, clients, clients.nodes, c`nickname
      modifies connected`outBuffer, connected`outBufferLength, connected`outBufferFilled, Buffers(connected)
      modifies input, input.inBuffer, input.socket
      ensures Valid() && input.Valid() && Apart(input)
      ensures !stays ==>
        && connected == old(connected) - {c} && clients.contents == old(clients.contents) - {old(NickOf(c))}
        && ToldAll(old(Outs(connected)) - {c}, Outs(connected), old(NickOf(c)) + " has left...\n")
      ensures stays ==> connected == old(connected) && input.socket.pos > old(input.socket.pos)
      ensures stays ==>
        (line, input.Kept()) ==
          LineBuffer.Next(old(input.Kept()) + input.socket.stream[old(input.socket.pos)..input.socket.pos])
      ensures stays ==>
        LineTold(old(clients.contents), old(TreeOf(clients.shape)), old(Outs(connected)), Outs(connected), c,
          old(NickOf(c)), if line == None then "" else line.value)
      ensures stays ==>
        var bytes := old(input.Kept()) + input.socket.stream[old(input.socket.pos)..input.socket.pos];
        && LineBuffer.HandsOn(bytes, line)
        && (Reading.NulFree(input.socket.stream) && '\n' in bytes ==> line.Some?)
      ensures !stays ==> TreeOf(clients.shape) == Uprooted(old(TreeOf(clients.shape)), old(NickOf(c)))
      ensures stays ==>
        TreeOf(clients.shape) ==
          LineTree(old(TreeOf(clients.shape)), old(clients.contents), old(c.nickname),
            if line == None then "" else line.value)
      ensures
        if stays then
          fits ==>
            var text := if line == None then "" else line.value;
            (inside <==> (Iterates(old(clients.contents), old(c.nickname), text) ==> Peak(TreeOf(clients.shape)) <= 2))
        else inside <==> Peak(TreeOf(clients.shape)) <= 2
    {
      hide Registered, Separate, Dictionary.Valid, Client.Tidy, Client.Out, LineBuffer.Next, Outs;
      hide ToldAll, LineTold, Iterates, LineTree, Peak, TreeOf, Uprooted, LineBuffer.HandsOn, Reading.NulFree;
      KeysAndNames(clients.contents, connected, "");
      NothingMeant(clients.contents, TreeOf(clients.shape), Outs(connected), c, c.nickname);
      stays, line := TakeIn(input);
      fits, inside := true, true;
      if !stays {
        inside := Disconnect(c);
      } else if line.Some? {
        fits, inside := HandleLine(c, line.value);
      }
    }

    /** What arrives leaves the registry and the output buffers alone. */
    method TakeIn(input: LineBuffer.Input) returns (stays: bool, line: Option<string>)
      requires Valid() && input.Valid() && Apart(input)
      modifies input, input.inBuffer, input.socket
      ensures Valid() && input.Valid() && Apart(input) && Outs(connected) == old(Outs(connected))
      ensures stays ==> old(input.socket.pos) < input.socket.pos <= |input.socket.stream|
      ensures stays ==>
        (line, input.Kept()) ==
          LineBuffer.Next(old(input.Kept()) + input.socket.stream[old(input.socket.pos)..input.socket.pos])
      ensures line.Some? ==> NUL !in line.value
      ensures stays ==>
        var bytes := old(input.Kept()) + input.socket.stream[old(input.socket.pos)..input.socket.pos];
        && LineBuffer.HandsOn(bytes, line)
        && (Reading.NulFree(input.socket.stream) && '\n' in bytes ==> line.Some?)
    {
      hide Registered, Separate, Dictionary.Valid, Client.Tidy, Client.Out, LineBuffer.Next;
      hide LineBuffer.HandsOn, Reading.NulFree;
      stays, line := input.DoRead();
    }

    /** No client writes into the input buffer. */
    ghost predicate Apart(input: LineBuffer.Input)
      reads this`connected, connected, input`inBuffer
    {
      input.inBuffer != null ==> input.inBuffer !in Buffers(connected)
    }
  }

  /** The numbers below i whose names are taken are fewer than the names. */
  lemma Occupied(taken: set<string>, i: nat)
    requires i >= 1 && "" in taken && forall j :: 1 <= j < i ==> DefaultNick(j) in taken
    ensures i <= |taken|
  {
    var names := seq(i, j requires 0 <= j < i => if j == 0 then "" else DefaultNick(j));
    forall j, k | 0 <= j < k < i ensures names[j] != names[k] {
      if j > 0 && names[j] == names[k] {
        assert names[j][4..] == Decimal.Render(j) && names[k][4..] == Decimal.Render(k);
        Decimal.RenderInjective(j, k);
      }
    }
    Finite.DistinctSize(names);
    Finite.SubsetSize(set j | 0 <= j < |names| :: names[j], taken);
  }

  lemma DefaultIsNick(i: nat)
    ensures IsNick(DefaultNick(i)) && Nick(DefaultNick(i)) == DefaultNick(i) && NUL !in DefaultNick(i)
  {
    Decimal.RenderDigits(i);
    NickIsNick(DefaultNick(i));
  }

  /** Past the sentinel every entry visited has a nickname for its key. */
  lemma VisitedEntry(d: Dictionary<Client>, i: nat)
    requires d.Valid() && i + 1 < |Preorder(d.shape)|
    ensures Preorder(d.shape)[i + 1] in d.nodes && Preorder(d.shape)[i + 1].key != ""
    ensures Preorder(d.shape)[i + 1].key in d.contents
    ensures d.contents[Preorder(d.shape)[i + 1].key] == Preorder(d.shape)[i + 1].value
  {
    var e := Preorder(d.shape)[i + 1];
    PreorderOnce(d.shape);
    PreorderComplete(d.shape, e);
    assert Preorder(d.shape)[0] == d.headEntry;
    if e.key == "" { Shapes.KeysDiffer(d.shape, e, d.headEntry); }
  }

  lemma VisitedOnce(d: Dictionary<Client>, i: nat, j: nat)
    requires d.Valid() && i < j < |Preorder(d.shape)|
    ensures Preorder(d.shape)[i].key != Preorder(d.shape)[j].key
  {
    var e, f := Preorder(d.shape)[i], Preorder(d.shape)[j];
    PreorderOnce(d.shape);
    PreorderComplete(d.shape, e);
    PreorderComplete(d.shape, f);
    if e.key == f.key { Shapes.KeysDiffer(d.shape, e, f); }
  }

  /** Every key but the sentinel's is visited. */
  lemma KeyVisited(d: Dictionary<Client>, k: string) returns (i: nat)
    requires d.Valid() && k in d.contents && k != ""
    ensures i + 1 < |Preorder(d.shape)| && Preorder(d.shape)[i + 1].key == k
    ensures d.contents[k] == Preorder(d.shape)[i + 1].value
  {
    var e :| e in d.nodes && e.key == k;
    PreorderComplete(d.shape, e);
    assert Preorder(d.shape)[0] == d.headEntry != e;
    var j: nat :| 0 < j < |Preorder(d.shape)| && Preorder(d.shape)[j] == e;
    i := j - 1;
  }

  /** The client behind a visited entry. */
  lemma VisitedClient(d: Dictionary<Client>, connected: set<Client>, i: nat)
    requires d.Valid() && Registered(d.contents, connected) && i + 1 < |Preorder(d.shape)|
    ensures var e := Preorder(d.shape)[i + 1];
      && e in d.nodes && e.value.Some? && e.value.value in connected
      && e.value.value.nickname == Some(e.key)
  {
    hide Registered, Dictionary.Valid, Preorder;
    VisitedEntry(d, i);
    KeysAndNames(d.contents, connected, Preorder(d.shape)[i + 1].key);
  }

  ghost function ClientsBehind(es: seq<Shapes.Entry<Client>>): (cs: seq<Client>)
    requires forall i :: 0 <= i < |es| ==> es[i].value.Some?
    reads set i | 0 <= i < |es| :: es[i]
    ensures |cs| == |es| && forall i :: 0 <= i < |es| ==> es[i].value == Some(cs[i])
  {
    if es == [] then [] else ClientsBehind(es[..|es| - 1]) + [es[|es| - 1].value.value]
  }

  /** The clients behind the entries visited: all connected ones, each once. */
  lemma Recipients(d: Dictionary<Client>, connected: set<Client>) returns (cs: seq<Client>)
    requires d.Valid() && Registered(d.contents, connected)
    ensures d.shape.Node? && Covers(d.nodes, Preorder(d.shape)[1..], cs, connected)
  {
    assert d.shape.Node? && Preorder(d.shape) != [];
    hide Preorder, Dictionary.Valid, Registered, ClientsBehind;
    var es := Preorder(d.shape)[1..];
    forall i | 0 <= i < |es|
      ensures es[i] in d.nodes && es[i].value.Some? && es[i].value.value in connected
    {
      VisitedClient(d, connected, i);
    }
    cs := ClientsBehind(es);
    forall i, j | 0 <= i < j < |cs| ensures cs[i] != cs[j] { ClientsDiffer(d, connected, i, j); }
    forall c | c in connected ensures c in cs {
      var i := ClientVisited(d, connected, c);
      assert cs[i] == c;
    }
  }

  lemma ClientsDiffer(d: Dictionary<Client>, connected: set<Client>, i: nat, j: nat)
    requires d.Valid() && Registered(d.contents, connected) && i < j && j + 1 < |Preorder(d.shape)|
    ensures Preorder(d.shape)[i + 1].value != Preorder(d.shape)[j + 1].value
  {
    hide Preorder, Dictionary.Valid, Registered;
    VisitedClient(d, connected, i);
    VisitedClient(d, connected, j);
    VisitedOnce(d, i + 1, j + 1);
  }

  lemma ClientVisited(d: Dictionary<Client>, connected: set<Client>, c: Client) returns (i: nat)
    requires d.Valid() && Registered(d.contents, connected) && c in connected
    ensures i + 1 < |Preorder(d.shape)| && Preorder(d.shape)[i + 1].value == Some(c)
  {
    hide Preorder, Dictionary.Valid, Registered;
    NickRegistered(d.contents, connected, c);
    i := KeyVisited(d, c.nickname.value);
  }

  /** The nicknames of the recipients are the keys of the tree, in its order. */
  lemma NamesInOrder(d: Dictionary<Client>, connected: set<Client>, cs: seq<Client>)
    requires d.Valid() && Registered(d.contents, connected)
    requires d.shape.Node? && Covers(d.nodes, Preorder(d.shape)[1..], cs, connected)
    ensures Order(TreeOf(d.shape)) != [] && Nicknamed(cs, Order(TreeOf(d.shape))[1..])
  {
    PreorderKeys(d.shape);
    var es, names := Preorder(d.shape)[1..], Order(TreeOf(d.shape))[1..];
    hide Preorder, Order, TreeOf;
    forall i | 0 <= i < |cs| ensures cs[i].nickname == Some(names[i]) {
      assert es[i].key == names[i];
    }
  }

  /** The copy that ClientSetNickname trims. */
  method Normalize(nick: string) returns (nickname: string)
    requires NUL !in nick
    ensures nickname == Nick(nick) && (nickname == "" || IsNick(nickname))
  {
    var copy := new char[|nick| + 1](_ => NUL);
    forall i | 0 <= i < |nick| { copy[i] := nick[i]; }
    forall i | 0 <= i < |nick| ensures copy[..][i] != NUL { assert nick[i] in nick; }
    StrLenIs(copy[..], 0, |nick|);
    assert CStr(copy[..], 0) == nick;
    var p := StrTrim(copy, 0);
    nickname := CStr(copy[..], p);
    NickIsNick(nick);
  }
}
