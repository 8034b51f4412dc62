/** A run of the chat server in which, with the stack's growth test as written, the greeting of the fifth
    client is the first broadcast that writes outside the stack's array. */
module Overrun {
  import opened Wrappers
  import opened KeyTrees
  import opened Dictionaries
  import opened ChatClients
  import opened Chat

  /** A client connects and gets the first default nickname. */
  method Land(server: Server) returns (c: Client, ghost inside: bool)
    requires server.Valid() && |server.connected| + 1 < UINT32_MAX && "Derp1" !in server.clients.contents
    modifies server`connected, server.clients, server.clients.nodes
    modifies server.connected`outBuffer, server.connected`outBufferLength, server.connected`outBufferFilled
    modifies Buffers(server.connected)
    ensures server.Valid() && fresh(server.clients.nodes - old(server.clients.nodes))
    ensures fresh(c) && server.connected == old(server.connected) + {c} && c.nickname == Some("Derp1")
    ensures fresh(Buffers(server.connected) - old(Buffers(server.connected)))
    ensures server.clients.contents == old(server.clients.contents)["Derp1" := Some(c)]
    ensures TreeOf(server.clients.shape) == Planted(old(TreeOf(server.clients.shape)), "Derp1")
    ensures inside <==> Peak(TreeOf(server.clients.shape)) <= 2
  {
    hide Dictionary.Valid, Registered, Separate, Outs, ToldAll, TreeOf, Planted, Peak;
    assert DefaultNick(1) == "Derp1";
    var i;
    c, i, inside := server.Connect();
    assert i == 1;
  }

  method TakeName(server: Server, c: Client, nick: string) returns (ghost inside: bool)
    requires server.Valid() && c in server.connected && c.nickname == Some("Derp1")
    requires IsNick(nick) && nick != "Derp1" && nick !in server.clients.contents
    modifies server`connected, server.clients, server.clients.nodes, c`nickname
    modifies server.connected`outBuffer, server.connected`outBufferLength, server.connected`outBufferFilled
    modifies Buffers(server.connected)
    ensures server.Valid() && fresh(server.clients.nodes - old(server.clients.nodes))
    ensures server.connected == old(server.connected)
    ensures fresh(Buffers(server.connected) - old(Buffers(server.connected)))
    ensures server.clients.contents == Renamed(old(server.clients.contents), Some("Derp1"), nick, c)
    ensures TreeOf(server.clients.shape) == Rekeyed(old(TreeOf(server.clients.shape)), Some("Derp1"), nick)
    ensures inside <==> Peak(TreeOf(server.clients.shape)) <= 2
  {
    hide Dictionary.Valid, Registered, Separate, Outs, ToldAll, NickTold, TreeOf, Rekeyed, Renamed, Peak;
    NickIsNick(nick);
    var ok;
    ok, inside := server.HandleNick(c, Some(nick));
  }

  /** Only the name the client takes in the end is left. */
  lemma OnlyFinalName(names: map<string, Option<Client>>, t: Tree, c: Client, nick: string)
    requires "Derp1" !in names && Missing(t, "Derp1")
    ensures Renamed(names["Derp1" := Some(c)], Some("Derp1"), nick, c).Keys == names.Keys + {nick}
    ensures Rekeyed(Planted(t, "Derp1"), Some("Derp1"), nick) == Planted(t, nick)
  {
    PlantedAndUprooted(t, "Derp1");
  }

  /** A client connects and takes a nickname; both are announced. */
  method Arrive(server: Server, nick: string) returns (ghost greeting: bool, ghost renaming: bool)
    requires server.Valid() && |server.connected| + 1 < UINT32_MAX
    requires IsNick(nick) && nick != "Derp1" && nick !in server.clients.contents
    requires "Derp1" !in server.clients.contents && Missing(TreeOf(server.clients.shape), "Derp1")
    modifies server`connected, server.clients, server.clients.nodes
    modifies server.connected`outBuffer, server.connected`outBufferLength, server.connected`outBufferFilled
    modifies Buffers(server.connected)
    ensures server.Valid() && fresh(server.clients.nodes - old(server.clients.nodes))
    ensures fresh(server.connected - old(server.connected))
    ensures fresh(Buffers(server.connected) - old(Buffers(server.connected)))
    ensures |server.connected| == |old(server.connected)| + 1
    ensures server.clients.contents.Keys == old(server.clients.contents).Keys + {nick}
    ensures TreeOf(server.clients.shape) == Planted(old(TreeOf(server.clients.shape)), nick)
    ensures greeting <==> Peak(Planted(old(TreeOf(server.clients.shape)), "Derp1")) <= 2
    ensures renaming <==> Peak(TreeOf(server.clients.shape)) <= 2
  {
    hide Server.Valid, IsNick, TreeOf, Planted, Missing, Rekeyed, Renamed, Peak;
    var c;
    c, greeting := Land(server);
    OnlyFinalName(old(server.clients.contents), old(TreeOf(server.clients.shape)), c, nick);
    renaming := TakeName(server, c, nick);
  }

  const NAMES := ["m", "z", "d", "f", "b"]

  function Single(key: string): Tree { Branch(Leaf, key, Leaf) }

  /** The trees the names make one after another. */
  function Stage(k: nat): Tree
    requires k <= 5
  {
    var f, b := if k < 4 then Leaf else Single("f"), if k < 5 then Leaf else Single("b");
    var right := if k < 3 then Leaf else Branch(f, "d", b);
    if k == 0 then SENTINEL else Branch(Branch(if k < 2 then Leaf else Single("z"), "m", right), "", Leaf)
  }

  lemma NextStage(k: nat)
    requires k < 5
    ensures Planted(Stage(k), NAMES[k]) == Stage(k + 1) && Missing(Stage(k), "Derp1")
  {}

  lemma FirstStage()
    ensures Stage(0) == SENTINEL && KeysAt(0) == {""}
  {}

  /** What Stage(k) becomes when the next client is greeted by its default nickname. */
  function Greeted(k: nat): Tree
    requires k < 5
  {
    var guest := Single("Derp1");
    var right := if k < 3 then guest else Branch(if k < 4 then Leaf else Single("f"), "d", guest);
    Branch(if k == 0 then guest else Branch(if k < 2 then Leaf else Single("z"), "m", right), "", Leaf)
  }

  lemma GreetedNext(k: nat)
    requires k < 5
    ensures Planted(Stage(k), "Derp1") == Greeted(k)
  {}

  lemma SinglePeak(key: string)
    ensures Peak(Single(key)) == 1 && Waiting(Single(key)) == 1
  {}

  lemma PeakOf(left: Tree, key: string, right: Tree)
    ensures Peak(Branch(left, key, right)) == Max(1, Max(Peak(left), Waiting(left) + Peak(right)))
    ensures Peak(Leaf) == 0
  {}

  /** Up to the fourth client never more than two entries wait; when the fifth is greeted three do. */
  lemma StagesPeak(k: nat)
    requires k < 5
    ensures Peak(Greeted(k)) <= 2 <==> k < 4
    ensures Peak(Stage(k + 1)) <= 2 <==> k < 4
  {
    hide Peak, Single;
    forall key { SinglePeak(key); }
    forall left, key, right { PeakOf(left, key, right); }
  }

  /** The keys of the registry when k clients have arrived. */
  function KeysAt(k: nat): set<string>
    requires k <= 5
  {
    {""} + set i | 0 <= i < k :: NAMES[i]
  }

  lemma NextKeys(k: nat)
    requires k < 5
    ensures IsNick(NAMES[k]) && NAMES[k] != "Derp1" && NAMES[k] !in KeysAt(k) && "Derp1" !in KeysAt(k)
    ensures KeysAt(k + 1) == KeysAt(k) + {NAMES[k]}
  {
    assert forall i :: 0 <= i < k ==> NAMES[i][0] != NAMES[k][0];
    assert "Derp1"[0] == 'D' && forall i :: 0 <= i < 5 ==> NAMES[i][0] != 'D';
  }

  /** Some of the clients m, z, d and f arrive, and all announcements stay inside the array. */
  method Gather(count: nat) returns (server: Server, ghost inside: bool)
    requires count <= 4
    ensures server.Valid() && TreeOf(server.clients.shape) == Stage(count)
    ensures fresh(server) && fresh(server.connected) && fresh(server.clients) && fresh(server.clients.nodes)
    ensures fresh(Buffers(server.connected))
    ensures |server.connected| == count && server.clients.contents.Keys == KeysAt(count) && inside
  {
    hide Dictionary.Valid, Registered, Separate, TreeOf, Stage, Greeted, KeysAt, Missing, Planted, Peak;
    FirstStage();
    server := new Server();
    inside := true;
    var k := 0;
    while k < count
      invariant 0 <= k <= count && server.Valid() && |server.connected| == k && inside
      invariant fresh(server) && fresh(server.connected) && fresh(server.clients) && fresh(server.clients.nodes)
      invariant fresh(Buffers(server.connected))
      invariant TreeOf(server.clients.shape) == Stage(k) && server.clients.contents.Keys == KeysAt(k)
    {
      NextStage(k);
      NextKeys(k);
      GreetedNext(k);
      StagesPeak(k);
      ghost var greeting, renaming := Arrive(server, NAMES[k]);
      inside := inside && greeting && renaming;
      k := k + 1;
    }
  }

  /** Clients named m, z, d and f, and a message: everything broadcast so far stays inside the array. The
      greeting of a fifth client does not, and neither do the news that it is called b and a message then. */
  method FiveClients() returns (ghost four: bool, ghost greeting: bool, ghost renaming: bool, ghost five: bool)
    ensures four && !greeting && !renaming && !five
  {
    hide Dictionary.Valid, Registered, Separate, TreeOf, Stage, Greeted, Peak, ToldAll, Outs, KeysAt, Missing, Planted;
    StagesPeak(3);
    StagesPeak(4);
    GreetedNext(4);
    NextStage(4);
    NextKeys(4);
    var server;
    server, four := Gather(4);
    ghost var message := server.SendChannelMessage("hello");
    four := four && message;
    greeting, renaming := Arrive(server, NAMES[4]);
    five := server.SendChannelMessage("hello");
  }
}
