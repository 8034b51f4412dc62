/** How /list packs the nicknames into lines (chat/server/client.c): a buffer of 255 bytes, and a new line
    whenever the next name does not fit. */
module Listings {
  /** The characters a line may have, next to the terminator. */
  const ROOM: nat := 254

  function Item(name: string): string { "[" + name + "] " }

  /** All names on one line. */
  function Items(names: seq<string>): string {
    if names == [] then "" else Item(names[0]) + Items(names[1..])
  }

  /** The lines that come of the line begun and the names still to come. */
  function Lines(names: seq<string>, line: string): seq<string> {
    if names == [] then if line == "" then [] else [line]
    else if |line| + |Item(names[0])| > ROOM then [line] + Lines(names[1..], Item(names[0]))
    else Lines(names[1..], line + Item(names[0]))
  }

  /** What is written for them. */
  function Text(lines: seq<string>): string {
    if lines == [] then "" else lines[0] + "\n" + Text(lines[1..])
  }

  function Listing(names: seq<string>): string { Text(Lines(names, "")) }

  /** A name that fits into a line of its own. */
  predicate Fits(name: string) { |Item(name)| <= ROOM }

  predicate AllFit(names: seq<string>) { forall i :: 0 <= i < |names| ==> Fits(names[i]) }

  function Together(lines: seq<string>): string {
    if lines == [] then "" else lines[0] + Together(lines[1..])
  }

  /** Taken together the lines are all names in order, nothing dropped or repeated, and none is empty or
      longer than the buffer allows. */
  lemma {:induction false} LinesHoldAll(names: seq<string>, line: string)
    requires AllFit(names) && |line| <= ROOM
    ensures Together(Lines(names, line)) == line + Items(names)
    ensures forall i :: 0 <= i < |Lines(names, line)| ==> 0 < |Lines(names, line)[i]| <= ROOM
    decreases |names|
  {
    if names != [] {
      var rest, item := names[1..], Item(names[0]);
      assert Fits(names[0]);
      hide Item;
      if |line| + |item| > ROOM {
        LinesHoldAll(rest, item);
        assert ([line] + Lines(rest, item))[1..] == Lines(rest, item);
      } else {
        LinesHoldAll(rest, line + item);
        assert line + item + Items(rest) == line + (item + Items(rest));
      }
    }
  }

  /** The first name of the line after would have made the line before too long. */
  ghost predicate NoRoom(before: string, after: string, names: seq<string>) {
    exists name :: name in names && Item(name) <= after && |before| + |Item(name)| > ROOM
  }

  lemma NoRoomStill(before: string, after: string, names: seq<string>)
    requires names != [] && NoRoom(before, after, names[1..])
    ensures NoRoom(before, after, names)
  {}

  lemma {:induction false} FirstLine(names: seq<string>, line: string)
    requires line != ""
    ensures Lines(names, line) != [] && line <= Lines(names, line)[0]
    decreases |names|
  {
    if names != [] && |line| + |Item(names[0])| <= ROOM { FirstLine(names[1..], line + Item(names[0])); }
  }

  /** No line ends while the next name would still have fitted. */
  lemma {:induction false} LinesAreFull(names: seq<string>, line: string, i: nat)
    requires 0 < i < |Lines(names, line)|
    ensures NoRoom(Lines(names, line)[i - 1], Lines(names, line)[i], names)
    decreases |names|
  {
    hide NoRoom;
    if names != [] {
      var rest, item := names[1..], Item(names[0]);
      if |line| + |item| <= ROOM {
        LinesAreFull(rest, line + item, i);
        NoRoomStill(Lines(names, line)[i - 1], Lines(names, line)[i], names);
      } else if i > 1 {
        LinesAreFull(rest, item, i - 1);
        NoRoomStill(Lines(names, line)[i - 1], Lines(names, line)[i], names);
      } else {
        FirstLine(rest, item);
        NoRoomHere(line, Lines(rest, item)[0], names);
      }
    }
  }

  lemma NoRoomHere(before: string, after: string, names: seq<string>)
    requires names != [] && Item(names[0]) <= after && |before| + |Item(names[0])| > ROOM
    ensures NoRoom(before, after, names)
  {}

  /** One more name, when it fits: what is written now, and what is written of the line begun by it. */
  lemma OneMore(name: string, rest: seq<string>, line: string)
    requires Fits(name) && |line| <= ROOM
    ensures Text(Lines([name] + rest, line)) ==
      if |line| + |Item(name)| > ROOM then line + "\n" + Text(Lines(rest, Item(name)))
      else Text(Lines(rest, line + Item(name)))
  {
    assert ([name] + rest)[1..] == rest;
    if |line| + |Item(name)| > ROOM {
      assert ([line] + Lines(rest, Item(name)))[1..] == Lines(rest, Item(name));
    }
  }
}
