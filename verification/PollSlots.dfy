/** What the two poll tables share: two parallel arrays read as one sequence of slots, the slots that are
    ready, and why counting ready slots may end a scan early. */
module PollSlots {
  type Fd = int
  /** A copied block. */
  type Block = int
  /** A bit mask, as the set of the bits that are set. */
  type Flags = set<nat>

  datatype PollFd = PollFd(fd: Fd, events: Flags, revents: nat)

  /** What memset leaves. */
  const ZERO_POLL := PollFd(0, {}, 0)

  datatype Slot<I> = Slot(poll: PollFd, info: I)

  function Zip<I>(polls: seq<PollFd>, infos: seq<I>): (r: seq<Slot<I>>)
    requires |polls| == |infos|
    ensures |r| == |polls| && forall i :: 0 <= i < |r| ==> r[i] == Slot(polls[i], infos[i])
  {
    seq(|polls|, i requires 0 <= i < |polls| => Slot(polls[i], infos[i]))
  }

  /** What poll() makes of the slots. */
  function Reported<I>(slots: seq<Slot<I>>, reported: seq<nat>): (r: seq<Slot<I>>)
    requires |reported| == |slots|
    ensures |r| == |slots|
    ensures forall i :: 0 <= i < |r| ==> r[i] == slots[i].(poll := slots[i].poll.(revents := reported[i]))
  {
    seq(|slots|, i requires 0 <= i < |slots| => slots[i].(poll := slots[i].poll.(revents := reported[i])))
  }

  predicate IsReady<I>(slot: Slot<I>) { slot.poll.revents > 0 }

  /** The slots with revents, in order. */
  function Ready<I>(slots: seq<Slot<I>>): seq<Slot<I>> {
    if slots == [] then []
    else
      var before, last := Ready(slots[..|slots| - 1]), slots[|slots| - 1];
      if IsReady(last) then before + [last] else before
  }

  lemma {:induction false} ReadyMember<I>(slots: seq<Slot<I>>, slot: Slot<I>)
    ensures slot in Ready(slots) <==> slot in slots && IsReady(slot)
  {
    if slots != [] {
      var front := slots[..|slots| - 1];
      ReadyMember(front, slot);
      assert slots == front + [slots[|slots| - 1]];
    }
  }

  lemma {:induction false} ReadyReplaced<I>(slots: seq<Slot<I>>, i: nat, slot: Slot<I>)
    requires i < |slots|
    ensures |Ready(slots[i := slot])| + (if IsReady(slots[i]) then 1 else 0) ==
            |Ready(slots)| + (if IsReady(slot) then 1 else 0)
  {
    var n := |slots| - 1;
    if i < n {
      ReadyReplaced(slots[..n], i, slot);
      assert slots[i := slot][..n] == slots[..n][i := slot];
    } else {
      assert slots[i := slot][..n] == slots[..n];
    }
  }

  lemma ReadyStart<I>(slots: seq<Slot<I>>)
    ensures Ready(slots[..0]) == []
  {
    assert slots[..0] == [];
  }

  lemma ReadyStep<I>(slots: seq<Slot<I>>, i: nat)
    requires i < |slots|
    ensures Ready(slots[..i + 1]) == if IsReady(slots[i]) then Ready(slots[..i]) + [slots[i]] else Ready(slots[..i])
  {
    assert slots[..i + 1][..i] == slots[..i];
  }

  /** The ready slots seen so far are the first of all, so that once there are as many there are no more. */
  lemma {:induction false} ReadyPrefix<I>(slots: seq<Slot<I>>, i: nat)
    requires i <= |slots|
    ensures Ready(slots[..i]) <= Ready(slots)
  {
    if i < |slots| {
      ReadyPrefix(slots[..|slots| - 1], i);
      assert slots[..|slots| - 1][..i] == slots[..i];
    } else {
      assert slots[..i] == slots;
    }
  }
}
