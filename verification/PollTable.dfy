/** The poll table of webserver/net/poll.c: two parallel arrays, changed by queued updates and scanned
    after poll(). Block_release on a copied block and Release on a dispatch queue are recorded. */
module PollTable {
  import opened Wrappers
  import opened Finite
  import opened PollSlots

  datatype PollInfo = PollInfo(repeats: bool, queue: Option<int>, block: Option<Block>)

  const ZERO_INFO := PollInfo(false, None, None)

  /** An update without a block removes. */
  datatype Update = Update(poll: PollFd, info: PollInfo)

  type Entry = Slot<PollInfo>

  /** What the scan does for a ready slot: PollUnregister, and the block run or dispatched. */
  datatype Action = Unregister(fd: Fd) | Notify(fd: Fd, block: Option<Block>, revents: nat)

  // ----- What the array code computes -----

  function Index(slots: seq<Entry>, fd: Fd): (i: nat)
    ensures i <= |slots| && (forall j :: 0 <= j < i ==> slots[j].poll.fd != fd)
    ensures i < |slots| ==> slots[i].poll.fd == fd
  {
    if slots == [] || slots[0].poll.fd == fd then 0 else 1 + Index(slots[1..], fd)
  }

  /** The last slot takes the place of slot i. */
  function RemoveAt(slots: seq<Entry>, i: nat): seq<Entry>
    requires i < |slots|
  {
    slots[i := slots[|slots| - 1]][..|slots| - 1]
  }

  function ApplyTo(slots: seq<Entry>, u: Update): seq<Entry> {
    var i := Index(slots, u.poll.fd);
    if u.info.block.Some? then
      if i < |slots| then slots[i := Slot(u.poll, u.info)] else slots + [Slot(u.poll, u.info)]
    else if i < |slots| then RemoveAt(slots, i)
    else slots
  }

  /** The block an update makes the table let go of. */
  function LetGo(slots: seq<Entry>, u: Update): seq<Block> {
    var i := Index(slots, u.poll.fd);
    if i < |slots| && slots[i].info.block.Some? then [slots[i].info.block.value] else []
  }

  /** The reference to a dispatch queue that is released: overwriting does so, removal forgets it. */
  function LetGoQueue(slots: seq<Entry>, u: Update): seq<int> {
    var i := Index(slots, u.poll.fd);
    if u.info.block.Some? && i < |slots| && slots[i].info.queue.Some? then [slots[i].info.queue.value] else []
  }

  function ApplyAll(slots: seq<Entry>, us: seq<Update>): seq<Entry>
    decreases us
  {
    if us == [] then slots else ApplyAll(ApplyTo(slots, us[0]), us[1..])
  }

  function LetGoAll(slots: seq<Entry>, us: seq<Update>): seq<Block>
    decreases us
  {
    if us == [] then [] else LetGo(slots, us[0]) + LetGoAll(ApplyTo(slots, us[0]), us[1..])
  }

  function LetGoQueues(slots: seq<Entry>, us: seq<Update>): seq<int>
    decreases us
  {
    if us == [] then [] else LetGoQueue(slots, us[0]) + LetGoQueues(ApplyTo(slots, us[0]), us[1..])
  }

  /** What the scan does for one ready slot: it unregisters before it notifies. */
  function ActionsFor(slot: Entry): seq<Action> {
    (if slot.info.repeats then [] else [Unregister(slot.poll.fd)])
    + [Notify(slot.poll.fd, slot.info.block, slot.poll.revents)]
  }

  function Perform(ready: seq<Entry>): seq<Action> {
    if ready == [] then [] else Perform(ready[..|ready| - 1]) + ActionsFor(ready[|ready| - 1])
  }

  predicate DistinctFds(slots: seq<Entry>) {
    forall i, j :: 0 <= i < j < |slots| ==> slots[i].poll.fd != slots[j].poll.fd
  }

  /** Slots in use hold a block, the pipe's to repeat. */
  predicate Used(slots: seq<Entry>, pipe: Fd) {
    && (forall i :: 0 <= i < |slots| ==> slots[i].info.block.Some?)
    && (forall i :: 0 <= i < |slots| && slots[i].poll.fd == pipe ==> slots[i].info.repeats)
  }

  /** The sanity assertion of the scan: the pipe that wakes the poll thread is only ever registered, and
      to repeat. */
  predicate KeepsPipe(u: Update, pipe: Fd) { u.poll.fd == pipe ==> u.info.block.Some? && u.info.repeats }

  class Table {
    /** The read end of the wake-up pipe. */
    const pipe: Fd
    var polls: array<PollFd>
    var pollInfos: array<PollInfo>
    var numOfPolls: nat
    var numOfSlots: nat
    /** The blocks released so far. */
    var released: seq<Block>
    /** The references to dispatch queues released so far. */
    var releasedQueues: seq<int>

    /** The arrays are aligned and zero where no slot is in use. */
    ghost predicate Aligned()
      reads this`polls, this`pollInfos, this`numOfPolls, this`numOfSlots, polls, pollInfos
    {
      && polls.Length == pollInfos.Length == numOfSlots
      && 0 < numOfSlots && numOfPolls <= numOfSlots
      && (forall i :: numOfPolls <= i < numOfSlots ==> polls[i] == ZERO_POLL && pollInfos[i] == ZERO_INFO)
    }

    ghost predicate Valid()
      reads this`polls, this`pollInfos, this`numOfPolls, this`numOfSlots, polls, pollInfos
    {
      Aligned() && Used(Slots(), pipe) && DistinctFds(Slots())
    }

    ghost function Slots(): (r: seq<Entry>)
      reads this`polls, this`pollInfos, this`numOfPolls, polls, pollInfos
      requires polls.Length == pollInfos.Length && numOfPolls <= polls.Length
      ensures |r| == numOfPolls && forall i :: 0 <= i < numOfPolls ==> r[i] == Slot(polls[i], pollInfos[i])
    {
      Zip(polls[..numOfPolls], pollInfos[..numOfPolls])
    }

    constructor (pipe: Fd)
      ensures Valid() && fresh(polls) && fresh(pollInfos) && this.pipe == pipe && Slots() == []
      ensures released == [] && releasedQueues == []
    {
      this.pipe, numOfSlots, numOfPolls, released, releasedQueues := pipe, 10, 0, [], [];
      polls := new PollFd[10](_ => ZERO_POLL);
      pollInfos := new PollInfo[10](_ => ZERO_INFO);
    }

    method Find(fd: Fd) returns (found: nat)
      requires Valid()
      ensures found == Index(Slots(), fd)
    {
      found := 0;
      while found < numOfPolls && polls[found].fd != fd
        invariant found <= numOfPolls && forall j :: 0 <= j < found ==> polls[j].fd != fd
      {
        found := found + 1;
      }
      IndexIs(Slots(), fd, found);
    }

    /** realloc and memset of the new slots. */
    method Expand()
      requires Aligned()
      modifies this
      ensures Aligned() && fresh(polls) && fresh(pollInfos) && Slots() == old(Slots())
      ensures released == old(released) && releasedQueues == old(releasedQueues)
      ensures numOfPolls == old(numOfPolls) && numOfSlots == 2 * old(numOfSlots)
    {
      var polls', pollInfos' := new PollFd[2 * numOfSlots](_ => ZERO_POLL),
        new PollInfo[2 * numOfSlots](_ => ZERO_INFO);
      forall i | 0 <= i < numOfSlots { polls'[i] := polls[i]; }
      forall i | 0 <= i < numOfSlots { pollInfos'[i] := pollInfos[i]; }
      polls, pollInfos, numOfSlots := polls', pollInfos', 2 * numOfSlots;
      assert Slots() == old(Slots());
    }

    /** Writing slot i of both arrays, a slot in use or the first free one. */
    method Store(i: nat, poll: PollFd, info: PollInfo)
      requires Aligned() && i <= numOfPolls && i < numOfSlots
      modifies this`numOfPolls, polls, pollInfos
      ensures Aligned()
      ensures
        Slots() ==
          if i < |old(Slots())| then old(Slots())[i := Slot(poll, info)] else old(Slots()) + [Slot(poll, info)]
    {
      polls[i], pollInfos[i] := poll, info;
      if i == numOfPolls { numOfPolls := numOfPolls + 1; }
    }

    /** The add/update branch: overwrite the descriptor's slot, or take the first free one. */
    method Put(u: Update)
      requires Valid() && u.info.block.Some? && KeepsPipe(u, pipe)
      modifies this, polls, pollInfos
      ensures Valid() && Slots() == ApplyTo(old(Slots()), u)
      ensures released == old(released) + LetGo(old(Slots()), u)
      ensures releasedQueues == old(releasedQueues) + LetGoQueue(old(Slots()), u)
      ensures (polls == old(polls) && pollInfos == old(pollInfos)) || (fresh(polls) && fresh(pollInfos))
    {
      hide DistinctFds, Used, Index;
      ghost var was := Slots();
      var found := Find(u.poll.fd);
      if found >= numOfSlots { Expand(); }
      assert found == numOfPolls ==> pollInfos[found] == ZERO_INFO;
      if pollInfos[found].block.Some? { released := released + [pollInfos[found].block.value]; }
      if pollInfos[found].queue.Some? { releasedQueues := releasedQueues + [pollInfos[found].queue.value]; }
      assert Slots() == was;
      Store(found, u.poll, u.info);
      DistinctKept(was, u);
      UsedKept(was, u, pipe);
    }

    /** The last slot moves into the gap, and its old place is cleared. */
    method Clear(i: nat)
      requires Aligned() && i < numOfPolls
      modifies this`numOfPolls, polls, pollInfos
      ensures Aligned() && Slots() == RemoveAt(old(Slots()), i)
    {
      var last := numOfPolls - 1;
      if i != last { polls[i], pollInfos[i] := polls[last], pollInfos[last]; }
      polls[last], pollInfos[last] := ZERO_POLL, ZERO_INFO;
      numOfPolls := last;
    }

    /** The remove branch. */
    method Take(u: Update)
      requires Valid() && u.info.block == None
      modifies this, polls, pollInfos
      ensures Valid() && Slots() == ApplyTo(old(Slots()), u)
      ensures released == old(released) + LetGo(old(Slots()), u) && releasedQueues == old(releasedQueues)
      ensures polls == old(polls) && pollInfos == old(pollInfos)
    {
      hide DistinctFds, RemoveAt;
      ghost var was := Slots();
      var i := Find(u.poll.fd);
      if i < numOfPolls {
        released := released + [pollInfos[i].block.value];
        Clear(i);
      }
      DistinctKept(was, u);
      UsedKept(was, u, pipe);
    }

    /** One queued update. */
    method Apply(u: Update)
      requires Valid() && KeepsPipe(u, pipe)
      modifies this, polls, pollInfos
      ensures Valid() && Slots() == ApplyTo(old(Slots()), u)
      ensures released == old(released) + LetGo(old(Slots()), u)
      ensures releasedQueues == old(releasedQueues) + LetGoQueue(old(Slots()), u)
      ensures (polls == old(polls) && pollInfos == old(pollInfos)) || (fresh(polls) && fresh(pollInfos))
    {
      hide ApplyTo, LetGo, DistinctFds, Valid, Slots;
      if u.info.block.Some? { Put(u); } else { Take(u); }
    }

    /** The drain loop of PollApplyUpdates, on what it drains. */
    method ApplyUpdates(us: seq<Update>)
      requires Valid() && forall i :: 0 <= i < |us| ==> KeepsPipe(us[i], pipe)
      modifies this, polls, pollInfos
      ensures Valid() && Slots() == ApplyAll(old(Slots()), us)
      ensures released == old(released) + LetGoAll(old(Slots()), us)
      ensures releasedQueues == old(releasedQueues) + LetGoQueues(old(Slots()), us)
      ensures (polls == old(polls) && pollInfos == old(pollInfos)) || (fresh(polls) && fresh(pollInfos))
    {
      hide ApplyTo, LetGo, LetGoQueue, DistinctFds;
      var k := 0;
      while k < |us|
        invariant 0 <= k <= |us| && Valid()
        invariant ApplyAll(Slots(), us[k..]) == ApplyAll(old(Slots()), us)
        invariant released + LetGoAll(Slots(), us[k..]) == old(released) + LetGoAll(old(Slots()), us)
        invariant releasedQueues + LetGoQueues(Slots(), us[k..]) == old(releasedQueues) + LetGoQueues(old(Slots()), us)
        invariant (polls == old(polls) && pollInfos == old(pollInfos)) || (fresh(polls) && fresh(pollInfos))
      {
        assert us[k..][1..] == us[k + 1..] && us[k..][0] == us[k];
        Apply(us[k]);
        k := k + 1;
      }
    }

    /** poll(): the kernel sets every revents and returns how many are not zero. */
    method Poll(reported: seq<nat>) returns (ready: nat)
      requires Valid() && |reported| == numOfPolls
      modifies polls
      ensures Valid() && ready == |Ready(Slots())|
      ensures Slots() == Reported(old(Slots()), reported)
    {
      hide Ready, DistinctFds;
      ghost var was := Slots();
      forall i | 0 <= i < numOfPolls { polls[i] := polls[i].(revents := reported[i]); }
      assert forall i :: 0 <= i < numOfPolls ==> Slots()[i] == was[i].(poll := was[i].poll.(revents := reported[i]));
      assert Slots() == Reported(was, reported);
      ReportedDistinct(was, reported);
      ready := Count();
    }

    method Count() returns (ready: nat)
      requires Valid()
      ensures ready == |Ready(Slots())|
    {
      hide Ready, DistinctFds;
      ready := 0;
      ReadyStart(Slots());
      for i := 0 to numOfPolls
        invariant ready == |Ready(Slots()[..i])|
      {
        ReadyStep(Slots(), i);
        if polls[i].revents > 0 { ready := ready + 1; }
      }
      assert Slots()[..numOfPolls] == Slots();
    }

    /** The scan with its early exit, given at least as many to handle as there are ready slots. */
    method Scan(socksToHandle: nat) returns (actions: seq<Action>)
      requires Valid() && |Ready(Slots())| <= socksToHandle
      ensures actions == Perform(Ready(Slots()))
    {
      hide Ready, DistinctFds;
      ghost var slots := Slots();
      var left, i := socksToHandle, 0;
      actions := [];
      ReadyStart(slots);
      while i < numOfPolls && left > 0
        invariant 0 <= i <= numOfPolls && left == socksToHandle - |Ready(slots[..i])|
        invariant actions == Perform(Ready(slots[..i]))
      {
        ReadyStep(slots, i);
        if polls[i].revents > 0 {
          PerformStep(Ready(slots[..i]), slots[i]);
          left := left - 1;
          if !pollInfos[i].repeats {
            assert polls[i].fd != pipe;
            actions := actions + [Unregister(polls[i].fd)];
          }
          actions := actions + [Notify(polls[i].fd, pollInfos[i].block, polls[i].revents)];
        }
        i := i + 1;
      }
      ReadyPrefix(slots, i);
      assert slots[..|slots|] == slots;
      assert Ready(slots[..i]) == Ready(slots);
    }

    /** One round of PollThread after its first PollApplyUpdates: poll(), the updates that came in
        meanwhile, and the scan. */
    method Round(reported: seq<nat>, us: seq<Update>) returns (actions: seq<Action>)
      requires Valid() && |reported| == numOfPolls
      requires forall i :: 0 <= i < |us| ==> KeepsPipe(us[i], pipe) && us[i].poll.revents == 0
      modifies this, polls, pollInfos
      ensures Valid() && actions == Perform(Ready(ApplyAll(Reported(old(Slots()), reported), us)))
    {
      var socksToHandle := Poll(reported);
      ghost var slots := Slots();
      ApplyUpdates(us);
      ReadyNeverGrows(slots, us);
      actions := Scan(socksToHandle);
    }
  }

  // ----- Properties -----

  lemma ReportedDistinct(slots: seq<Entry>, reported: seq<nat>)
    requires |reported| == |slots| && DistinctFds(slots)
    ensures DistinctFds(Reported(slots, reported))
  {}

  lemma IndexIs(slots: seq<Entry>, fd: Fd, i: nat)
    requires i <= |slots| && (forall j :: 0 <= j < i ==> slots[j].poll.fd != fd)
    requires i < |slots| ==> slots[i].poll.fd == fd
    ensures Index(slots, fd) == i
  {}

  lemma DistinctKept(slots: seq<Entry>, u: Update)
    requires DistinctFds(slots)
    ensures DistinctFds(ApplyTo(slots, u))
  {}

  lemma UsedKept(slots: seq<Entry>, u: Update, pipe: Fd)
    requires Used(slots, pipe) && (u.info.block.Some? ==> KeepsPipe(u, pipe))
    ensures Used(ApplyTo(slots, u), pipe)
  {}

  /** Updates carry no revents, so applying them never adds a ready slot. */
  lemma {:induction false} ReadyNeverGrows(slots: seq<Entry>, us: seq<Update>)
    requires forall i :: 0 <= i < |us| ==> us[i].poll.revents == 0
    ensures |Ready(ApplyAll(slots, us))| <= |Ready(slots)|
    decreases us
  {
    if us != [] {
      NoneReadied(slots, us[0]);
      ReadyNeverGrows(ApplyTo(slots, us[0]), us[1..]);
    }
  }

  lemma NoneReadied(slots: seq<Entry>, u: Update)
    requires u.poll.revents == 0
    ensures |Ready(ApplyTo(slots, u))| <= |Ready(slots)|
  {
    var i, n := Index(slots, u.poll.fd), |slots| - 1;
    if i < |slots| {
      ReadyReplaced(slots, i, if u.info.block.Some? then Slot(u.poll, u.info) else slots[n]);
    } else {
      assert (slots + [Slot(u.poll, u.info)])[..|slots|] == slots;
    }
  }

  lemma PerformStep(ready: seq<Entry>, slot: Entry)
    ensures Perform(ready + [slot]) == Perform(ready) + ActionsFor(slot)
  {
    assert (ready + [slot])[..|ready|] == ready;
  }

  /** The slots as a map from descriptors. */
  function MapOf(slots: seq<Entry>): map<Fd, Entry> {
    map fd | fd in (set i | 0 <= i < |slots| :: slots[i].poll.fd) && Index(slots, fd) < |slots|
      :: slots[Index(slots, fd)]
  }

  lemma MapOfAt(slots: seq<Entry>, fd: Fd)
    ensures fd in MapOf(slots) <==> Index(slots, fd) < |slots|
    ensures fd in MapOf(slots) ==> MapOf(slots)[fd] == slots[Index(slots, fd)]
  {
    var i := Index(slots, fd);
    if i < |slots| { assert slots[i].poll.fd in (set k | 0 <= k < |slots| :: slots[k].poll.fd); }
  }

  /** The map with the updates folded in, first to last. */
  function FoldMap(m: map<Fd, Entry>, us: seq<Update>): map<Fd, Entry>
    decreases us
  {
    if us == [] then m
    else
      var u := us[0];
      FoldMap(if u.info.block.Some? then m[u.poll.fd := Slot(u.poll, u.info)] else m - {u.poll.fd}, us[1..])
  }

  /** With distinct descriptors the array code computes the fold over the map. */
  lemma {:induction false} ApplyRefinesFold(slots: seq<Entry>, us: seq<Update>)
    requires DistinctFds(slots)
    ensures DistinctFds(ApplyAll(slots, us)) && MapOf(ApplyAll(slots, us)) == FoldMap(MapOf(slots), us)
    decreases us
  {
    if us != [] {
      DistinctKept(slots, us[0]);
      ApplyRefines(slots, us[0]);
      ApplyRefinesFold(ApplyTo(slots, us[0]), us[1..]);
    }
  }

  lemma ApplyRefines(slots: seq<Entry>, u: Update)
    requires DistinctFds(slots)
    ensures MapOf(ApplyTo(slots, u)) ==
      if u.info.block.Some? then MapOf(slots)[u.poll.fd := Slot(u.poll, u.info)] else MapOf(slots) - {u.poll.fd}
  {
    DistinctKept(slots, u);
    var after, m := ApplyTo(slots, u), MapOf(ApplyTo(slots, u));
    var m' :=
      if u.info.block.Some? then MapOf(slots)[u.poll.fd := Slot(u.poll, u.info)] else MapOf(slots) - {u.poll.fd};
    forall fd ensures (fd in m <==> fd in m') && (fd in m ==> m[fd] == m'[fd]) {
      MapOfAt(slots, fd);
      MapOfAt(after, fd);
      LookupAfter(slots, u, fd);
    }
    assert m.Keys == m'.Keys;
  }

  lemma LookupAfter(slots: seq<Entry>, u: Update, fd: Fd)
    requires DistinctFds(slots)
    ensures var after, k := ApplyTo(slots, u), Index(ApplyTo(slots, u), fd);
      if fd == u.poll.fd then
        if u.info.block.Some? then k < |after| && after[k] == Slot(u.poll, u.info) else k == |after|
      else if Index(slots, fd) < |slots| then k < |after| && after[k] == slots[Index(slots, fd)]
      else k == |after|
  {
    var i, j, n := Index(slots, u.poll.fd), Index(slots, fd), |slots| - 1;
    DistinctKept(slots, u);
    var after := ApplyTo(slots, u);
    if fd == u.poll.fd {
      if u.info.block.Some? { IndexIs(after, fd, i); } else { IndexIs(after, fd, |after|); }
    } else {
      IndexIs(after, fd, if j > n then |after| else if j == n && u.info.block == None && i <= n then i else j);
    }
  }

  // ----- Blocks -----

  /** How many slots hold block b. */
  function Holding(slots: seq<Entry>, b: Block): nat {
    if slots == [] then 0 else Holding(slots[..|slots| - 1], b) + Bit(slots[|slots| - 1].info.block == Some(b))
  }

  /** How many updates bring block b into the table. */
  function Adopted(us: seq<Update>, b: Block): nat {
    if us == [] then 0 else Bit(us[0].info.block == Some(b)) + Adopted(us[1..], b)
  }

  lemma {:induction false} HoldingReplaced(slots: seq<Entry>, i: nat, slot: Entry, b: Block)
    requires i < |slots|
    ensures Holding(slots[i := slot], b) + Bit(slots[i].info.block == Some(b)) ==
            Holding(slots, b) + Bit(slot.info.block == Some(b))
  {
    var n := |slots| - 1;
    if i < n {
      HoldingReplaced(slots[..n], i, slot, b);
      assert slots[i := slot][..n] == slots[..n][i := slot];
    } else {
      assert slots[i := slot][..n] == slots[..n];
    }
  }

  /** Every block that came in is still in the table or has been released, each copy once. */
  lemma {:induction false} BlocksConserved(slots: seq<Entry>, us: seq<Update>, b: Block)
    ensures multiset(LetGoAll(slots, us))[b] + Holding(ApplyAll(slots, us), b) == Holding(slots, b) + Adopted(us, b)
    decreases us
  {
    if us != [] {
      BlocksStep(slots, us[0], b);
      BlocksConserved(ApplyTo(slots, us[0]), us[1..], b);
    }
  }

  lemma BlocksStep(slots: seq<Entry>, u: Update, b: Block)
    ensures multiset(LetGo(slots, u))[b] + Holding(ApplyTo(slots, u), b) ==
            Holding(slots, b) + Bit(u.info.block == Some(b))
  {
    var i, n := Index(slots, u.poll.fd), |slots| - 1;
    if i < |slots| {
      if u.info.block.Some? {
        HoldingReplaced(slots, i, Slot(u.poll, u.info), b);
      } else {
        HoldingReplaced(slots, i, slots[n], b);
      }
    } else {
      assert (slots + [Slot(u.poll, u.info)])[..|slots|] == slots;
    }
  }

  // ----- What a round notifies -----

  lemma {:induction false} PerformSource(ready: seq<Entry>, a: Action) returns (i: nat)
    requires a in Perform(ready)
    ensures i < |ready| && a in ActionsFor(ready[i])
  {
    hide ActionsFor;
    var n := |ready| - 1;
    if a in ActionsFor(ready[n]) { i := n; } else { i := PerformSource(ready[..n], a); }
  }

  lemma {:induction false} PerformHas(ready: seq<Entry>, i: nat, a: Action)
    requires i < |ready| && a in ActionsFor(ready[i])
    ensures a in Perform(ready)
  {
    hide ActionsFor;
    if i < |ready| - 1 { PerformHas(ready[..|ready| - 1], i, a); }
  }

  /** The scan's notifications are those of the ready slots in the table. */
  lemma NotifiesReady(slots: seq<Entry>, fd: Fd, b: Option<Block>, r: nat)
    requires DistinctFds(slots)
    ensures var i := Index(slots, fd);
      Notify(fd, b, r) in Perform(Ready(slots)) <==>
        i < |slots| && slots[i].info.block == b && slots[i].poll.revents == r > 0
  {
    var ready, a := Ready(slots), Notify(fd, b, r);
    if a in Perform(ready) {
      var k := PerformSource(ready, a);
      ReadyMember(slots, ready[k]);
      var j: nat :| j < |slots| && slots[j] == ready[k];
      IndexIs(slots, fd, j);
    }
    var i := Index(slots, fd);
    if i < |slots| && slots[i].info.block == b && slots[i].poll.revents == r > 0 {
      ReadyMember(slots, slots[i]);
      var k: nat :| k < |ready| && ready[k] == slots[i];
      PerformHas(ready, k, a);
    }
  }

  lemma {:induction false} ReadyDistinct(slots: seq<Entry>)
    requires DistinctFds(slots)
    ensures DistinctFds(Ready(slots))
  {
    if slots != [] {
      var n := |slots| - 1;
      ReadyDistinct(slots[..n]);
      forall k | 0 <= k < |Ready(slots[..n])| ensures Ready(slots[..n])[k].poll.fd != slots[n].poll.fd {
        ReadyMember(slots[..n], Ready(slots[..n])[k]);
      }
    }
  }

  /** No action is done twice, as the descriptors are distinct. */
  lemma {:induction false} PerformedOnce(ready: seq<Entry>)
    requires DistinctFds(ready)
    ensures forall i, j :: 0 <= i < j < |Perform(ready)| ==> Perform(ready)[i] != Perform(ready)[j]
  {
    if ready != [] {
      var n := |ready| - 1;
      var front, last := Perform(ready[..n]), ActionsFor(ready[n]);
      PerformedOnce(ready[..n]);
      assert last[0] != last[|last| - 1] || |last| == 1;
      assert forall j :: 0 <= j < |last| ==> last[j].fd == ready[n].poll.fd;
      forall i | 0 <= i < |front| ensures front[i].fd != ready[n].poll.fd {
        var k := PerformSource(ready[..n], front[i]);
      }
    }
  }

  lemma ScanOnce(slots: seq<Entry>)
    requires DistinctFds(slots)
    ensures var actions := Perform(Ready(slots)); forall i, j :: 0 <= i < j < |actions| ==> actions[i] != actions[j]
  {
    ReadyDistinct(slots);
    PerformedOnce(Ready(slots));
  }

  /** A round notifies precisely the entries that poll() reported ready and that no update removed or
      replaced meanwhile: the early exit skips none, and nothing stale is notified. */
  lemma {:induction false} RoundNotifies(slots: seq<Entry>, reported: seq<nat>, us: seq<Update>, fd: Fd,
                                         b: Option<Block>, r: nat)
    requires DistinctFds(slots) && |reported| == |slots|
    requires forall k :: 0 <= k < |us| ==> us[k].poll.revents == 0
    ensures
      Notify(fd, b, r) in Perform(Ready(ApplyAll(Reported(slots, reported), us))) <==>
      r > 0 && (forall k :: 0 <= k < |us| ==> us[k].poll.fd != fd) &&
      exists i :: 0 <= i < |slots| && slots[i].poll.fd == fd && slots[i].info.block == b && reported[i] == r
  {
    var after := Reported(slots, reported);
    var last := ApplyAll(after, us);
    ApplyRefinesFold(after, us);
    NotifiesReady(last, fd, b, r);
    var m, i := MapOf(after), Index(slots, fd);
    FoldLookup(m, us, fd);
    MapOfAt(last, fd);
    assert Notify(fd, b, r) in Perform(Ready(last)) <==>
      fd in FoldMap(m, us) && FoldMap(m, us)[fd].info.block == b && FoldMap(m, us)[fd].poll.revents == r > 0;
    MapOfAt(after, fd);
    IndexIs(after, fd, i);
    assert fd in m <==> i < |slots|;
    assert fd in m ==> m[fd].info == slots[i].info && m[fd].poll.revents == reported[i];
    hide FoldMap, MapOf, Ready, Perform, ApplyAll;
    assert forall k :: 0 <= k < |slots| && slots[k].poll.fd == fd ==> k == i;
  }

  /** A descriptor no update mentions keeps its slot; any other ends up absent or not ready. */
  lemma {:induction false} FoldLookup(m: map<Fd, Entry>, us: seq<Update>, fd: Fd)
    requires forall k :: 0 <= k < |us| ==> us[k].poll.revents == 0
    ensures (forall k :: 0 <= k < |us| ==> us[k].poll.fd != fd) ==>
              (fd in FoldMap(m, us) <==> fd in m) && (fd in m ==> FoldMap(m, us)[fd] == m[fd])
    ensures (exists k :: 0 <= k < |us| && us[k].poll.fd == fd) && fd in FoldMap(m, us) ==>
              FoldMap(m, us)[fd].poll.revents == 0
    decreases us
  {
    if us != [] {
      var u := us[0];
      var m' := if u.info.block.Some? then m[u.poll.fd := Slot(u.poll, u.info)] else m - {u.poll.fd};
      FoldLookup(m', us[1..], fd);
      assert forall k :: 0 < k < |us| ==> us[k] == us[1..][k - 1];
    }
  }

  // ----- What a scan unregisters -----

  /** Ready, and to be notified once only. */
  predicate FiresOnce(slot: Entry) { slot.poll.revents > 0 && !slot.info.repeats }

  /** What is done for ready slots: those that fire once are unregistered, and right before they are notified. */
  lemma {:induction false} PerformedUnregisters(ready: seq<Entry>, fd: Fd)
    ensures Unregister(fd) in Perform(ready) <==>
      exists i :: 0 <= i < |ready| && ready[i].poll.fd == fd && !ready[i].info.repeats
  {
    if ready != [] {
      var n := |ready| - 1;
      PerformedUnregisters(ready[..n], fd);
      var front, last := Perform(ready[..n]), ActionsFor(ready[n]);
      assert Unregister(fd) in last <==> ready[n].poll.fd == fd && !ready[n].info.repeats;
      assert forall i :: 0 <= i < n ==> ready[i] == ready[..n][i];
      assert Unregister(fd) in Perform(ready) <==> Unregister(fd) in front || Unregister(fd) in last;
    }
  }

  lemma {:induction false} PerformedBehind(ready: seq<Entry>, k: nat)
    requires k < |Perform(ready)| && Perform(ready)[k].Notify?
    requires forall i :: 0 <= i < |ready| && ready[i].poll.fd == Perform(ready)[k].fd ==> !ready[i].info.repeats
    ensures k > 0 && Perform(ready)[k - 1] == Unregister(Perform(ready)[k].fd)
  {
    var n := |ready| - 1;
    var front, last := Perform(ready[..n]), ActionsFor(ready[n]);
    if k < |front| {
      assert forall i :: 0 <= i < n ==> ready[i] == ready[..n][i];
      PerformedBehind(ready[..n], k);
    } else {
      assert Perform(ready)[k] == last[k - |front|];
      assert last[k - |front|].fd == ready[n].poll.fd;
    }
  }

  /** The scan unregisters precisely the ready slots that do not repeat. */
  lemma ScanUnregisters(slots: seq<Entry>, fd: Fd)
    ensures Unregister(fd) in Perform(Ready(slots)) <==>
      exists i :: 0 <= i < |slots| && slots[i].poll.fd == fd && FiresOnce(slots[i])
  {
    hide Perform, Ready;
    var ready := Ready(slots);
    PerformedUnregisters(ready, fd);
    if i: nat :| i < |ready| && ready[i].poll.fd == fd && !ready[i].info.repeats {
      ReadyMember(slots, ready[i]);
      var j: nat :| j < |slots| && slots[j] == ready[i];
      assert FiresOnce(slots[j]);
    }
    if i: nat :| i < |slots| && slots[i].poll.fd == fd && FiresOnce(slots[i]) {
      ReadyMember(slots, slots[i]);
      var j: nat :| j < |ready| && ready[j] == slots[i];
      assert ready[j].poll.fd == fd && !ready[j].info.repeats;
    }
  }

  /** And each of them directly before it is notified, so that its callback may register it again. */
  lemma UnregistersFirst(slots: seq<Entry>, i: nat, k: nat)
    requires DistinctFds(slots) && i < |slots| && FiresOnce(slots[i])
    requires k < |Perform(Ready(slots))| && Perform(Ready(slots))[k].Notify?
    requires Perform(Ready(slots))[k].fd == slots[i].poll.fd
    ensures k > 0 && Perform(Ready(slots))[k - 1] == Unregister(slots[i].poll.fd)
  {
    hide Perform, Ready;
    var ready := Ready(slots);
    forall j | 0 <= j < |ready| && ready[j].poll.fd == slots[i].poll.fd ensures !ready[j].info.repeats {
      ReadyMember(slots, ready[j]);
    }
    PerformedBehind(ready, k);
  }

  /** Where fd's slot is after the updates of a round, and what it says: unless an update mentions fd that is
      what it was and what poll() reported. */
  lemma RoundSlot(slots: seq<Entry>, reported: seq<nat>, us: seq<Update>, fd: Fd)
    requires DistinctFds(slots) && |reported| == |slots|
    requires forall k :: 0 <= k < |us| ==> us[k].poll.revents == 0
    ensures var last, i := ApplyAll(Reported(slots, reported), us), Index(slots, fd);
      var j := Index(last, fd);
      && DistinctFds(last)
      && (if forall k :: 0 <= k < |us| ==> us[k].poll.fd != fd
          then (j < |last| <==> i < |slots|)
            && (j < |last| ==> last[j].info == slots[i].info && last[j].poll.revents == reported[i])
          else j < |last| ==> last[j].poll.revents == 0)
  {
    hide FoldMap, MapOf, ApplyAll, Index;
    var after := Reported(slots, reported);
    ReportedDistinct(slots, reported);
    ApplyRefinesFold(after, us);
    FoldLookup(MapOf(after), us, fd);
    MapOfAt(ApplyAll(after, us), fd);
    MapOfAt(after, fd);
    IndexIs(after, fd, Index(slots, fd));
  }

  lemma AtIndex(slots: seq<Entry>, fd: Fd)
    requires DistinctFds(slots)
    ensures forall i :: 0 <= i < |slots| && slots[i].poll.fd == fd ==> i == Index(slots, fd)
  {}

  /** A round unregisters precisely the entries that do not repeat, were reported ready, and that no update
      removed or replaced meanwhile; and each of them directly before it is notified. */
  lemma RoundUnregisters(slots: seq<Entry>, reported: seq<nat>, us: seq<Update>, fd: Fd)
    requires DistinctFds(slots) && |reported| == |slots|
    requires forall k :: 0 <= k < |us| ==> us[k].poll.revents == 0
    ensures var actions := Perform(Ready(ApplyAll(Reported(slots, reported), us)));
      && (Unregister(fd) in actions <==>
            (forall k :: 0 <= k < |us| ==> us[k].poll.fd != fd) &&
            exists i :: 0 <= i < |slots| && slots[i].poll.fd == fd && reported[i] > 0 && !slots[i].info.repeats)
      && (Unregister(fd) in actions ==>
            forall k :: 0 <= k < |actions| && actions[k].Notify? && actions[k].fd == fd ==>
              k > 0 && actions[k - 1] == Unregister(fd))
  {
    hide ApplyAll, Perform, Ready;
    var last := ApplyAll(Reported(slots, reported), us);
    RoundSlot(slots, reported, us, fd);
    ScanUnregisters(last, fd);
    AtIndex(slots, fd);
    AtIndex(last, fd);
    hide DistinctFds, Index;
    var actions := Perform(Ready(last));
    forall k | Unregister(fd) in actions && 0 <= k < |actions| && actions[k].Notify? && actions[k].fd == fd
      ensures k > 0 && actions[k - 1] == Unregister(fd)
    {
      UnregistersFirst(last, Index(last, fd), k);
    }
  }

  // ----- Dispatch queues -----

  /** How many slots refer to dispatch queue q. */
  function Referring(slots: seq<Entry>, q: int): nat {
    if slots == [] then 0 else Referring(slots[..|slots| - 1], q) + Bit(slots[|slots| - 1].info.queue == Some(q))
  }

  /** How many updates bring a reference to q into the table. */
  function Brought(us: seq<Update>, q: int): nat {
    if us == [] then 0 else Bit(us[0].info.block.Some? && us[0].info.queue == Some(q)) + Brought(us[1..], q)
  }

  /** How many references to q go with entries that are removed. */
  function Forgotten(slots: seq<Entry>, us: seq<Update>, q: int): nat
    decreases us
  {
    if us == [] then 0
    else
      var i := Index(slots, us[0].poll.fd);
      Bit(us[0].info.block.None? && i < |slots| && slots[i].info.queue == Some(q))
      + Forgotten(ApplyTo(slots, us[0]), us[1..], q)
  }

  lemma {:induction false} ReferringReplaced(slots: seq<Entry>, i: nat, slot: Entry, q: int)
    requires i < |slots|
    ensures Referring(slots[i := slot], q) + Bit(slots[i].info.queue == Some(q)) ==
            Referring(slots, q) + Bit(slot.info.queue == Some(q))
  {
    var n := |slots| - 1;
    if i < n {
      ReferringReplaced(slots[..n], i, slot, q);
      assert slots[i := slot][..n] == slots[..n][i := slot];
    } else {
      assert slots[i := slot][..n] == slots[..n];
    }
  }

  lemma ReferringStep(slots: seq<Entry>, u: Update, q: int)
    ensures var i := Index(slots, u.poll.fd);
      multiset(LetGoQueue(slots, u))[q] + Referring(ApplyTo(slots, u), q)
      + Bit(u.info.block.None? && i < |slots| && slots[i].info.queue == Some(q)) ==
        Referring(slots, q) + Bit(u.info.block.Some? && u.info.queue == Some(q))
  {
    hide Index, Referring;
    var i := Index(slots, u.poll.fd);
    if i < |slots| {
      ReferringReplaced(slots, i, Slot(u.poll, u.info), q);
      ReferringTaken(slots, i, q);
    } else {
      ReferringAdded(slots, Slot(u.poll, u.info), q);
    }
  }

  lemma ReferringAdded(slots: seq<Entry>, slot: Entry, q: int)
    ensures Referring(slots + [slot], q) == Referring(slots, q) + Bit(slot.info.queue == Some(q))
  {
    assert (slots + [slot])[..|slots|] == slots;
  }

  lemma ReferringTaken(slots: seq<Entry>, i: nat, q: int)
    requires i < |slots|
    ensures Referring(RemoveAt(slots, i), q) + Bit(slots[i].info.queue == Some(q)) == Referring(slots, q)
  {
    ReferringReplaced(slots, i, slots[|slots| - 1], q);
  }

  /** Every reference to a dispatch queue that came in is held by a slot, was released when its entry was
      overwritten, or was forgotten when its entry was removed. */
  lemma {:induction false} QueuesAccounted(slots: seq<Entry>, us: seq<Update>, q: int)
    ensures multiset(LetGoQueues(slots, us))[q] + Referring(ApplyAll(slots, us), q) + Forgotten(slots, us, q) ==
            Referring(slots, q) + Brought(us, q)
    decreases us
  {
    hide ApplyTo, LetGoQueue, Index;
    if us != [] {
      ReferringStep(slots, us[0], q);
      QueuesAccounted(ApplyTo(slots, us[0]), us[1..], q);
    }
  }
}
