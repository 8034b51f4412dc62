/** The poll table of chat/net/poll.c. Unlike the web server's it is keyed by registration, so that one
    descriptor may be registered twice, and updates may also change an entry's events in place. */
module DescriptorTable {
  import opened Wrappers
  import opened Finite
  import opened PollSlots

  /** The identity of a registration. */
  type Descriptor = nat
  datatype PollInfo = NoInfo | PollInfo(descriptor: Descriptor, queue: Option<int>, block: Block)

  type Entry = Slot<PollInfo>

  /** What the queued blocks call: the PollDo functions. */
  datatype Update =
    | Register(pd: Descriptor, fd: int, events: Flags, queue: Option<int>, block: Block)
    | AddEvents(pd: Descriptor, events: Flags)
    | RemoveEvents(pd: Descriptor, events: Flags)
    | Remove(pd: Descriptor)

  datatype Action = Notify(pd: Descriptor, block: Block, revents: nat)

  // ----- What the array code computes -----

  predicate Holds(slot: Entry, pd: Descriptor) { slot.info.PollInfo? && slot.info.descriptor == pd }

  function Index(slots: seq<Entry>, pd: Descriptor): (i: nat)
    ensures i <= |slots| && (forall j :: 0 <= j < i ==> !Holds(slots[j], pd))
    ensures i < |slots| ==> Holds(slots[i], pd)
  {
    if slots == [] || Holds(slots[0], pd) then 0 else 1 + Index(slots[1..], pd)
  }

  function WithEvents(slot: Entry, events: Flags): Entry { slot.(poll := slot.poll.(events := events)) }

  /** A registration is new when it is made and in the table when it is changed or removed. */
  predicate Applicable(slots: seq<Entry>, u: Update) {
    if u.Register? then Index(slots, u.pd) == |slots| else Index(slots, u.pd) < |slots|
  }

  function ApplyTo(slots: seq<Entry>, u: Update): seq<Entry>
    requires Applicable(slots, u)
  {
    var i := Index(slots, u.pd);
    match u
    case Register(pd, fd, events, queue, block) => slots + [Slot(PollFd(fd, events, 0), PollInfo(pd, queue, block))]
    case AddEvents(_, events) => slots[i := WithEvents(slots[i], slots[i].poll.events + events)]
    case RemoveEvents(_, events) => slots[i := WithEvents(slots[i], slots[i].poll.events - events)]
    case Remove(_) => slots[i := slots[|slots| - 1]][..|slots| - 1]
  }

  predicate AllApplicable(slots: seq<Entry>, us: seq<Update>)
    decreases us
  {
    us == [] || (Applicable(slots, us[0]) && AllApplicable(ApplyTo(slots, us[0]), us[1..]))
  }

  function ApplyAll(slots: seq<Entry>, us: seq<Update>): seq<Entry>
    requires AllApplicable(slots, us)
    decreases us
  {
    if us == [] then slots else ApplyAll(ApplyTo(slots, us[0]), us[1..])
  }

  /** The block an update makes the table let go of. */
  function LetGo(slots: seq<Entry>, u: Update): seq<Block>
    requires Applicable(slots, u)
  {
    if u.Remove? then [slots[Index(slots, u.pd)].info.block] else []
  }

  function LetGoAll(slots: seq<Entry>, us: seq<Update>): seq<Block>
    requires AllApplicable(slots, us)
    decreases us
  {
    if us == [] then [] else LetGo(slots, us[0]) + LetGoAll(ApplyTo(slots, us[0]), us[1..])
  }

  /** Notifying a ready slot. */
  function ActionsFor(slot: Entry): seq<Action> {
    if slot.info.NoInfo? then [] else [Notify(slot.info.descriptor, slot.info.block, slot.poll.revents)]
  }

  function Perform(ready: seq<Entry>): seq<Action> {
    if ready == [] then [] else Perform(ready[..|ready| - 1]) + ActionsFor(ready[|ready| - 1])
  }

  /** Slots in use hold distinct registrations. */
  predicate Distinct(slots: seq<Entry>) {
    && (forall i :: 0 <= i < |slots| ==> slots[i].info.PollInfo?)
    && (forall i, j :: 0 <= i < j < |slots| ==> slots[i].info.descriptor != slots[j].info.descriptor)
  }

  class Table {
    var polls: array<PollFd>
    var pollInfos: array<PollInfo>
    var numOfPolls: nat
    var numOfSlots: nat
    /** The blocks released so far. */
    var released: seq<Block>

    /** The arrays are aligned and zero where no slot is in use. */
    ghost predicate Aligned()
      reads this`polls, this`pollInfos, this`numOfPolls, this`numOfSlots, polls, pollInfos
    {
      && polls.Length == pollInfos.Length == numOfSlots
      && 0 < numOfSlots && numOfPolls <= numOfSlots
      && (forall i :: numOfPolls <= i < numOfSlots ==> polls[i] == ZERO_POLL && pollInfos[i] == NoInfo)
    }

    ghost predicate Valid()
      reads this`polls, this`pollInfos, this`numOfPolls, this`numOfSlots, polls, pollInfos
    {
      Aligned() && Distinct(Slots())
    }

    ghost function Slots(): (r: seq<Entry>)
      reads this`polls, this`pollInfos, this`numOfPolls, polls, pollInfos
      requires polls.Length == pollInfos.Length && numOfPolls <= polls.Length
      ensures |r| == numOfPolls && forall i :: 0 <= i < numOfPolls ==> r[i] == Slot(polls[i], pollInfos[i])
    {
      Zip(polls[..numOfPolls], pollInfos[..numOfPolls])
    }

    constructor ()
      ensures Valid() && fresh(polls) && fresh(pollInfos) && Slots() == [] && released == []
    {
      numOfSlots, numOfPolls, released := 10, 0, [];
      polls := new PollFd[10](_ => ZERO_POLL);
      pollInfos := new PollInfo[10](_ => NoInfo);
    }

    /** PollIndexForDescriptor; None is UINT32_MAX. */
    method IndexFor(pd: Descriptor) returns (index: Option<nat>)
      requires Valid()
      ensures index == if Index(Slots(), pd) < |Slots()| then Some(Index(Slots(), pd)) else None
    {
      var i := 0;
      while i < numOfPolls
        invariant i <= numOfPolls && forall j :: 0 <= j < i ==> !Holds(Slots()[j], pd)
      {
        if pollInfos[i].PollInfo? && pollInfos[i].descriptor == pd {
          IndexIs(Slots(), pd, i);
          return Some(i);
        }
        i := i + 1;
      }
      index := None;
    }

    method Expand()
      requires Aligned()
      modifies this
      ensures Aligned() && fresh(polls) && fresh(pollInfos) && Slots() == old(Slots()) && released == old(released)
      ensures numOfPolls == old(numOfPolls) && numOfSlots == 2 * old(numOfSlots)
    {
      var polls', pollInfos' := new PollFd[2 * numOfSlots](_ => ZERO_POLL), new PollInfo[2 * numOfSlots](_ => NoInfo);
      forall i | 0 <= i < numOfSlots { polls'[i] := polls[i]; }
      forall i | 0 <= i < numOfSlots { pollInfos'[i] := pollInfos[i]; }
      polls, pollInfos, numOfSlots := polls', pollInfos', 2 * numOfSlots;
      assert Slots() == old(Slots());
    }

    /** PollDoRegisterDescriptor */
    method DoRegister(u: Update)
      requires Valid() && u.Register? && Applicable(Slots(), u)
      modifies this, polls, pollInfos
      ensures Valid() && Slots() == ApplyTo(old(Slots()), u) && released == old(released)
      ensures (polls == old(polls) && pollInfos == old(pollInfos)) || (fresh(polls) && fresh(pollInfos))
    {
      ghost var was := Slots();
      var index := numOfPolls;
      if index >= numOfSlots { Expand(); }
      polls[index] := PollFd(u.fd, u.events, 0);
      pollInfos[index] := PollInfo(u.pd, u.queue, u.block);
      numOfPolls := numOfPolls + 1;
      assert Slots() == ApplyTo(was, u);
      DistinctKept(was, u);
    }

    /** PollDoAddEvents and PollDoRemoveEvents */
    method DoChangeEvents(u: Update)
      requires Valid() && (u.AddEvents? || u.RemoveEvents?) && Applicable(Slots(), u)
      modifies polls
      ensures Valid() && Slots() == ApplyTo(old(Slots()), u)
    {
      ghost var was := Slots();
      var index := IndexFor(u.pd);
      var i := index.value;
      var events := polls[i].events;
      polls[i] := polls[i].(events := if u.AddEvents? then events + u.events else events - u.events);
      assert Slots() == ApplyTo(was, u);
      DistinctKept(was, u);
    }

    /** The last slot moves into the gap, and its old place is cleared. */
    method Clear(i: nat)
      requires Aligned() && i < numOfPolls
      modifies this`numOfPolls, polls, pollInfos
      ensures Aligned() && numOfPolls == old(numOfPolls) - 1
      ensures Slots() == old(Slots())[i := old(Slots())[numOfPolls]][..numOfPolls]
    {
      var last := numOfPolls - 1;
      if i != last { polls[i], pollInfos[i] := polls[last], pollInfos[last]; }
      polls[last], pollInfos[last] := ZERO_POLL, NoInfo;
      numOfPolls := last;
    }

    /** PollDoRemoveDescriptor */
    method DoRemove(u: Update)
      requires Valid() && u.Remove? && Applicable(Slots(), u)
      modifies this`numOfPolls, this`released, polls, pollInfos
      ensures Valid() && Slots() == ApplyTo(old(Slots()), u)
      ensures released == old(released) + LetGo(old(Slots()), u)
    {
      hide Distinct, Index;
      ghost var was := Slots();
      var index := IndexFor(u.pd);
      var i := index.value;
      if pollInfos[i].PollInfo? { released := released + [pollInfos[i].block]; }
      Clear(i);
      DistinctKept(was, u);
    }

    /** Running one queued block. */
    method Apply(u: Update)
      requires Valid() && Applicable(Slots(), u)
      modifies this, polls, pollInfos
      ensures Valid() && Slots() == ApplyTo(old(Slots()), u)
      ensures released == old(released) + LetGo(old(Slots()), u)
      ensures (polls == old(polls) && pollInfos == old(pollInfos)) || (fresh(polls) && fresh(pollInfos))
    {
      hide ApplyTo, Applicable, Distinct, Valid, Slots;
      match u {
        case Register(_, _, _, _, _) => DoRegister(u);
        case Remove(_) => DoRemove(u);
        case _ => DoChangeEvents(u);
      }
    }

    /** The drain loop of PollApplyUpdates, on what it drains. */
    method ApplyUpdates(us: seq<Update>)
      requires Valid() && AllApplicable(Slots(), us)
      modifies this, polls, pollInfos
      ensures Valid() && Slots() == ApplyAll(old(Slots()), us)
      ensures released == old(released) + LetGoAll(old(Slots()), us)
      ensures (polls == old(polls) && pollInfos == old(pollInfos)) || (fresh(polls) && fresh(pollInfos))
    {
      hide ApplyTo, Applicable, Distinct, LetGo;
      var k := 0;
      while k < |us|
        invariant 0 <= k <= |us| && Valid() && AllApplicable(Slots(), us[k..])
        invariant ApplyAll(Slots(), us[k..]) == ApplyAll(old(Slots()), us)
        invariant released + LetGoAll(Slots(), us[k..]) == old(released) + LetGoAll(old(Slots()), us)
        invariant (polls == old(polls) && pollInfos == old(pollInfos)) || (fresh(polls) && fresh(pollInfos))
      {
        assert us[k..][1..] == us[k + 1..] && us[k..][0] == us[k];
        Apply(us[k]);
        k := k + 1;
      }
    }

    /** poll(): the kernel sets every revents and returns how many are not zero. */
    method Poll(reported: seq<nat>) returns (ready: nat)
      requires Valid() && |reported| == numOfPolls
      modifies polls
      ensures Valid() && ready == |Ready(Slots())|
      ensures Slots() == Reported(old(Slots()), reported)
    {
      hide Ready, Distinct;
      ghost var was := Slots();
      forall i | 0 <= i < numOfPolls { polls[i] := polls[i].(revents := reported[i]); }
      assert forall i :: 0 <= i < numOfPolls ==> Slots()[i] == was[i].(poll := was[i].poll.(revents := reported[i]));
      assert Slots() == Reported(was, reported);
      ReportedDistinct(was, reported);
      ready := Count();
    }

    method Count() returns (ready: nat)
      requires Valid()
      ensures ready == |Ready(Slots())|
    {
      hide Ready, Distinct;
      ready := 0;
      ReadyStart(Slots());
      for i := 0 to numOfPolls
        invariant ready == |Ready(Slots()[..i])|
      {
        ReadyStep(Slots(), i);
        if polls[i].revents > 0 { ready := ready + 1; }
      }
      assert Slots()[..numOfPolls] == Slots();
    }

    /** The scan with its early exit, given at least as many to handle as there are ready slots. */
    method Scan(socksToHandle: nat) returns (actions: seq<Action>)
      requires Valid() && |Ready(Slots())| <= socksToHandle
      ensures actions == Perform(Ready(Slots()))
    {
      hide Ready, Distinct, Perform;
      ghost var slots := Slots();
      InUse(slots);
      PerformStart();
      var left, i := socksToHandle, 0;
      actions := [];
      ReadyStart(slots);
      while i < numOfPolls && left > 0
        invariant 0 <= i <= numOfPolls && left == socksToHandle - |Ready(slots[..i])|
        invariant actions == Perform(Ready(slots[..i]))
      {
        ReadyStep(slots, i);
        if polls[i].revents > 0 {
          PerformStep(Ready(slots[..i]), slots[i]);
          left := left - 1;
          actions := actions + [Notify(pollInfos[i].descriptor, pollInfos[i].block, polls[i].revents)];
        }
        i := i + 1;
      }
      ReadyPrefix(slots, i);
      assert slots[..|slots|] == slots;
      assert Ready(slots[..i]) == Ready(slots);
    }

    /** One round of PollThread after its first PollApplyUpdates. */
    method Round(reported: seq<nat>, us: seq<Update>) returns (actions: seq<Action>)
      requires Valid() && |reported| == numOfPolls && AllApplicable(Reported(Slots(), reported), us)
      modifies this, polls, pollInfos
      ensures Valid() && actions == Perform(Ready(ApplyAll(Reported(old(Slots()), reported), us)))
    {
      hide Ready, Perform, Distinct, ApplyTo, Applicable;
      var socksToHandle := Poll(reported);
      ghost var slots := Slots();
      ApplyUpdates(us);
      ReadyNeverGrows(slots, us);
      actions := Scan(socksToHandle);
    }
  }

  // ----- Properties -----

  lemma IndexIs(slots: seq<Entry>, pd: Descriptor, i: nat)
    requires i <= |slots| && (forall j :: 0 <= j < i ==> !Holds(slots[j], pd))
    requires i < |slots| ==> Holds(slots[i], pd)
    ensures Index(slots, pd) == i
  {}

  lemma DistinctKept(slots: seq<Entry>, u: Update)
    requires Distinct(slots) && Applicable(slots, u)
    ensures Distinct(ApplyTo(slots, u))
  {}

  lemma ReportedDistinct(slots: seq<Entry>, reported: seq<nat>)
    requires |reported| == |slots| && Distinct(slots)
    ensures Distinct(Reported(slots, reported))
  {}

  /** Applying updates never adds a ready slot: a new one has no revents, and changed events keep them. */
  lemma {:induction false} ReadyNeverGrows(slots: seq<Entry>, us: seq<Update>)
    requires AllApplicable(slots, us)
    ensures |Ready(ApplyAll(slots, us))| <= |Ready(slots)|
    decreases us
  {
    hide ApplyTo, Applicable, Ready;
    if us != [] {
      NoneReadied(slots, us[0]);
      ReadyNeverGrows(ApplyTo(slots, us[0]), us[1..]);
    }
  }

  lemma NoneReadied(slots: seq<Entry>, u: Update)
    requires Applicable(slots, u)
    ensures |Ready(ApplyTo(slots, u))| <= |Ready(slots)|
  {
    var i, n := Index(slots, u.pd), |slots| - 1;
    match u {
      case Register(_, _, _, _, _) => assert ApplyTo(slots, u)[..|slots|] == slots;
      case Remove(_) => ReadyReplaced(slots, i, slots[n]);
      case _ => ReadyReplaced(slots, i, ApplyTo(slots, u)[i]);
    }
  }

  lemma InUse(slots: seq<Entry>)
    requires Distinct(slots)
    ensures forall i :: 0 <= i < |slots| ==> slots[i].info.PollInfo?
  {}

  lemma PerformStart()
    ensures Perform([]) == []
  {}

  lemma PerformStep(ready: seq<Entry>, slot: Entry)
    ensures Perform(ready + [slot]) == Perform(ready) + ActionsFor(slot)
  {
    assert (ready + [slot])[..|ready|] == ready;
  }

  // ----- Blocks -----

  predicate HoldsBlock(slot: Entry, b: Block) { slot.info.PollInfo? && slot.info.block == b }

  /** How many slots hold block b. */
  function Holding(slots: seq<Entry>, b: Block): nat {
    if slots == [] then 0 else Holding(slots[..|slots| - 1], b) + Bit(HoldsBlock(slots[|slots| - 1], b))
  }

  /** How many registrations bring block b into the table. */
  function Adopted(us: seq<Update>, b: Block): nat {
    if us == [] then 0 else Bit(us[0].Register? && us[0].block == b) + Adopted(us[1..], b)
  }

  lemma {:induction false} HoldingReplaced(slots: seq<Entry>, i: nat, slot: Entry, b: Block)
    requires i < |slots|
    ensures Holding(slots[i := slot], b) + Bit(HoldsBlock(slots[i], b)) == Holding(slots, b) + Bit(HoldsBlock(slot, b))
  {
    var n := |slots| - 1;
    if i < n {
      HoldingReplaced(slots[..n], i, slot, b);
      assert slots[i := slot][..n] == slots[..n][i := slot];
    } else {
      assert slots[i := slot][..n] == slots[..n];
    }
  }

  /** Every block that was copied on registering is still in the table or has been released, each copy once. */
  lemma {:induction false} BlocksConserved(slots: seq<Entry>, us: seq<Update>, b: Block)
    requires AllApplicable(slots, us)
    ensures multiset(LetGoAll(slots, us))[b] + Holding(ApplyAll(slots, us), b) == Holding(slots, b) + Adopted(us, b)
    decreases us
  {
    hide ApplyTo, Applicable, LetGo;
    if us != [] {
      BlocksStep(slots, us[0], b);
      BlocksConserved(ApplyTo(slots, us[0]), us[1..], b);
    }
  }

  lemma BlocksStep(slots: seq<Entry>, u: Update, b: Block)
    requires Applicable(slots, u)
    ensures multiset(LetGo(slots, u))[b] + Holding(ApplyTo(slots, u), b) ==
            Holding(slots, b) + Bit(u.Register? && u.block == b)
  {
    hide Index, Holding;
    var i, after := Index(slots, u.pd), ApplyTo(slots, u);
    match u {
      case Register(_, _, _, _, _) => HoldingAdded(slots, after[|slots|], b);
      case Remove(_) => HoldingTaken(slots, i, b);
      case _ => HoldingReplaced(slots, i, after[i], b);
    }
  }

  lemma HoldingAdded(slots: seq<Entry>, slot: Entry, b: Block)
    ensures Holding(slots + [slot], b) == Holding(slots, b) + Bit(HoldsBlock(slot, b))
  {
    assert (slots + [slot])[..|slots|] == slots;
  }

  lemma HoldingTaken(slots: seq<Entry>, i: nat, b: Block)
    requires i < |slots|
    ensures var n := |slots| - 1;
      Holding(slots[i := slots[n]][..n], b) + Bit(HoldsBlock(slots[i], b)) == Holding(slots, b)
  {
    HoldingReplaced(slots, i, slots[|slots| - 1], b);
  }

  // ----- The table as a map -----

  function Lookup(slots: seq<Entry>, pd: Descriptor): Option<Entry> {
    var i := Index(slots, pd);
    if i < |slots| then Some(slots[i]) else None
  }

  /** What an update makes of the entry of pd. */
  function Effect(entry: Option<Entry>, u: Update, pd: Descriptor): Option<Entry> {
    if u.pd != pd then entry
    else
      match u
      case Register(_, fd, events, queue, block) => Some(Slot(PollFd(fd, events, 0), PollInfo(pd, queue, block)))
      case AddEvents(_, events) =>
        if entry.Some? then Some(WithEvents(entry.value, entry.value.poll.events + events)) else None
      case RemoveEvents(_, events) =>
        if entry.Some? then Some(WithEvents(entry.value, entry.value.poll.events - events)) else None
      case Remove(_) => None
  }

  function Effects(entry: Option<Entry>, us: seq<Update>, pd: Descriptor): Option<Entry>
    decreases us
  {
    if us == [] then entry else Effects(Effect(entry, us[0], pd), us[1..], pd)
  }

  /** Each registration's entry is what the updates in queue order make of it, wherever its slot moves. */
  lemma {:induction false} ApplyRefinesEffects(slots: seq<Entry>, us: seq<Update>, pd: Descriptor)
    requires Distinct(slots) && AllApplicable(slots, us)
    ensures Distinct(ApplyAll(slots, us)) && Lookup(ApplyAll(slots, us), pd) == Effects(Lookup(slots, pd), us, pd)
    decreases us
  {
    if us != [] {
      DistinctKept(slots, us[0]);
      ApplyRefinesEffect(slots, us[0], pd);
      ApplyRefinesEffects(ApplyTo(slots, us[0]), us[1..], pd);
    }
  }

  lemma ApplyRefinesEffect(slots: seq<Entry>, u: Update, pd: Descriptor)
    requires Distinct(slots) && Applicable(slots, u)
    ensures Lookup(ApplyTo(slots, u), pd) == Effect(Lookup(slots, pd), u, pd)
  {
    var i, j, n, after := Index(slots, u.pd), Index(slots, pd), |slots| - 1, ApplyTo(slots, u);
    match u {
      case Register(_, _, _, _, _) => RegisteredIndex(slots, after[|slots|], pd);
      case Remove(_) => RemovedIndex(slots, i, pd);
      case _ => ChangedIndex(slots, i, after[i], pd);
    }
    hide Index;
  }

  lemma RegisteredIndex(slots: seq<Entry>, slot: Entry, pd: Descriptor)
    ensures Index(slots + [slot], pd) ==
      if Index(slots, pd) == |slots| && !Holds(slot, pd) then |slots| + 1 else Index(slots, pd)
  {
    var j := Index(slots, pd);
    IndexIs(slots + [slot], pd, if j == |slots| && !Holds(slot, pd) then |slots| + 1 else j);
  }

  /** Where a registration is after the last slot took the place of slot i. */
  lemma RemovedIndex(slots: seq<Entry>, i: nat, pd: Descriptor)
    requires Distinct(slots) && i < |slots|
    ensures var n, j := |slots| - 1, Index(slots, pd);
      Index(slots[i := slots[n]][..n], pd) == if Holds(slots[i], pd) || j > n then n else if j == n then i else j
  {
    var n, j := |slots| - 1, Index(slots, pd);
    var after := slots[i := slots[n]][..n];
    if Holds(slots[i], pd) { IndexIs(slots, pd, i); }
    IndexIs(after, pd, if Holds(slots[i], pd) || j > n then n else if j == n then i else j);
  }

  lemma ChangedIndex(slots: seq<Entry>, i: nat, slot: Entry, pd: Descriptor)
    requires i < |slots| && slot.info == slots[i].info
    ensures Index(slots[i := slot], pd) == Index(slots, pd)
  {
    IndexIs(slots[i := slot], pd, Index(slots, pd));
  }

  /** A round notifies precisely the registrations that poll() reported ready and that were not removed
      meanwhile. */
  lemma RoundNotifies(slots: seq<Entry>, reported: seq<nat>, us: seq<Update>, pd: Descriptor, b: Block, r: nat)
    requires Distinct(slots) && |reported| == |slots| && AllApplicable(Reported(slots, reported), us)
    ensures
      Notify(pd, b, r) in Perform(Ready(ApplyAll(Reported(slots, reported), us))) <==>
      r > 0 && (forall k :: 0 <= k < |us| ==> us[k] != Remove(pd)) &&
      exists i :: 0 <= i < |slots| && slots[i].info.descriptor == pd && slots[i].info.block == b && reported[i] == r
  {
    var after := Reported(slots, reported);
    var last := ApplyAll(after, us);
    ReportedDistinct(slots, reported);
    ApplyRefinesEffects(after, us, pd);
    NotifiesLookup(last, Notify(pd, b, r));
    EffectsKeep(after, us, pd);
    if i: nat :| i < |slots| && slots[i].info.descriptor == pd { IndexIs(after, pd, i); }
    hide ApplyAll, AllApplicable, Effects, Ready, Perform, Index;
  }

  lemma {:induction false} PerformSource(ready: seq<Entry>, a: Action) returns (slot: Entry)
    requires a in Perform(ready)
    ensures slot in ready && ActionsFor(slot) == [a]
  {
    var n := |ready| - 1;
    if a in ActionsFor(ready[n]) { slot := ready[n]; } else { slot := PerformSource(ready[..n], a); }
  }

  lemma {:induction false} PerformHas(ready: seq<Entry>, slot: Entry, a: Action)
    requires slot in ready && ActionsFor(slot) == [a]
    ensures a in Perform(ready)
  {
    var n := |ready| - 1;
    if slot != ready[n] { PerformHas(ready[..n], slot, a); }
  }

  lemma NotifiesLookup(slots: seq<Entry>, a: Action)
    requires Distinct(slots)
    ensures
      a in Perform(Ready(slots)) <==>
      Lookup(slots, a.pd).Some? && IsReady(Lookup(slots, a.pd).value) && ActionsFor(Lookup(slots, a.pd).value) == [a]
  {
    hide Ready, Perform;
    if a in Perform(Ready(slots)) {
      var slot := PerformSource(Ready(slots), a);
      ReadyMember(slots, slot);
      var i: nat :| i < |slots| && slots[i] == slot;
      IndexIs(slots, a.pd, i);
    }
    var j := Index(slots, a.pd);
    if j < |slots| && IsReady(slots[j]) && ActionsFor(slots[j]) == [a] {
      ReadyMember(slots, slots[j]);
      PerformHas(Ready(slots), slots[j], a);
    }
  }

  /** Unless pd is removed its revents and block stay; afterwards it is absent or has no revents. */
  lemma {:induction false} EffectsKeep(slots: seq<Entry>, us: seq<Update>, pd: Descriptor)
    requires Distinct(slots) && AllApplicable(slots, us)
    ensures var was, now := Lookup(slots, pd), Effects(Lookup(slots, pd), us, pd);
      && (was.Some? && (forall k :: 0 <= k < |us| ==> us[k] != Remove(pd)) ==>
            now.Some? && now.value.poll.revents == was.value.poll.revents && now.value.info == was.value.info)
      && ((was == None || was.value.poll.revents == 0 || exists k :: 0 <= k < |us| && us[k] == Remove(pd)) ==>
            now == None || now.value.poll.revents == 0)
    decreases us
  {
    if us != [] {
      DistinctKept(slots, us[0]);
      ApplyRefinesEffect(slots, us[0], pd);
      EffectsKeep(ApplyTo(slots, us[0]), us[1..], pd);
      assert forall k :: 0 < k < |us| ==> us[k] == us[1..][k - 1];
    }
  }
}
