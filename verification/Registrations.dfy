/**
 Who registers with the chat server's poll thread and what for: listeners from other threads, clients in
 the listeners' callbacks, changes and removals in the callbacks of the poll thread's scan. A step is one
 enqueued update, one drained update, or one step of the scan.
 */
module Registrations {
  import opened Wrappers
  import opened PollSlots
  import opened DescriptorTable

  /** POLLIN and POLLOUT, as sets of bits. */
  const IN: Flags := {0}
  const OUT: Flags := {2}

  /** The same bits, and POLLHUP, of a number. */
  predicate Readable(revents: nat) { revents % 2 == 1 }

  predicate Writable(revents: nat) { revents / 4 % 2 == 1 }

  predicate HungUp(revents: nat) { revents / 16 % 2 == 1 }

  /** What poll() may report: POLLOUT only to those who ask for it. */
  predicate MayReport(table: seq<Entry>, reported: seq<nat>) {
    |reported| == |table| &&
    forall i :: 0 <= i < |table| && Writable(reported[i]) ==> OUT <= table[i].poll.events
  }

  /** Where the poll thread is. Before poll() it applies updates with nothing to handle, after poll() with
      the number of ready entries. Calling is the callback of slot i, leaving one in which ClientDisconnect
      took the client out of the registry. Fault: a slot looked up with UINT32_MAX, or a callback for a
      client that is gone. */
  datatype Phase =
    | Applying(socksToHandle: Option<nat>)
    | Polling
    | Scanning(i: nat, left: nat)
    | Calling(i: nat, left: nat, leaving: bool)
    | Fault

  /** listeners are never removed; the wake-up pipe is one of them. clients are those in the registry, unsent
      those whose output buffer holds something. */
  datatype State = State(
    table: seq<Entry>, queue: seq<Update>, phase: Phase,
    listeners: set<Descriptor>, clients: set<Descriptor>, unsent: set<Descriptor>, next: Descriptor)

  /** A decision of the scheduler or the environment. One that is not possible changes nothing. */
  datatype Move =
    | Listen(fd: int, block: Block)  // CreateListener on any thread
    | Go(reported: seq<nat>)         // the poll thread outside of callbacks; reported is for poll()
    | Accept(fd: int, block: Block)  // ClientCreate in a listener's callback
    | Write(c: Descriptor)           // ClientWriteLine in any callback, to a registered client
    | SentAll                        // ClientDoWrite sends the whole buffer, which is not empty
    | Leave                          // ClientDisconnect removes the caller from the registry
    | Return                         // the callback ends, after a disconnect with PollDescritptorRemove

  const START := State([], [], Applying(None), {}, {}, {}, 0)

  function Enqueue(s: State, u: Update): State { s.(queue := s.queue + [u]) }

  /** PollRegister: every registration is a new object. */
  function Register(s: State, fd: int, block: Block): State {
    Enqueue(s, Update.Register(s.next, fd, IN, None, block)).(next := s.next + 1)
  }

  /** The callback that runs belongs to the entry of slot i. */
  predicate Calls(s: State) { s.phase.Calling? && s.phase.i < |s.table| && s.table[s.phase.i].info.PollInfo? }

  function Caller(s: State): Descriptor
    requires Calls(s)
  {
    s.table[s.phase.i].info.descriptor
  }

  /** Which branch a client's callback takes: disconnect, read, or this one, ClientDoWrite. */
  predicate DoesWrite(revents: nat) { !HungUp(revents) && !Readable(revents) && Writable(revents) }

  function Drain(s: State): State
    requires s.queue != []
  {
    if Applicable(s.table, s.queue[0]) then s.(table := ApplyTo(s.table, s.queue[0]), queue := s.queue[1..])
    else s.(phase := Fault)
  }

  function Scan(s: State, i: nat, left: nat): State {
    if i >= |s.table| || left == 0 then s.(phase := Applying(None))
    else if !IsReady(s.table[i]) then s.(phase := Scanning(i + 1, left))
    else if s.table[i].info.PollInfo? && s.table[i].info.descriptor in s.listeners + s.clients
    then s.(phase := Calling(i, left - 1, false))
    else s.(phase := Fault)
  }

  function GoOn(s: State, reported: seq<nat>): State {
    match s.phase
    case Applying(n) =>
      if s.queue != [] then Drain(s)
      else s.(phase := if n.Some? then Scanning(0, n.value) else Polling)
    case Polling =>
      if !MayReport(s.table, reported) then s
      else
        var table := Reported(s.table, reported);
        s.(table := table, phase := Applying(Some(|Ready(table)|)))
    case Scanning(i, left) => Scan(s, i, left)
    case Calling(_, _, _) | Fault => s
  }

  function Step(s: State, m: Move): State {
    match m
    case Listen(fd, block) => Register(s, fd, block).(listeners := s.listeners + {s.next})
    case Go(reported) => GoOn(s, reported)
    case Accept(fd, block) =>
      if Calls(s) && Caller(s) in s.listeners then Register(s, fd, block).(clients := s.clients + {s.next}) else s
    case Write(c) =>
      if Calls(s) && c in s.clients then Enqueue(s, AddEvents(c, OUT)).(unsent := s.unsent + {c}) else s
    case SentAll =>
      if Calls(s) && Caller(s) in s.clients * s.unsent && DoesWrite(s.table[s.phase.i].poll.revents)
      then Enqueue(s, RemoveEvents(Caller(s), OUT)).(unsent := s.unsent - {Caller(s)})
      else s
    case Leave =>
      if Calls(s) && Caller(s) in s.clients
      then s.(clients := s.clients - {Caller(s)}, phase := s.phase.(leaving := true))
      else s
    case Return =>
      if !Calls(s) then s
      else
        var s' := if s.phase.leaving then Enqueue(s, Remove(Caller(s))) else s;
        s'.(phase := Scanning(s.phase.i + 1, s.phase.left))
  }

  function Exec(schedule: seq<Move>): State {
    if schedule == [] then START else Step(Exec(schedule[..|schedule| - 1]), schedule[|schedule| - 1])
  }

  // ----- The table as what its registrations ask for -----

  function Registered(slots: seq<Entry>): set<Descriptor> {
    set i | 0 <= i < |slots| && slots[i].info.PollInfo? :: slots[i].info.descriptor
  }

  /** The events each registration asks for. */
  function Asks(slots: seq<Entry>): map<Descriptor, Flags> {
    map pd | pd in Registered(slots) && Lookup(slots, pd).Some? :: Lookup(slots, pd).value.poll.events
  }

  predicate Fits(asks: map<Descriptor, Flags>, u: Update) { u.Register? <==> u.pd !in asks }

  function Change(asks: map<Descriptor, Flags>, u: Update): map<Descriptor, Flags>
    requires Fits(asks, u)
  {
    match u
    case Register(pd, _, events, _, _) => asks[pd := events]
    case AddEvents(pd, events) => asks[pd := asks[pd] + events]
    case RemoveEvents(pd, events) => asks[pd := asks[pd] - events]
    case Remove(pd) => asks - {pd}
  }

  predicate AllFit(asks: map<Descriptor, Flags>, us: seq<Update>)
    decreases us
  {
    us == [] || (Fits(asks, us[0]) && AllFit(Change(asks, us[0]), us[1..]))
  }

  function Changes(asks: map<Descriptor, Flags>, us: seq<Update>): map<Descriptor, Flags>
    requires AllFit(asks, us)
    decreases us
  {
    if us == [] then asks else Changes(Change(asks, us[0]), us[1..])
  }

  lemma AsksAt(slots: seq<Entry>, pd: Descriptor)
    ensures pd in Asks(slots) <==> Index(slots, pd) < |slots|
    ensures pd in Asks(slots) ==> Asks(slots)[pd] == slots[Index(slots, pd)].poll.events
  {
    var i := Index(slots, pd);
    if i < |slots| { assert Holds(slots[i], pd) && slots[i].info.descriptor in Registered(slots); }
  }

  lemma AppliedAsks(slots: seq<Entry>, u: Update)
    requires Distinct(slots)
    ensures Applicable(slots, u) <==> Fits(Asks(slots), u)
    ensures Applicable(slots, u) ==> Asks(ApplyTo(slots, u)) == Change(Asks(slots), u)
  {
    hide Asks, Index, ApplyTo;
    AsksAt(slots, u.pd);
    if Applicable(slots, u) {
      var after, changed := Asks(ApplyTo(slots, u)), Change(Asks(slots), u);
      forall pd
        ensures (pd in after <==> pd in changed) && (pd in after ==> after[pd] == changed[pd])
      {
        AsksAt(slots, pd);
        AsksAt(ApplyTo(slots, u), pd);
        ApplyRefinesEffect(slots, u, pd);
      }
      assert after.Keys == changed.Keys;
    }
  }

  lemma ReportedAsks(slots: seq<Entry>, reported: seq<nat>)
    requires |reported| == |slots|
    ensures Asks(Reported(slots, reported)) == Asks(slots)
  {
    hide Asks;
    var table := Reported(slots, reported);
    forall pd
      ensures pd in Asks(table) <==> pd in Asks(slots)
      ensures pd in Asks(table) ==> Asks(table)[pd] == Asks(slots)[pd]
    {
      AsksAt(slots, pd);
      AsksAt(table, pd);
      IndexIs(table, pd, Index(slots, pd));
    }
    assert Asks(table).Keys == Asks(slots).Keys;
  }

  lemma {:induction false} AppendedFits(asks: map<Descriptor, Flags>, us: seq<Update>, u: Update)
    requires AllFit(asks, us) && Fits(Changes(asks, us), u)
    ensures AllFit(asks, us + [u]) && Changes(asks, us + [u]) == Change(Changes(asks, us), u)
    decreases us
  {
    hide Fits, Change;
    if us == [] {
      assert ([u])[1..] == [] && us + [u] == [u];
    } else {
      AppendedFits(Change(asks, us[0]), us[1..], u);
      assert (us + [u])[1..] == us[1..] + [u];
    }
  }

  /** Updates that fit what is asked for can be applied to the table, and change what is asked for. */
  lemma {:induction false} AppliedAll(slots: seq<Entry>, us: seq<Update>)
    requires Distinct(slots) && AllFit(Asks(slots), us)
    ensures AllApplicable(slots, us) && Asks(ApplyAll(slots, us)) == Changes(Asks(slots), us)
    decreases us
  {
    hide Asks, Applicable, ApplyTo, Change, Fits, Distinct;
    if us != [] {
      AppliedAsks(slots, us[0]);
      DistinctKept(slots, us[0]);
      AppliedAll(ApplyTo(slots, us[0]), us[1..]);
    }
  }

  // ----- The invariant -----

  /** The client that has left the registry and is still registered. */
  function Leaving(s: State): set<Descriptor> { if Calls(s) && s.phase.leaving then {Caller(s)} else {} }

  /** What the table has to ask for once the queue is applied: POLLOUT precisely for unsent output. */
  function Wanted(s: State): map<Descriptor, Flags> {
    map pd | pd in s.listeners + s.clients + Leaving(s) :: if pd in s.unsent then IN + OUT else IN
  }

  /** Slots from i on belong to listeners and connected clients. */
  ghost predicate Alive(s: State, i: nat) {
    forall j :: i <= j < |s.table| ==>
      s.table[j].info.PollInfo? && s.table[j].info.descriptor in s.listeners + s.clients
  }

  ghost predicate Scanned(s: State) {
    match s.phase
    case Scanning(i, _) => Alive(s, i)
    case Calling(i, _, leaving) =>
      && Calls(s) && Alive(s, i + 1)
      && (if leaving then Caller(s) !in s.listeners + s.clients else Caller(s) in s.listeners + s.clients)
    case Fault => false
    case _ => true
  }

  ghost predicate Below(pds: set<Descriptor>, n: nat) { forall pd :: pd in pds ==> pd < n }

  ghost predicate Known(s: State) {
    && s.listeners !! s.clients && s.listeners !! s.unsent
    && Below(s.listeners, s.next) && Below(s.clients, s.next) && Below(Leaving(s), s.next) && Below(s.unsent, s.next)
  }

  ghost predicate Pending(s: State) { AllFit(Asks(s.table), s.queue) && Changes(Asks(s.table), s.queue) == Wanted(s) }

  /** After the queue was drained only other threads enqueue, and only registrations, until the scan. */
  predicate OnlyRegisters(us: seq<Update>) { forall k :: 0 <= k < |us| ==> us[k].Register? }

  /** Slots from i on are reported writable only for unsent output. */
  ghost predicate Owed(s: State, i: nat) {
    forall j :: i <= j < |s.table| && Writable(s.table[j].poll.revents) ==>
      s.table[j].info.PollInfo? && s.table[j].info.descriptor in s.unsent
  }

  /** What is reported writable stays so until its callback. */
  ghost predicate Reporting(s: State) {
    match s.phase
    case Polling => OnlyRegisters(s.queue)
    case Applying(n) => n.Some? ==> OnlyRegisters(s.queue) && Owed(s, 0)
    case Scanning(i, _) => Owed(s, i)
    case Calling(i, _, _) => Owed(s, i + 1)
    case Fault => true
  }

  ghost predicate Inv(s: State) { Distinct(s.table) && Known(s) && Scanned(s) && Pending(s) && Reporting(s) }

  // ----- Every step keeps it -----

  lemma EnqueuePending(s: State, u: Update, s': State)
    requires Pending(s) && Fits(Wanted(s), u)
    requires s'.table == s.table && s'.queue == s.queue + [u] && Wanted(s') == Change(Wanted(s), u)
    ensures Pending(s')
  {
    hide Asks, Wanted, Change, Fits, AllFit, Changes;
    AppendedFits(Asks(s.table), s.queue, u);
  }

  lemma SamePending(s: State, s': State)
    requires Pending(s) && Asks(s'.table) == Asks(s.table) && s'.queue == s.queue && Wanted(s') == Wanted(s)
    ensures Pending(s')
  {}

  lemma ListenInv(s: State, fd: int, block: Block)
    requires Inv(s)
    ensures Inv(Step(s, Listen(fd, block)))
  {
    hide Pending, Asks, Distinct, AllFit, Changes;
    var s' := Step(s, Listen(fd, block));
    assert Wanted(s') == Change(Wanted(s), s'.queue[|s.queue|]);
    EnqueuePending(s, s'.queue[|s.queue|], s');
  }

  lemma AcceptInv(s: State, fd: int, block: Block)
    requires Inv(s)
    ensures Inv(Step(s, Accept(fd, block)))
  {
    hide Pending, Asks, Distinct, AllFit, Changes;
    var s' := Step(s, Accept(fd, block));
    if s' != s {
      assert Wanted(s') == Change(Wanted(s), s'.queue[|s.queue|]);
      EnqueuePending(s, s'.queue[|s.queue|], s');
    }
  }

  lemma WriteInv(s: State, c: Descriptor)
    requires Inv(s)
    ensures Inv(Step(s, Write(c)))
  {
    hide Pending, Asks, Distinct, AllFit, Changes, Writable;
    var s' := Step(s, Write(c));
    if s' != s {
      assert IN + OUT + OUT == IN + OUT;
      assert Wanted(s') == Change(Wanted(s), s'.queue[|s.queue|]);
      EnqueuePending(s, s'.queue[|s.queue|], s');
    }
  }

  lemma OthersFollow(s: State)
    requires Distinct(s.table) && Calls(s)
    ensures forall j :: s.phase.i < j < |s.table| ==>
      s.table[j].info.PollInfo? && s.table[j].info.descriptor != Caller(s)
  {}

  lemma SentAllInv(s: State)
    requires Inv(s)
    ensures Inv(Step(s, SentAll))
  {
    hide Pending, Asks, Distinct, AllFit, Changes, Writable, DoesWrite;
    var s' := Step(s, SentAll);
    if s' != s {
      OthersFollow(s);
      assert IN + OUT - OUT == IN;
      assert Wanted(s') == Change(Wanted(s), s'.queue[|s.queue|]);
      EnqueuePending(s, s'.queue[|s.queue|], s');
    }
  }

  lemma LeaveInv(s: State)
    requires Inv(s)
    ensures Inv(Step(s, Leave))
  {
    hide Pending, Asks, AllFit, Changes;
    var s' := Step(s, Leave);
    if s' != s {
      assert Wanted(s') == Wanted(s);
      SamePending(s, s');
    }
  }

  lemma ReturnInv(s: State)
    requires Inv(s)
    ensures Inv(Step(s, Return))
  {
    hide Pending, Asks, Distinct, AllFit, Changes;
    var s' := Step(s, Return);
    if Calls(s) && s.phase.leaving {
      assert Wanted(s') == Change(Wanted(s), s'.queue[|s.queue|]);
      EnqueuePending(s, s'.queue[|s.queue|], s');
    } else {
      assert Wanted(s') == Wanted(s);
      SamePending(s, s');
    }
  }

  lemma DrainInv(s: State)
    requires Inv(s) && s.phase.Applying? && s.queue != []
    ensures Inv(Drain(s))
  {
    hide Asks, ApplyTo, Applicable, Distinct, Owed;
    AppliedAsks(s.table, s.queue[0]);
    DistinctKept(s.table, s.queue[0]);
    if s.phase.socksToHandle.Some? { RegisteredOwed(s); }
  }

  /** A new entry has no revents. */
  lemma RegisteredOwed(s: State)
    requires Owed(s, 0) && s.queue != [] && s.queue[0].Register?
    ensures Owed(Drain(s), 0)
  {}

  /** With nothing queued every slot belongs to a listener or a connected client. */
  lemma DrainedAlive(s: State)
    requires Inv(s) && s.queue == [] && Leaving(s) == {}
    ensures Alive(s, 0)
  {
    hide Asks;
    forall j | 0 <= j < |s.table|
      ensures s.table[j].info.PollInfo? && s.table[j].info.descriptor in s.listeners + s.clients
    {
      AsksAt(s.table, s.table[j].info.descriptor);
      IndexIs(s.table, s.table[j].info.descriptor, j);
      assert s.table[j].info.descriptor in Wanted(s);
    }
  }

  lemma {:induction false} RegistersKeep(asks: map<Descriptor, Flags>, us: seq<Update>, pd: Descriptor)
    requires AllFit(asks, us) && OnlyRegisters(us) && pd in asks
    ensures pd in Changes(asks, us) && Changes(asks, us)[pd] == asks[pd]
    decreases us
  {
    if us != [] { RegistersKeep(Change(asks, us[0]), us[1..], pd); }
  }

  /** At poll() only entries of clients with unsent output ask to write. */
  lemma AskersOwe(s: State, j: nat)
    requires Inv(s) && s.phase.Polling? && j < |s.table| && OUT <= s.table[j].poll.events
    ensures s.table[j].info.PollInfo? && s.table[j].info.descriptor in s.unsent
  {
    hide Asks, Changes, AllFit;
    var pd := s.table[j].info.descriptor;
    IndexIs(s.table, pd, j);
    AsksAt(s.table, pd);
    RegistersKeep(Asks(s.table), s.queue, pd);
    assert 2 in Wanted(s)[pd];
  }

  lemma PollInv(s: State, reported: seq<nat>)
    requires Inv(s) && s.phase.Polling? && MayReport(s.table, reported)
    ensures Inv(GoOn(s, reported))
  {
    hide Asks, AllFit, Changes;
    var s' := GoOn(s, reported);
    ReportedAsks(s.table, reported);
    ReportedDistinct(s.table, reported);
    forall j | 0 <= j < |s.table| && Writable(reported[j])
      ensures s.table[j].info.PollInfo? && s.table[j].info.descriptor in s.unsent
    {
      AskersOwe(s, j);
    }
    hide Pending, Distinct, Writable;
    assert Wanted(s') == Wanted(s);
    SamePending(s, s');
  }

  lemma ScanInv(s: State)
    requires Inv(s) && s.phase.Scanning?
    ensures Inv(Scan(s, s.phase.i, s.phase.left))
  {
    hide Pending, Asks, AllFit, Changes;
    var s' := Scan(s, s.phase.i, s.phase.left);
    assert Wanted(s') == Wanted(s);
    SamePending(s, s');
  }

  lemma DrainedInv(s: State)
    requires Inv(s) && s.phase.Applying? && s.queue == []
    ensures Inv(GoOn(s, []))
  {
    hide Pending, Asks, Distinct, AllFit, Changes;
    var s' := GoOn(s, []);
    DrainedAlive(s);
    assert Wanted(s') == Wanted(s);
    SamePending(s, s');
  }

  lemma GoInv(s: State, reported: seq<nat>)
    requires Inv(s)
    ensures Inv(GoOn(s, reported))
  {
    hide Inv, Drain, Scan;
    match s.phase {
      case Applying(_) => if s.queue != [] { DrainInv(s); } else { DrainedInv(s); }
      case Polling => if MayReport(s.table, reported) { PollInv(s, reported); }
      case Scanning(_, _) => ScanInv(s);
      case _ =>
    }
  }

  lemma StepInv(s: State, m: Move)
    requires Inv(s)
    ensures Inv(Step(s, m))
  {
    hide Inv;
    match m {
      case Listen(fd, block) => ListenInv(s, fd, block);
      case Go(reported) => GoInv(s, reported);
      case Accept(fd, block) => AcceptInv(s, fd, block);
      case Leave => LeaveInv(s);
      case Return => ReturnInv(s);
      case Write(c) => WriteInv(s, c);
      case SentAll => SentAllInv(s);
    }
  }

  lemma StartInv()
    ensures Inv(START)
  {}

  lemma {:induction false} Always(schedule: seq<Move>)
    ensures Inv(Exec(schedule))
  {
    hide Inv, Step;
    StartInv();
    if schedule != [] {
      Always(schedule[..|schedule| - 1]);
      StepInv(Exec(schedule[..|schedule| - 1]), schedule[|schedule| - 1]);
    }
  }

  // ----- Main results -----

  /** In no run does an update look up a registration that is not in the table, or find its own there
      already, and in no run is a callback called for a client that has disconnected. */
  lemma NeverFaults(schedule: seq<Move>)
    ensures !Exec(schedule).phase.Fault?
    ensures AllApplicable(Exec(schedule).table, Exec(schedule).queue)
  {
    Always(schedule);
    AppliedAll(Exec(schedule).table, Exec(schedule).queue);
  }

  /** Once the queue is applied the table holds the listeners, the clients in the registry and one that is
      about to be removed; it asks to write for a client if and only if the client has unsent output. */
  lemma AsksToWrite(schedule: seq<Move>, pd: Descriptor)
    ensures var s := Exec(schedule);
      && AllApplicable(s.table, s.queue)
      && var entry := Lookup(ApplyAll(s.table, s.queue), pd);
      && (entry.Some? <==> pd in s.listeners + s.clients + Leaving(s))
      && (entry.Some? ==> entry.value.poll.events == if pd in s.unsent then IN + OUT else IN)
  {
    hide Asks, ApplyAll, AllApplicable, Exec;
    Always(schedule);
    var s := Exec(schedule);
    AppliedAll(s.table, s.queue);
    AsksAt(ApplyAll(s.table, s.queue), pd);
    assert pd in Wanted(s) <==> pd in s.listeners + s.clients + Leaving(s);
  }

  /** A callback for POLLOUT comes only to a client that has unsent output, so that ClientDoWrite never sends
      nothing and takes that for a client that is gone. */
  lemma OutputAtPollout(schedule: seq<Move>, reported: seq<nat>)
    requires var s := Exec(schedule);
      && s.phase.Scanning? && Step(s, Go(reported)).phase.Calling?
      && Writable(s.table[s.phase.i].poll.revents)
    ensures var s := Exec(schedule); s.table[s.phase.i].info.descriptor in s.clients * s.unsent
  {
    hide Exec, Pending, Writable;
    Always(schedule);
  }

  /** Whatever poll() reports, the updates queued meanwhile may be applied: what a round of the poll thread
      requires. */
  lemma RoundsMayRun(schedule: seq<Move>, reported: seq<nat>)
    requires |reported| == |Exec(schedule).table|
    ensures Distinct(Exec(schedule).table)
    ensures AllApplicable(Reported(Exec(schedule).table, reported), Exec(schedule).queue)
  {
    hide Asks, ApplyAll, AllApplicable, Exec;
    Always(schedule);
    var s := Exec(schedule);
    ReportedAsks(s.table, reported);
    ReportedDistinct(s.table, reported);
    AppliedAll(Reported(s.table, reported), s.queue);
  }

  // ----- No ready entry is passed over -----

  /** There are at least as many entries left to handle as ready entries to come. */
  ghost predicate Enough(s: State) {
    match s.phase
    case Applying(n) => n.Some? ==> |Ready(s.table)| <= n.value
    case Scanning(i, left) => i <= |s.table| && |Ready(s.table)| <= left + |Ready(s.table[..i])|
    case Calling(i, left, _) => i < |s.table| && |Ready(s.table)| <= left + |Ready(s.table[..i + 1])|
    case _ => true
  }

  lemma DrainEnough(s: State)
    requires Enough(s) && s.phase.Applying? && s.queue != []
    ensures Enough(Drain(s))
  {
    hide Ready;
    if Applicable(s.table, s.queue[0]) { NoneReadied(s.table, s.queue[0]); }
  }

  lemma ScanEnough(s: State)
    requires Enough(s) && s.phase.Scanning?
    ensures Enough(Scan(s, s.phase.i, s.phase.left))
  {
    hide Ready;
    if s.phase.i < |s.table| { ReadyStep(s.table, s.phase.i); }
  }

  lemma StepEnough(s: State, m: Move)
    requires Enough(s)
    ensures Enough(Step(s, m))
  {
    hide Ready, Drain, Scan;
    if m.Go? {
      match s.phase {
        case Applying(_) => if s.queue != [] { DrainEnough(s); } else { ReadyStart(s.table); }
        case Scanning(_, _) => ScanEnough(s);
        case _ =>
      }
    }
  }

  lemma {:induction false} AlwaysEnough(schedule: seq<Move>)
    ensures Enough(Exec(schedule))
  {
    hide Enough, Step;
    if schedule == [] {
      EnoughAtStart();
    } else {
      AlwaysEnough(schedule[..|schedule| - 1]);
      StepEnough(Exec(schedule[..|schedule| - 1]), schedule[|schedule| - 1]);
    }
  }

  lemma EnoughAtStart()
    ensures Enough(START)
  {}

  /** In every run the scan calls back for each ready entry it comes to: counting the entries left to handle
      never ends it before. */
  lemma ReadyIsCalled(schedule: seq<Move>, reported: seq<nat>)
    requires var s := Exec(schedule); s.phase.Scanning? && s.phase.i < |s.table| && IsReady(s.table[s.phase.i])
    ensures var s, s' := Exec(schedule), Step(Exec(schedule), Go(reported));
      Calls(s') && s'.table == s.table && Caller(s') == s.table[s.phase.i].info.descriptor
  {
    hide Exec, Ready;
    AlwaysEnough(schedule);
    Always(schedule);
    var s := Exec(schedule);
    ReadyStep(s.table, s.phase.i);
    ReadyPrefix(s.table, s.phase.i + 1);
  }

  /** And it ends only when no ready entry is left. */
  lemma ScanEnds(schedule: seq<Move>, reported: seq<nat>, j: nat)
    requires var s := Exec(schedule); s.phase.Scanning? && s.phase.i <= j < |s.table|
    requires Step(Exec(schedule), Go(reported)).phase.Applying?
    ensures !IsReady(Exec(schedule).table[j])
  {
    hide Exec, Ready;
    AlwaysEnough(schedule);
    var s := Exec(schedule);
    ReadyStep(s.table, j);
    ReadyPrefix(s.table, j + 1);
    ReadyPrefix(s.table[..j], s.phase.i);
    assert s.table[..j][..s.phase.i] == s.table[..s.phase.i];
  }
}
