/** That the connections of module Lifecycle are not forgotten: as long as no peer hangs up and no recv fails
    there is always a way to go on with each of them, and what waits for the poll thread can still fire. */
module Continuation {
  import opened Lifecycle
  import opened LifecycleProof

  // ----- Every open connection goes on -----

  /** The decision lets nobody go: poll() reports no POLLHUP, and recv neither fails nor ends. */
  ghost predicate Keeps(s: State, m: Move) {
    match m
    case Go(_, _, hup) => !hup
    case Work(job, choice) => !(choice.First? && job in s.jobs && s.jobs[job].at.Reading?)
    case _ => true
  }

  ghost predicate KeepsAll(schedule: seq<Move>) {
    schedule == [] ||
    (KeepsAll(schedule[..|schedule| - 1]) && Keeps(Exec(schedule[..|schedule| - 1]), schedule[|schedule| - 1]))
  }

  ghost predicate HasJob(s: State, c: Conn) { exists i :: i in s.jobs && s.jobs[i].conn == c }

  ghost predicate HasQueued(s: State, c: Conn) {
    exists i :: 0 <= i < |s.queue| && s.queue[i].Register? && s.queue[i].conn == c
  }

  ghost predicate HasArmed(s: State, c: Conn) { exists f :: Armed(s, f) && s.table[f].conn == c }

  ghost predicate Fires(s: State, c: Conn) { s.place.Firing? && s.place.conn == c }

  ghost predicate GoesOn(s: State, c: Conn) { HasJob(s, c) || HasQueued(s, c) || HasArmed(s, c) || Fires(s, c) }

  ghost predicate NobodyLost(s: State) {
    && (forall c :: c in s.open ==> GoesOn(s, c))
    && (forall i :: i in s.jobs ==> s.jobs[i].at != InBlock(true) && s.jobs[i].at != OutBlock(true))
  }

  /** What is shared between two states is a way to go on in both. */
  lemma StillGoes(s: State, s': State, c: Conn)
    requires GoesOn(s, c)
    requires HasJob(s, c) ==> HasJob(s', c)
    requires HasQueued(s, c) ==> HasQueued(s', c) || HasArmed(s', c)
    requires HasArmed(s, c) ==> HasArmed(s', c) || Fires(s', c)
    requires Fires(s, c) ==> Fires(s', c) || HasJob(s', c)
    ensures GoesOn(s', c)
  {}

  lemma SameWaiters(s: State, s': State, c: Conn)
    requires s'.table == s.table && s'.fires == s.fires && s.queue <= s'.queue
    ensures HasQueued(s, c) ==> HasQueued(s', c)
    ensures HasArmed(s, c) ==> HasArmed(s', c)
  {
    if HasArmed(s, c) {
      var f :| Armed(s, f) && s.table[f].conn == c;
      assert Armed(s', f);
    }
    if HasQueued(s, c) {
      var i :| 0 <= i < |s.queue| && s.queue[i].Register? && s.queue[i].conn == c;
      assert s'.queue[i] == s.queue[i];
    }
  }

  lemma AcceptKeeps(s: State, f: Fd)
    requires NobodyLost(s) && Inv(s)
    ensures NobodyLost(Step(s, Accept(f)))
  {
    hide Sockets, QueueOk, TableOk, PlaceOk, StagesOk, SerialsOk, Accounted, HasQueued, HasArmed;
    var s' := Step(s, Accept(f));
    if s' != s {
      forall c | c in s'.open ensures GoesOn(s', c) {
        if c == s.accepted {
          assert s'.jobs[s.started].conn == c;
        } else {
          SameWaiters(s, s', c);
          JobsStay(s, s', c);
        }
      }
    }
  }

  /** A new job ends no other. */
  lemma JobsStay(s: State, s': State, c: Conn)
    requires forall i :: i in s.jobs ==> i in s'.jobs && s'.jobs[i] == s.jobs[i]
    ensures HasJob(s, c) ==> HasJob(s', c)
  {
    if HasJob(s, c) {
      var i :| i in s.jobs && s.jobs[i].conn == c;
      assert i in s'.jobs && s'.jobs[i].conn == c;
    }
  }

  lemma DeallocKeeps(s: State, c: Conn)
    requires NobodyLost(s) && Inv(s)
    ensures NobodyLost(Start(s, c, Unregistering))
  {
    hide Sockets, QueueOk, TableOk, PlaceOk, StagesOk, SerialsOk, Accounted, HasQueued, HasArmed;
    var s' := Start(s, c, Unregistering);
    forall d | d in s'.open ensures GoesOn(s', d) {
      SameWaiters(s, s', d);
      JobsStay(s, s', d);
    }
  }

  /** A job that is replaced by one of the same connection, hands it to the poll thread, or closes it. */
  lemma WorkKeeps(s: State, job: nat, choice: Choice)
    requires NobodyLost(s) && Inv(s) && job in s.jobs && s.jobs[job].conn in s.open
    requires Keeps(s, Work(job, choice))
    ensures NobodyLost(WorkStep(s, job, choice))
  {
    hide Inv, GoesOn, Rearm, Start;
    var s', c := WorkStep(s, job, choice), s.jobs[job].conn;
    WorkersStay(s, job, choice);
    forall d | d in s'.open ensures GoesOn(s', d) {
      if d == c {
        WorkerGoesOn(s, job, choice);
      } else {
        OtherGoesOn(s, job, choice, d);
      }
    }
  }

  lemma WorkersStay(s: State, job: nat, choice: Choice)
    requires job in s.jobs && s.jobs[job].conn in s.open && NobodyLost(s) && Inv(s)
    ensures forall i :: i in s.jobs ==> i < s.started
    ensures var s' := WorkStep(s, job, choice);
      && s'.open == (if s.jobs[job].at.Closing? then s.open - {s.jobs[job].conn} else s.open)
      && forall i :: i in s'.jobs ==> s'.jobs[i].at != InBlock(true) && s'.jobs[i].at != OutBlock(true)
  {
    hide GoesOn, Sockets, QueueOk, TableOk, PlaceOk, StagesOk, SerialsOk, Accounted;
  }

  lemma OtherGoesOn(s: State, job: nat, choice: Choice, d: Conn)
    requires job in s.jobs && s.jobs[job].conn in s.open && d != s.jobs[job].conn && GoesOn(s, d)
    requires forall i :: i in s.jobs ==> i < s.started
    ensures GoesOn(WorkStep(s, job, choice), d)
  {
    hide HasQueued, HasArmed;
    var s' := WorkStep(s, job, choice);
    SameWaiters(s, s', d);
    if HasJob(s, d) {
      var i :| i in s.jobs && s.jobs[i].conn == d;
      assert i in s'.jobs && s'.jobs[i].conn == d;
    }
  }

  lemma WorkerGoesOn(s: State, job: nat, choice: Choice)
    requires job in s.jobs && s.jobs[job].conn in s.open && Keeps(s, Work(job, choice))
    requires s.jobs[job].at != InBlock(true) && s.jobs[job].at != OutBlock(true) && !s.jobs[job].at.Closing?
    ensures GoesOn(WorkStep(s, job, choice), s.jobs[job].conn)
  {
    hide HasArmed;
    var s', c := WorkStep(s, job, choice), s.jobs[job].conn;
    if |s'.queue| > |s.queue| && s'.queue[|s.queue|].Register? {
      assert s'.queue[|s.queue|].conn == c;
    } else if job in s'.jobs {
      assert s'.jobs[job].conn == c;
    } else {
      assert s'.jobs[s.started].conn == c;
    }
  }

  lemma ApplyKeeps(s: State)
    requires NobodyLost(s) && Inv(s) && s.place.Applying? && s.queue != []
    ensures NobodyLost(Applied(s))
  {
    hide Sockets, PlaceOk, JobsOk, StagesOk, SerialsOk, Accounted;
    var s', u := Applied(s), s.queue[0];
    if u.Register? { RegisteredArmed(s); } else { UnregisteredArmed(s); }
    forall c | c in s'.open ensures GoesOn(s', c) {
      AppliedWaiters(s, c);
      assert HasJob(s, c) ==> HasJob(s', c);
    }
  }

  lemma AppliedWaiters(s: State, c: Conn)
    requires s.queue != [] && QueueOk(s)
    requires forall g :: Armed(Applied(s), g) <==> Armed(s, g) || (s.queue[0].Register? && g == s.queue[0].fd)
    requires forall g :: Armed(s, g) ==> g in Applied(s).table && Applied(s).table[g] == s.table[g]
    ensures HasQueued(s, c) ==> HasQueued(Applied(s), c) || HasArmed(Applied(s), c)
    ensures HasArmed(s, c) ==> HasArmed(Applied(s), c)
  {
    hide QueueOk;
    var s' := Applied(s);
    if HasQueued(s, c) {
      var i :| 0 <= i < |s.queue| && s.queue[i].Register? && s.queue[i].conn == c;
      if i == 0 {
        assert Armed(s', s.queue[0].fd) && s'.table[s.queue[0].fd].conn == c;
      } else {
        assert s'.queue[i - 1] == s.queue[i];
      }
    }
    if HasArmed(s, c) {
      var f :| Armed(s, f) && s.table[f].conn == c;
      assert Armed(s', f) && s'.table[f].conn == c;
    }
  }

  lemma FireKeeps(s: State, pick: Fd)
    requires NobodyLost(s) && Inv(s) && s.place.Scanning? && pick in s.place.todo && Armed(s, pick)
    ensures NobodyLost(Fired(s, pick))
  {
    hide Sockets, QueueOk, TableOk, PlaceOk, JobsOk, StagesOk, Accounted;
    var s' := Fired(s, pick);
    FiredArmed(s, pick);
    hide SerialsOk;
    forall c | c in s'.open ensures GoesOn(s', c) {
      assert HasJob(s, c) ==> HasJob(s', c);
      if HasQueued(s, c) {
        var i :| 0 <= i < |s.queue| && s.queue[i].Register? && s.queue[i].conn == c;
        assert s'.queue[i] == s.queue[i];
      }
      if HasArmed(s, c) {
        var f :| Armed(s, f) && s.table[f].conn == c;
        assert f != pick ==> Armed(s', f) && s'.table[f].conn == c;
      }
    }
  }

  /** Steps that leave the queue, the table's registrations and the jobs. */
  lemma PlaceKeeps(s: State, s': State)
    requires NobodyLost(s) && !s.place.Firing? && s'.jobs == s.jobs && s'.open == s.open
    requires s'.queue == s.queue && s'.fires == s.fires && s'.table.Keys == s.table.Keys
    requires forall f :: f in s.table ==> s'.table[f].serial == s.table[f].serial && s'.table[f].conn == s.table[f].conn
    ensures NobodyLost(s')
  {
    SameWaiting(s, s');
    forall c | c in s'.open ensures GoesOn(s', c) {
      assert HasJob(s, c) ==> HasJob(s', c);
      if HasQueued(s, c) {
        var i :| 0 <= i < |s.queue| && s.queue[i].Register? && s.queue[i].conn == c;
        assert s'.queue[i] == s.queue[i];
      }
      if HasArmed(s, c) {
        var f :| Armed(s, f) && s.table[f].conn == c;
        assert Armed(s', f) && s'.table[f].conn == c;
      }
    }
  }

  lemma DispatchKeeps(s: State, ready: set<Fd>, pick: Fd)
    requires NobodyLost(s) && Inv(s) && s.place.Firing?
    ensures NobodyLost(PollStep(s, ready, pick, false))
  {
    hide Sockets, QueueOk, TableOk, PlaceOk, StagesOk, SerialsOk, Accounted, HasQueued, HasArmed;
    var s' := PollStep(s, ready, pick, false);
    forall c | c in s'.open ensures GoesOn(s', c) {
      SameWaiters(s, s', c);
      JobsStay(s, s', c);
      if Fires(s, c) { assert s'.jobs[s.started].conn == c; }
    }
  }

  lemma GoKeeps(s: State, ready: set<Fd>, pick: Fd)
    requires NobodyLost(s) && Inv(s)
    ensures NobodyLost(PollStep(s, ready, pick, false))
  {
    hide NobodyLost, Inv;
    var s' := PollStep(s, ready, pick, false);
    match s.place
    case Applying(_) =>
      if s.queue != [] {
        assert s' == Applied(s);
        ApplyKeeps(s);
      } else {
        PlaceKeeps(s, s');
      }
    case Polling => PlaceKeeps(s, s');
    case Scanning(todo) =>
      if pick in todo && pick in s.table && s.table[pick].ready {
        ScannedArmed(s, pick);
        assert s' == Fired(s, pick);
        FireKeeps(s, pick);
      } else {
        PlaceKeeps(s, s');
      }
    case Firing(_, _, _) => DispatchKeeps(s, ready, pick);
  }

  lemma ScannedArmed(s: State, pick: Fd)
    requires Inv(s) && s.place.Scanning? && pick in s.place.todo
    ensures Armed(s, pick)
  {
    hide Sockets, QueueOk, TableOk, JobsOk, StagesOk, SerialsOk, Accounted;
  }

  lemma {:induction false} NobodyEverLost(schedule: seq<Move>)
    requires KeepsAll(schedule)
    ensures NobodyLost(Exec(schedule))
  {
    hide NobodyLost, Inv, WorkStep, PollStep, Start;
    if schedule == [] {
      NobodyAtStart();
    } else {
      var before, m := schedule[..|schedule| - 1], schedule[|schedule| - 1];
      NobodyEverLost(before);
      Always(before);
      var s := Exec(before);
      match m
      case Accept(f) => AcceptKeeps(s, f);
      case Work(job, choice) => if job in s.jobs && s.jobs[job].conn in s.open { WorkKeeps(s, job, choice); }
      case Dealloc(c) => if c in s.open && Unreferenced(s, c) { DeallocKeeps(s, c); }
      case Go(ready, pick, hup) => GoKeeps(s, ready, pick);
      case StopScan => if s.place.Scanning? { PlaceKeeps(s, s.(place := Applying(false))); }
    }
  }

  lemma NobodyAtStart()
    ensures NobodyLost(CREATED)
  {}

  /** As long as nobody is let go there is exactly one way to run more code of an open connection: none is
      forgotten, whatever the schedule. */
  lemma ExactlyOneContinuation(schedule: seq<Move>, c: Conn)
    requires KeepsAll(schedule) && c in Exec(schedule).open
    ensures Continuations(Exec(schedule), c) == 1
  {
    NobodyEverLost(schedule);
    AtMostOneContinuation(schedule, c);
    hide Exec;
    SomeContinuation(Exec(schedule), c);
  }

  lemma SomeContinuation(s: State, c: Conn)
    requires GoesOn(s, c)
    ensures Continuations(s, c) >= 1
  {
    var jobs := set i | i in s.jobs && s.jobs[i].conn == c;
    var queued := set i | 0 <= i < |s.queue| && s.queue[i].Register? && s.queue[i].conn == c;
    var armed := set f | f in s.table && Armed(s, f) && s.table[f].conn == c;
    if HasJob(s, c) {
      var i :| i in s.jobs && s.jobs[i].conn == c;
      assert i in jobs;
    } else if HasQueued(s, c) {
      var i :| 0 <= i < |s.queue| && s.queue[i].Register? && s.queue[i].conn == c;
      assert i in queued;
    } else if HasArmed(s, c) {
      var f :| Armed(s, f) && s.table[f].conn == c;
      assert f in armed;
    }
  }

  // ----- What waits can fire -----

  /** What the poll thread does on its own. */
  predicate PollMoves(more: seq<Move>) { forall k :: 0 <= k < |more| ==> more[k].Go? || more[k].StopScan? }

  lemma Then(schedule: seq<Move>, m: Move)
    ensures Exec(schedule + [m]) == Step(Exec(schedule), m)
  {
    assert (schedule + [m])[..|schedule|] == schedule;
  }

  const GO := Go({}, 0, false)

  /** The poll thread comes to applying updates, whatever it is doing. */
  lemma ReachApplying(schedule: seq<Move>) returns (more: seq<Move>)
    ensures PollMoves(more) && Exec(schedule + more).place.Applying?
  {
    hide Exec;
    var place := Exec(schedule).place;
    if place.Firing? {
      Then(schedule, GO);
      Then(schedule + [GO], StopScan);
      more := [GO, StopScan];
      assert schedule + more == schedule + [GO] + [StopScan];
    } else if place.Applying? {
      more := [];
      assert schedule + more == schedule;
    } else {
      var m := if place.Polling? then GO else StopScan;
      Then(schedule, m);
      more := [m];
    }
  }

  lemma {:induction false} DrainAll(schedule: seq<Move>) returns (more: seq<Move>)
    requires Exec(schedule).place.Applying?
    ensures PollMoves(more) && Exec(schedule + more).place == Exec(schedule).place && Exec(schedule + more).queue == []
    decreases |Exec(schedule).queue|
  {
    hide Exec;
    if Exec(schedule).queue == [] {
      more := [];
      assert schedule + more == schedule;
    } else {
      Then(schedule, GO);
      var rest := DrainAll(schedule + [GO]);
      more := [GO] + rest;
      assert schedule + more == schedule + [GO] + rest;
    }
  }

  /** With nothing queued the poll thread comes to poll(), and nothing has changed. */
  lemma ReachPoll(schedule: seq<Move>) returns (more: seq<Move>)
    requires Exec(schedule).place.Applying? && Exec(schedule).queue == []
    ensures PollMoves(more) && Exec(schedule + more) == Exec(schedule).(place := Polling)
  {
    hide Exec;
    if Exec(schedule).place.afterPoll {
      Then(schedule, GO);
      Then(schedule + [GO], StopScan);
      Then(schedule + [GO] + [StopScan], GO);
      more := [GO, StopScan, GO];
      assert schedule + more == schedule + [GO] + [StopScan] + [GO];
    } else {
      Then(schedule, GO);
      more := [GO];
    }
  }

  /** poll() reports an armed entry, and the scan reaches it. */
  lemma FireNow(schedule: seq<Move>, f: Fd) returns (more: seq<Move>)
    requires Exec(schedule).place.Polling? && Exec(schedule).queue == [] && Armed(Exec(schedule), f)
    ensures PollMoves(more) && Exec(schedule).table[f].serial in Exec(schedule + more).fires
  {
    hide Exec, Step;
    var report, pick := Go({f}, 0, false), Go({}, f, false);
    FireSteps(Exec(schedule), f);
    Then(schedule, report);
    Then(schedule + [report], GO);
    Then(schedule + [report] + [GO], pick);
    more := [report, GO, pick];
    assert schedule + more == schedule + [report] + [GO] + [pick];
  }

  lemma FireSteps(s: State, f: Fd)
    requires s.place.Polling? && s.queue == [] && Armed(s, f)
    ensures
      s.table[f].serial in Step(Step(Step(s, Go({f}, 0, false)), GO), Go({}, f, false)).fires
  {
    var polled := Step(s, Go({f}, 0, false));
    var scanning := Step(polled, GO);
    assert f in scanning.place.todo && scanning.table[f].ready;
    var fired := Step(scanning, Go({}, f, false));
    assert fired.fires[|s.fires|] == s.table[f].serial;
  }

  /** Every registration that was made has fired, or the poll thread alone can make it fire. */
  lemma WaitingCanFire(schedule: seq<Move>, k: nat) returns (more: seq<Move>)
    requires k < Exec(schedule).registered
    ensures PollMoves(more) && k in Exec(schedule + more).fires
  {
    hide Exec;
    var a := ReachApplying(schedule);
    var b := DrainAll(schedule + a);
    var c := ReachPoll(schedule + a + b);
    var before := schedule + a + b + c;
    RegisteredGrows(schedule, a + b + c);
    assert schedule + (a + b + c) == before;
    RegistrationsFireOnce(before, k);
    var s := Exec(before);
    more := a + b + c;
    if k !in s.fires {
      assert Waits(s, k);
      var f :| Armed(s, f) && s.table[f].serial == k;
      var d := FireNow(before, f);
      more := a + b + c + d;
      assert schedule + more == before + d;
    }
  }

  lemma StepRegisters(s: State, m: Move)
    ensures s.registered <= Step(s, m).registered
  {}

  lemma {:induction false} RegisteredGrows(schedule: seq<Move>, more: seq<Move>)
    ensures Exec(schedule).registered <= Exec(schedule + more).registered
  {
    hide Exec, Step;
    if more == [] {
      assert schedule + more == schedule;
    } else {
      var front, m := more[..|more| - 1], more[|more| - 1];
      RegisteredGrows(schedule, front);
      assert schedule + more == schedule + front + [m];
      Then(schedule + front, m);
      StepRegisters(Exec(schedule + front), m);
    }
  }

  // ----- Sending comes after processing -----

  /** Whoever sends, or waits to send, had its request processed. */
  ghost predicate JobsProcessed(s: State) {
    && (forall i :: i in s.jobs && (s.jobs[i].at.Sending? || s.jobs[i].at.OutBlock?) ==> s.jobs[i].conn in s.processed)
    && (s.place.Firing? && s.place.dir.Out? ==> s.place.conn in s.processed)
  }

  ghost predicate WaitersProcessed(s: State) {
    && (forall i :: 0 <= i < |s.queue| && s.queue[i].Register? && s.queue[i].dir.Out? ==>
          s.queue[i].conn in s.processed)
    && (forall f :: Armed(s, f) && s.table[f].dir.Out? ==> s.table[f].conn in s.processed)
  }

  ghost predicate SendersProcessed(s: State) { JobsProcessed(s) && WaitersProcessed(s) }

  lemma WorkSends(s: State, job: nat, choice: Choice)
    requires SendersProcessed(s) && job in s.jobs && s.jobs[job].conn in s.open
    ensures SendersProcessed(WorkStep(s, job, choice))
  {
    hide JobsProcessed, WaitersProcessed, WorkStep;
    WorkJobs(s, job, choice);
    WorkWaiters(s, job, choice);
  }

  lemma WorkJobs(s: State, job: nat, choice: Choice)
    requires JobsProcessed(s) && job in s.jobs && s.jobs[job].conn in s.open
    ensures JobsProcessed(WorkStep(s, job, choice))
  {
    var s' := WorkStep(s, job, choice);
    assert s.processed <= s'.processed;
    if s.jobs[job].at.ProcessBlock? { assert s'.processed[|s.processed|] == s.jobs[job].conn; }
  }

  lemma WorkWaiters(s: State, job: nat, choice: Choice)
    requires SendersProcessed(s) && job in s.jobs && s.jobs[job].conn in s.open
    ensures WaitersProcessed(WorkStep(s, job, choice))
  {
    var s', c := WorkStep(s, job, choice), s.jobs[job].conn;
    assert s.jobs[job].at.Sending? ==> c in s.processed;
    hide JobsProcessed;
    assert forall f :: Armed(s', f) <==> Armed(s, f);
    assert forall d :: d in s.processed ==> d in s'.processed;
  }

  lemma AppliedSends(s: State)
    requires SendersProcessed(s) && Inv(s) && s.place.Applying? && s.queue != []
    ensures SendersProcessed(Applied(s))
  {
    hide Sockets, PlaceOk, JobsOk, StagesOk, Accounted, SerialsOk;
    if s.queue[0].Register? { RegisteredArmed(s); } else { UnregisteredArmed(s); }
    hide QueueOk, TableOk;
  }

  lemma FiredSends(s: State, pick: Fd)
    requires SendersProcessed(s) && s.place.Scanning? && Armed(s, pick)
    ensures SendersProcessed(Fired(s, pick))
  {
    StillArmed(s, pick);
  }

  lemma PlaceSends(s: State, s': State)
    requires SendersProcessed(s) && s'.queue == s.queue && s'.fires == s.fires && s'.processed == s.processed
    requires s'.table.Keys == s.table.Keys && JobsProcessed(s')
    requires forall f :: f in s.table ==> s'.table[f].(ready := false) == s.table[f].(ready := false)
    ensures SendersProcessed(s')
  {
    hide Queued, Waits;
    SameWaiting(s, s');
  }

  lemma PollSends(s: State, ready: set<Fd>, pick: Fd, hup: bool)
    requires SendersProcessed(s) && Inv(s)
    ensures SendersProcessed(PollStep(s, ready, pick, hup))
  {
    hide Inv, WaitersProcessed;
    var s' := PollStep(s, ready, pick, hup);
    if s.place.Applying? && s.queue != [] {
      assert s' == Applied(s);
      AppliedSends(s);
    } else if s.place.Scanning? && pick in s.place.todo && pick in s.table && s.table[pick].ready {
      ScannedArmed(s, pick);
      assert s' == Fired(s, pick);
      FiredSends(s, pick);
    } else {
      PlaceSends(s, s');
    }
  }

  lemma StillArmed(s: State, pick: Fd)
    requires s.place.Scanning? && pick in s.table
    ensures forall f :: Armed(Fired(s, pick), f) ==> Armed(s, f)
  {}

  lemma {:induction false} SendersAlwaysProcessed(schedule: seq<Move>)
    ensures SendersProcessed(Exec(schedule))
  {
    hide Inv, WorkStep, PollStep;
    if schedule != [] {
      var before, m := schedule[..|schedule| - 1], schedule[|schedule| - 1];
      SendersAlwaysProcessed(before);
      Always(before);
      var s := Exec(before);
      match m
      case Work(job, choice) => if job in s.jobs && s.jobs[job].conn in s.open { WorkSends(s, job, choice); }
      case Go(ready, pick, hup) => PollSends(s, ready, pick, hup);
      case _ => assert forall f :: Armed(Step(s, m), f) <==> Armed(s, f);
    }
  }

  /** Nothing is sent on a connection whose request was not processed. */
  lemma SentIsProcessed(schedule: seq<Move>, job: nat)
    requires job in Exec(schedule).jobs && Exec(schedule).jobs[job].at.Sending?
    ensures Exec(schedule).jobs[job].conn in Exec(schedule).processed
  {
    SendersAlwaysProcessed(schedule);
  }
}
