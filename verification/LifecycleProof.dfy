/** What the connections and the poll thread of module Lifecycle keep under every schedule. */
module LifecycleProof {
  import opened Lifecycle

  // ----- The invariant -----

  /** Open sockets are distinct. */
  ghost predicate Sockets(s: State) {
    && (forall c :: c in s.open ==> c < s.accepted)
    && (forall c, d :: c in s.open && d in s.open && c != d ==> s.open[c] != s.open[d])
  }

  /** A queued registration is for an open socket, has not fired, and is the last update for its descriptor. */
  ghost predicate QueueOk(s: State) {
    && (forall i :: 0 <= i < |s.queue| && s.queue[i].Register? ==>
          var u := s.queue[i];
          u.conn in s.open && s.open[u.conn] == u.fd && u.serial < s.registered && u.serial !in s.fires)
    && (forall i, j :: 0 <= i < j < |s.queue| && s.queue[i].Register? ==> s.queue[j].fd != s.queue[i].fd)
  }

  /** An armed entry belongs to an open socket and no update for it is queued; for one that has fired, its
      removal is queued. */
  ghost predicate TableOk(s: State) {
    && (forall f :: f in s.table ==> s.table[f].serial < s.registered)
    && (forall f :: Armed(s, f) ==>
          && s.table[f].conn in s.open && s.open[s.table[f].conn] == f
          && forall j :: 0 <= j < |s.queue| ==> s.queue[j].fd != f)
    && (forall f :: f in s.table && !Armed(s, f) ==> exists j :: 0 <= j < |s.queue| && s.queue[j] == Unregister(f))
  }

  /** Entries that have fired are gone before the next poll(), and the scan reaches no entry twice. */
  ghost predicate PlaceOk(s: State) {
    && (s.place.Polling? || s.place == Applying(true) ==> forall f :: f in s.table ==> Armed(s, f))
    && (s.place.Scanning? || s.place.Firing? ==> forall f :: f in s.place.todo ==> Armed(s, f))
  }

  /** c is not waiting for the poll thread. */
  ghost predicate Quiet(s: State, c: Conn) {
    && c in s.open
    && (forall i :: 0 <= i < |s.queue| && s.queue[i].Register? ==> s.queue[i].conn != c)
    && (forall f :: Armed(s, f) ==> s.table[f].conn != c)
  }

  /** Code runs for a connection once at most, and only while it is not waiting. */
  ghost predicate JobsOk(s: State) {
    && (forall i :: i in s.jobs ==> i < s.started)
    && (forall i :: i in s.jobs ==> Quiet(s, s.jobs[i].conn))
    && (forall i, j :: i in s.jobs && j in s.jobs && i != j ==> s.jobs[i].conn != s.jobs[j].conn)
    && (s.place.Firing? ==> Quiet(s, s.place.conn) && forall i :: i in s.jobs ==> s.jobs[i].conn != s.place.conn)
  }

  predicate BeforeProcessing(at: At) { at.InBlock? || at.Reading? || at.ProcessBlock? }

  /** A processed connection never reads again. */
  ghost predicate StagesOk(s: State) {
    && (forall c :: c in s.processed ==> c < s.accepted)
    && (forall i, j :: 0 <= i < j < |s.processed| ==> s.processed[i] != s.processed[j])
    && (forall i :: i in s.jobs && BeforeProcessing(s.jobs[i].at) ==> s.jobs[i].conn !in s.processed)
    && (forall i :: 0 <= i < |s.queue| && s.queue[i].Register? && s.queue[i].dir.In? ==>
          s.queue[i].conn !in s.processed)
    && (forall f :: Armed(s, f) && s.table[f].dir.In? ==> s.table[f].conn !in s.processed)
    && (s.place.Firing? && s.place.dir.In? ==> s.place.conn !in s.processed)
  }

  /** Serials are distinct. */
  ghost predicate SerialsOk(s: State) {
    && (forall k :: k in s.fires ==> k < s.registered)
    && (forall i, j :: 0 <= i < j < |s.fires| ==> s.fires[i] != s.fires[j])
    && (forall i, j :: 0 <= i < j < |s.queue| && s.queue[i].Register? && s.queue[j].Register? ==>
          s.queue[i].serial != s.queue[j].serial)
    && (forall f, g :: f in s.table && g in s.table && f != g ==> s.table[f].serial != s.table[g].serial)
    && (forall f, i :: f in s.table && 0 <= i < |s.queue| && s.queue[i].Register? ==>
          s.table[f].serial != s.queue[i].serial)
  }

  ghost predicate Queued(s: State, serial: nat) {
    exists i :: 0 <= i < |s.queue| && s.queue[i].Register? && s.queue[i].serial == serial
  }

  ghost predicate Waits(s: State, serial: nat) { exists f :: Armed(s, f) && s.table[f].serial == serial }

  /** No registration is lost. */
  ghost predicate Accounted(s: State) {
    forall k: nat :: k < s.registered ==> k in s.fires || Queued(s, k) || Waits(s, k)
  }

  ghost predicate Inv(s: State) {
    Sockets(s) && QueueOk(s) && TableOk(s) && PlaceOk(s) && JobsOk(s) && StagesOk(s) && SerialsOk(s) && Accounted(s)
  }

  // ----- Steps -----

  /** What only connection code changes leaves the poll thread's side as it was. */
  lemma PollSideKept(s: State, s': State)
    requires Inv(s) && s'.place == s.place && s'.queue == s.queue && s'.table == s.table && s'.open == s.open
    requires s'.registered == s.registered && s'.fires == s.fires && s'.accepted == s.accepted
    ensures Sockets(s') && QueueOk(s') && TableOk(s') && PlaceOk(s') && SerialsOk(s') && Accounted(s')
    ensures forall c :: Quiet(s, c) ==> Quiet(s', c)
  {
    assert forall g :: Armed(s', g) <==> Armed(s, g);
    assert forall k: nat :: Queued(s, k) ==> Queued(s', k);
    assert forall k: nat :: Waits(s, k) ==> Waits(s', k);
  }

  lemma AcceptInv(s: State, f: Fd)
    requires Inv(s)
    ensures Inv(Step(s, Accept(f)))
  {
    hide Sockets, QueueOk, TableOk, PlaceOk, JobsOk, StagesOk, SerialsOk, Accounted, Step;
    AcceptTable(s, f);
    AcceptSerials(s, f);
    AcceptJobs(s, f);
    AcceptStages(s, f);
  }

  lemma AcceptTable(s: State, f: Fd)
    requires Inv(s)
    ensures var s' := Step(s, Accept(f)); Sockets(s') && QueueOk(s') && TableOk(s') && PlaceOk(s')
  {
    hide JobsOk, StagesOk, SerialsOk, Accounted;
    var s' := Step(s, Accept(f));
    assert forall g :: Armed(s', g) <==> Armed(s, g);
  }

  lemma AcceptJobs(s: State, f: Fd)
    requires Inv(s)
    ensures JobsOk(Step(s, Accept(f)))
  {
    hide StagesOk, SerialsOk, Accounted, PlaceOk, QueueOk, TableOk, Quiet;
    AcceptQuiet(s, f);
    QuietOpen(s);
  }

  lemma QuietOpen(s: State)
    ensures forall c :: Quiet(s, c) ==> c in s.open
  {}

  /** A connection that is just accepted waits for nothing, and the others go on as they were. */
  lemma AcceptQuiet(s: State, f: Fd)
    requires Sockets(s) && QueueOk(s) && TableOk(s)
    ensures forall c :: Quiet(s, c) ==> Quiet(Step(s, Accept(f)), c)
    ensures f !in s.open.Values ==> Quiet(Step(s, Accept(f)), s.accepted)
  {
    var s' := Step(s, Accept(f));
    assert forall g :: Armed(s', g) <==> Armed(s, g);
  }

  lemma AcceptStages(s: State, f: Fd)
    requires Inv(s)
    ensures StagesOk(Step(s, Accept(f)))
  {
    hide JobsOk, SerialsOk, Accounted, PlaceOk, QueueOk, TableOk, Sockets;
    var s' := Step(s, Accept(f));
    assert forall g :: Armed(s', g) <==> Armed(s, g);
  }

  lemma AcceptSerials(s: State, f: Fd)
    requires Inv(s)
    ensures var s' := Step(s, Accept(f)); SerialsOk(s') && Accounted(s')
  {
    hide JobsOk, StagesOk, QueueOk, TableOk, Sockets, PlaceOk;
    SameWaiting(s, Step(s, Accept(f)));
  }

  /** A registration that waits goes on waiting. */
  lemma SameWaiting(s: State, s': State)
    requires s'.queue == s.queue && s'.fires == s.fires && s'.table.Keys == s.table.Keys
    requires forall f :: f in s.table ==> s'.table[f].serial == s.table[f].serial
    ensures forall f :: Armed(s', f) <==> Armed(s, f)
    ensures forall k: nat :: Queued(s, k) ==> Queued(s', k)
    ensures forall k: nat :: Waits(s, k) ==> Waits(s', k)
  {
    assert forall g :: g in s.table <==> g in s.table.Keys;
    assert forall g :: g in s'.table <==> g in s'.table.Keys;
    assert forall g :: Armed(s', g) <==> Armed(s, g);
  }

  lemma JobQuiet(s: State, job: nat)
    requires JobsOk(s) && job in s.jobs
    ensures Quiet(s, s.jobs[job].conn)
  {}

  /** Appending to the queue loses nothing that is in it. */
  lemma EnqueuedKept(s: State, s': State)
    requires |s'.queue| == |s.queue| + 1 && s'.queue[..|s.queue|] == s.queue
    requires s'.table == s.table && s'.fires == s.fires
    ensures forall f :: (exists j :: 0 <= j < |s.queue| && s.queue[j] == Unregister(f)) ==>
                        exists j :: 0 <= j < |s'.queue| && s'.queue[j] == Unregister(f)
    ensures forall k: nat :: Queued(s, k) ==> Queued(s', k)
    ensures forall k: nat :: Waits(s, k) ==> Waits(s', k)
  {
    assert forall j :: 0 <= j < |s.queue| ==> s'.queue[j] == s'.queue[..|s.queue|][j];
    assert forall g :: Armed(s', g) <==> Armed(s, g);
  }

  lemma RearmInv(s: State, job: nat, dir: Direction)
    requires Inv(s) && job in s.jobs && s.jobs[job].conn in s.open
    requires dir.In? ==> s.jobs[job].conn !in s.processed
    ensures Inv(Rearm(s, job, dir))
  {
    hide Sockets, QueueOk, TableOk, PlaceOk, JobsOk, StagesOk, SerialsOk, Accounted, Rearm;
    RearmTable(s, job, dir);
    RearmSerials(s, job, dir);
    RearmJobs(s, job, dir);
    RearmStages(s, job, dir);
  }

  lemma RearmTable(s: State, job: nat, dir: Direction)
    requires Inv(s) && job in s.jobs && s.jobs[job].conn in s.open
    ensures var s' := Rearm(s, job, dir); Sockets(s') && QueueOk(s') && TableOk(s') && PlaceOk(s')
  {
    hide JobsOk, StagesOk, SerialsOk, Accounted;
    var s' := Rearm(s, job, dir);
    JobQuiet(s, job);
    NextNotFired(s);
    assert forall g :: Armed(s', g) <==> Armed(s, g);
    EnqueuedKept(s, s');
  }

  lemma NextNotFired(s: State)
    requires SerialsOk(s)
    ensures s.registered !in s.fires
  {}

  lemma RearmSerials(s: State, job: nat, dir: Direction)
    requires Inv(s) && job in s.jobs && s.jobs[job].conn in s.open
    ensures SerialsOk(Rearm(s, job, dir)) && Accounted(Rearm(s, job, dir))
  {
    hide Sockets, PlaceOk, JobsOk, StagesOk, Queued, Waits;
    var s' := Rearm(s, job, dir);
    EnqueuedKept(s, s');
    AtEndQueued(s');
  }

  lemma AtEndQueued(s: State)
    requires s.queue != [] && s.queue[|s.queue| - 1].Register?
    ensures Queued(s, s.queue[|s.queue| - 1].serial)
  {}

  lemma RearmJobs(s: State, job: nat, dir: Direction)
    requires Inv(s) && job in s.jobs && s.jobs[job].conn in s.open
    ensures JobsOk(Rearm(s, job, dir))
  {
    hide Sockets, QueueOk, TableOk, PlaceOk, StagesOk, SerialsOk, Accounted, Quiet;
    OthersQuiet(s, Rearm(s, job, dir), s.jobs[job].conn);
  }

  /** Only c may have come to wait for the poll thread. */
  lemma OthersQuiet(s: State, s': State, c: Conn)
    requires s'.open == s.open && s'.table == s.table && s'.fires == s.fires
    requires |s'.queue| == |s.queue| + 1 && s'.queue[..|s.queue|] == s.queue
    requires s'.queue[|s.queue|].Register? ==> s'.queue[|s.queue|].conn == c
    ensures forall d :: d != c && Quiet(s, d) ==> Quiet(s', d)
    ensures s'.queue[|s.queue|].Unregister? ==> forall d :: Quiet(s, d) ==> Quiet(s', d)
  {
    assert forall j :: 0 <= j < |s.queue| ==> s'.queue[j] == s'.queue[..|s.queue|][j];
    assert forall g :: Armed(s', g) <==> Armed(s, g);
  }

  lemma RearmStages(s: State, job: nat, dir: Direction)
    requires Inv(s) && job in s.jobs && s.jobs[job].conn in s.open
    requires dir.In? ==> s.jobs[job].conn !in s.processed
    ensures StagesOk(Rearm(s, job, dir))
  {
    hide Sockets, QueueOk, TableOk, PlaceOk, JobsOk, SerialsOk, Accounted;
    var s' := Rearm(s, job, dir);
    assert forall g :: Armed(s', g) <==> Armed(s, g);
  }

  lemma UnregisterInv(s: State, job: nat)
    requires Inv(s) && job in s.jobs && s.jobs[job].conn in s.open && s.jobs[job].at.Unregistering?
    ensures Inv(WorkStep(s, job, First))
  {
    hide Sockets, QueueOk, TableOk, PlaceOk, JobsOk, StagesOk, SerialsOk, Accounted, WorkStep;
    UnregisterTable(s, job);
    UnregisterSerials(s, job);
    UnregisterJobs(s, job);
    UnregisterStages(s, job);
  }

  lemma UnregisterTable(s: State, job: nat)
    requires Inv(s) && job in s.jobs && s.jobs[job].conn in s.open && s.jobs[job].at.Unregistering?
    ensures var s' := WorkStep(s, job, First); Sockets(s') && QueueOk(s') && TableOk(s') && PlaceOk(s')
  {
    hide JobsOk, StagesOk, SerialsOk, Accounted;
    var s' := WorkStep(s, job, First);
    JobQuiet(s, job);
    assert forall g :: Armed(s', g) <==> Armed(s, g);
    EnqueuedKept(s, s');
  }

  lemma UnregisterSerials(s: State, job: nat)
    requires Inv(s) && job in s.jobs && s.jobs[job].conn in s.open && s.jobs[job].at.Unregistering?
    ensures SerialsOk(WorkStep(s, job, First)) && Accounted(WorkStep(s, job, First))
  {
    hide Sockets, QueueOk, TableOk, PlaceOk, JobsOk, StagesOk, Queued, Waits;
    EnqueuedKept(s, WorkStep(s, job, First));
  }

  lemma UnregisterJobs(s: State, job: nat)
    requires Inv(s) && job in s.jobs && s.jobs[job].conn in s.open && s.jobs[job].at.Unregistering?
    ensures JobsOk(WorkStep(s, job, First))
  {
    hide Sockets, QueueOk, TableOk, PlaceOk, StagesOk, SerialsOk, Accounted, Quiet;
    OthersQuiet(s, WorkStep(s, job, First), s.jobs[job].conn);
  }

  lemma UnregisterStages(s: State, job: nat)
    requires Inv(s) && job in s.jobs && s.jobs[job].conn in s.open && s.jobs[job].at.Unregistering?
    ensures StagesOk(WorkStep(s, job, First))
  {
    hide Sockets, QueueOk, TableOk, PlaceOk, JobsOk, SerialsOk, Accounted;
    var s' := WorkStep(s, job, First);
    assert forall g :: Armed(s', g) <==> Armed(s, g);
  }

  lemma CloseInv(s: State, job: nat)
    requires Inv(s) && job in s.jobs && s.jobs[job].conn in s.open && s.jobs[job].at.Closing?
    ensures Inv(WorkStep(s, job, First))
  {
    hide Sockets, QueueOk, TableOk, PlaceOk, JobsOk, StagesOk, SerialsOk, Accounted, WorkStep;
    CloseTable(s, job);
    CloseSerials(s, job);
    CloseJobs(s, job);
    CloseStages(s, job);
  }

  lemma CloseTable(s: State, job: nat)
    requires Inv(s) && job in s.jobs && s.jobs[job].conn in s.open && s.jobs[job].at.Closing?
    ensures var s' := WorkStep(s, job, First); Sockets(s') && QueueOk(s') && TableOk(s') && PlaceOk(s')
  {
    hide JobsOk, StagesOk, SerialsOk, Accounted;
    var s' := WorkStep(s, job, First);
    JobQuiet(s, job);
    assert forall g :: Armed(s', g) <==> Armed(s, g);
  }

  lemma CloseSerials(s: State, job: nat)
    requires Inv(s) && job in s.jobs && s.jobs[job].conn in s.open && s.jobs[job].at.Closing?
    ensures SerialsOk(WorkStep(s, job, First)) && Accounted(WorkStep(s, job, First))
  {
    hide Sockets, QueueOk, TableOk, PlaceOk, JobsOk, StagesOk, Queued, Waits;
    SameWaiting(s, WorkStep(s, job, First));
  }

  lemma CloseJobs(s: State, job: nat)
    requires Inv(s) && job in s.jobs && s.jobs[job].conn in s.open && s.jobs[job].at.Closing?
    ensures JobsOk(WorkStep(s, job, First))
  {
    hide Sockets, QueueOk, TableOk, PlaceOk, StagesOk, SerialsOk, Accounted;
    var s', c := WorkStep(s, job, First), s.jobs[job].conn;
    assert forall g :: Armed(s', g) <==> Armed(s, g);
    assert forall d :: d != c && Quiet(s, d) ==> Quiet(s', d);
    hide Quiet;
  }

  lemma CloseStages(s: State, job: nat)
    requires Inv(s) && job in s.jobs && s.jobs[job].conn in s.open && s.jobs[job].at.Closing?
    ensures StagesOk(WorkStep(s, job, First))
  {
    hide Sockets, QueueOk, TableOk, PlaceOk, JobsOk, SerialsOk, Accounted;
    var s' := WorkStep(s, job, First);
    assert forall g :: Armed(s', g) <==> Armed(s, g);
  }

  lemma WorkInv(s: State, job: nat, choice: Choice)
    requires Inv(s) && job in s.jobs && s.jobs[job].conn in s.open
    ensures Inv(WorkStep(s, job, choice))
  {
    hide Inv, Rearm, Start;
    var at := s.jobs[job].at;
    if (at.Reading? && choice.Third?) || (at.Sending? && !choice.First?) {
      RearmedInv(s, job, choice);
    } else if at.Unregistering? {
      UnregisterInv(s, job);
    } else if at.Closing? {
      CloseInv(s, job);
    } else {
      ContinuedInv(s, job, choice);
    }
  }

  lemma RearmedInv(s: State, job: nat, choice: Choice)
    requires Inv(s) && job in s.jobs && s.jobs[job].conn in s.open
    requires var at := s.jobs[job].at; (at.Reading? && choice.Third?) || (at.Sending? && !choice.First?)
    ensures Inv(WorkStep(s, job, choice))
  {
    hide Sockets, QueueOk, TableOk, PlaceOk, JobsOk, SerialsOk, Accounted, Rearm;
    RearmInv(s, job, if s.jobs[job].at.Reading? then In else Out);
    hide StagesOk;
  }

  /** The job goes on without the poll thread, or ends. */
  predicate GoesOn(at: At, choice: Choice) {
    !(at.Reading? && choice.Third?) && !(at.Sending? && !choice.First?) && !at.Unregistering? && !at.Closing?
  }

  lemma ContinuedInv(s: State, job: nat, choice: Choice)
    requires Inv(s) && job in s.jobs && s.jobs[job].conn in s.open && GoesOn(s.jobs[job].at, choice)
    ensures Inv(WorkStep(s, job, choice))
  {
    hide Sockets, QueueOk, TableOk, PlaceOk, JobsOk, StagesOk, SerialsOk, Accounted, Quiet;
    PollSideKept(s, WorkStep(s, job, choice));
    ContinuedJobs(s, job, choice);
    ContinuedStages(s, job, choice);
    hide WorkStep;
  }

  lemma ContinuedJobs(s: State, job: nat, choice: Choice)
    requires Inv(s) && job in s.jobs && s.jobs[job].conn in s.open && GoesOn(s.jobs[job].at, choice)
    ensures JobsOk(WorkStep(s, job, choice))
  {
    hide Sockets, QueueOk, TableOk, PlaceOk, SerialsOk, Accounted, StagesOk, Quiet;
    var s' := WorkStep(s, job, choice);
    assert forall c :: Quiet(s, c) ==> Quiet(s', c) by { PollSideKept(s, s'); }
    OneJobChanged(s, s', job);
  }

  /** At most one job in place of one for the same connection. */
  lemma OneJobChanged(s: State, s': State, job: nat)
    requires JobsOk(s) && job in s.jobs && s.started <= s'.started && s'.place == s.place
    requires forall c :: Quiet(s, c) ==> Quiet(s', c)
    requires forall i :: i in s'.jobs ==> i < s'.started
    requires forall i :: i in s'.jobs && i != job && i < s.started ==> i in s.jobs && s'.jobs[i] == s.jobs[i]
    requires forall i :: i in s'.jobs && (i == job || i >= s.started) ==> s'.jobs[i].conn == s.jobs[job].conn
    requires forall i, j :: i in s'.jobs && j in s'.jobs && i != j && i >= s.started ==> j != job && j < s.started
    ensures JobsOk(s')
  {
    hide Quiet;
  }

  lemma ContinuedStages(s: State, job: nat, choice: Choice)
    requires Inv(s) && job in s.jobs && s.jobs[job].conn in s.open && GoesOn(s.jobs[job].at, choice)
    ensures StagesOk(WorkStep(s, job, choice))
  {
    hide Sockets, QueueOk, TableOk, PlaceOk, SerialsOk, Accounted, JobsOk, Quiet;
    var s' := WorkStep(s, job, choice);
    assert forall g :: Armed(s', g) <==> Armed(s, g);
    if s.jobs[job].at.ProcessBlock? { ProcessedStages(s, job); }
  }

  /** The connection that is now processed does nothing that comes before. */
  lemma ProcessedStages(s: State, job: nat)
    requires Inv(s) && job in s.jobs && s.jobs[job].conn in s.open && s.jobs[job].at.ProcessBlock?
    ensures StagesOk(WorkStep(s, job, First))
  {
    hide QueueOk, TableOk, PlaceOk, SerialsOk, Accounted;
    var s', c := WorkStep(s, job, First), s.jobs[job].conn;
    JobQuiet(s, job);
    assert forall g :: Armed(s', g) <==> Armed(s, g);
    assert forall i :: i in s.jobs && i != job ==> s'.jobs[i] == s.jobs[i] && s.jobs[i].conn != c;
    assert s.place.Firing? ==> s.place.conn != c;
    hide JobsOk;
  }

  function Applied(s: State): State
    requires s.queue != []
  {
    s.(table := Apply(s.table, s.queue[0]), queue := s.queue[1..])
  }

  lemma RegisteredInv(s: State)
    requires Inv(s) && s.place.Applying? && s.queue != [] && s.queue[0].Register?
    ensures Inv(Applied(s))
  {
    hide Sockets, QueueOk, TableOk, PlaceOk, JobsOk, StagesOk, SerialsOk, Accounted, Applied;
    RegisteredTable(s);
    RegisteredSerials(s);
    RegisteredJobs(s);
    RegisteredStages(s);
  }

  lemma RegisteredArmed(s: State)
    requires QueueOk(s) && TableOk(s) && s.queue != [] && s.queue[0].Register?
    ensures forall g :: Armed(Applied(s), g) <==> Armed(s, g) || g == s.queue[0].fd
    ensures forall g :: Armed(s, g) ==> Applied(s).table[g] == s.table[g]
    ensures s.queue[0].fd !in s.table
  {
    NoEntryYet(s);
  }

  lemma RegisteredTable(s: State)
    requires Inv(s) && s.place.Applying? && s.queue != [] && s.queue[0].Register?
    ensures var s' := Applied(s); Sockets(s') && QueueOk(s') && TableOk(s') && PlaceOk(s')
  {
    hide JobsOk, StagesOk, SerialsOk, Accounted;
    RegisteredArmed(s);
    AppliedKept(s, Applied(s));
  }

  lemma RegisteredSerials(s: State)
    requires Inv(s) && s.place.Applying? && s.queue != [] && s.queue[0].Register?
    ensures SerialsOk(Applied(s)) && Accounted(Applied(s))
  {
    hide Sockets, PlaceOk, JobsOk, StagesOk, Queued;
    var s', u := Applied(s), s.queue[0];
    RegisteredArmed(s);
    hide QueueOk, TableOk;
    AppliedKept(s, s');
    assert s'.table[u.fd].serial == u.serial && Waits(s', u.serial);
    assert forall k: nat :: Waits(s, k) ==> Waits(s', k);
    hide Waits;
  }

  lemma RegisteredJobs(s: State)
    requires Inv(s) && s.place.Applying? && s.queue != [] && s.queue[0].Register?
    ensures JobsOk(Applied(s))
  {
    hide Sockets, PlaceOk, StagesOk, SerialsOk, Accounted;
    var s' := Applied(s);
    RegisteredArmed(s);
    hide QueueOk, TableOk;
    assert forall c :: Quiet(s, c) ==> Quiet(s', c);
    hide Quiet;
  }

  lemma RegisteredStages(s: State)
    requires Inv(s) && s.place.Applying? && s.queue != [] && s.queue[0].Register?
    ensures StagesOk(Applied(s))
  {
    hide Sockets, PlaceOk, JobsOk, SerialsOk, Accounted;
    RegisteredArmed(s);
    hide QueueOk, TableOk;
  }

  lemma UnregisteredInv(s: State)
    requires Inv(s) && s.place.Applying? && s.queue != [] && s.queue[0].Unregister?
    ensures Inv(Applied(s))
  {
    hide Sockets, QueueOk, TableOk, PlaceOk, JobsOk, StagesOk, SerialsOk, Accounted, Applied;
    UnregisteredTable(s);
    UnregisteredSerials(s);
    UnregisteredJobs(s);
  }

  lemma UnregisteredArmed(s: State)
    requires TableOk(s) && s.queue != [] && s.queue[0].Unregister?
    ensures forall g :: Armed(Applied(s), g) <==> Armed(s, g)
    ensures forall g :: Armed(s, g) ==> Applied(s).table[g] == s.table[g]
  {}

  lemma UnregisteredTable(s: State)
    requires Inv(s) && s.place.Applying? && s.queue != [] && s.queue[0].Unregister?
    ensures var s' := Applied(s); Sockets(s') && QueueOk(s') && TableOk(s') && PlaceOk(s')
  {
    hide JobsOk, StagesOk, SerialsOk, Accounted;
    UnregisteredArmed(s);
    AppliedKept(s, Applied(s));
  }

  lemma UnregisteredSerials(s: State)
    requires Inv(s) && s.place.Applying? && s.queue != [] && s.queue[0].Unregister?
    ensures SerialsOk(Applied(s)) && Accounted(Applied(s))
  {
    hide Sockets, PlaceOk, QueueOk, JobsOk, StagesOk, Queued;
    UnregisteredArmed(s);
    hide TableOk;
    AppliedKept(s, Applied(s));
    assert forall k: nat :: Waits(s, k) ==> Waits(Applied(s), k);
    hide Waits;
  }

  lemma UnregisteredJobs(s: State)
    requires Inv(s) && s.place.Applying? && s.queue != [] && s.queue[0].Unregister?
    ensures JobsOk(Applied(s)) && StagesOk(Applied(s))
  {
    hide Sockets, PlaceOk, QueueOk, SerialsOk, Accounted;
    UnregisteredArmed(s);
    hide TableOk;
    assert forall c :: Quiet(s, c) ==> Quiet(Applied(s), c);
    hide Quiet;
  }

  /** Shifting the queue loses only its first update. */
  lemma AppliedKept(s: State, s': State)
    requires s.queue != [] && s'.queue == s.queue[1..]
    ensures forall f :: f != s.queue[0].fd && (exists j :: 0 <= j < |s.queue| && s.queue[j] == Unregister(f)) ==>
                        exists j :: 0 <= j < |s'.queue| && s'.queue[j] == Unregister(f)
    ensures forall k: nat :: Queued(s, k) ==> Queued(s', k) || (s.queue[0].Register? && s.queue[0].serial == k)
  {
    assert forall j :: 0 <= j < |s.queue| ==> s.queue[j] == if j == 0 then s.queue[0] else s'.queue[j - 1];
  }

  /** When a registration is applied its descriptor has no entry: the one that fired is gone already. */
  lemma NoEntryYet(s: State)
    requires QueueOk(s) && TableOk(s) && s.queue != [] && s.queue[0].Register?
    ensures s.queue[0].fd !in s.table
  {
    assert forall j :: 0 <= j < |s.queue| ==> s.queue[j] != Unregister(s.queue[0].fd);
  }

  /** PollUnregister of an armed entry that is ready. */
  function Fired(s: State, pick: Fd): State
    requires s.place.Scanning? && pick in s.table
  {
    var e := s.table[pick];
    Enqueue(s, Unregister(pick))
    .(place := Firing(s.place.todo - {pick}, e.conn, e.dir), fires := s.fires + [e.serial])
  }

  lemma FireInv(s: State, pick: Fd)
    requires Inv(s) && s.place.Scanning? && pick in s.place.todo && s.table[pick].ready
    ensures Inv(PollStep(s, {}, pick, false))
  {
    assert Armed(s, pick);
    assert PollStep(s, {}, pick, false) == Fired(s, pick);
    hide Sockets, QueueOk, TableOk, PlaceOk, JobsOk, StagesOk, SerialsOk, Accounted, Fired, PollStep;
    FireTable(s, pick);
    FireSerials(s, pick);
    FireJobs(s, pick);
    FireStages(s, pick);
  }

  lemma FiredArmed(s: State, pick: Fd)
    requires SerialsOk(s) && s.place.Scanning? && Armed(s, pick)
    ensures forall g :: Armed(Fired(s, pick), g) <==> Armed(s, g) && g != pick
  {}

  lemma FireTable(s: State, pick: Fd)
    requires Inv(s) && s.place.Scanning? && pick in s.place.todo && Armed(s, pick)
    ensures var s' := Fired(s, pick); Sockets(s') && QueueOk(s') && TableOk(s') && PlaceOk(s')
  {
    hide JobsOk, StagesOk, Accounted;
    var s' := Fired(s, pick);
    FiredArmed(s, pick);
    EnqueuedKept(s, s'.(fires := s.fires));
    assert s'.queue[|s.queue|] == Unregister(pick);
    assert forall i :: 0 <= i < |s.queue| && s.queue[i].Register? ==> s.queue[i].serial != s.table[pick].serial;
    hide SerialsOk, Armed;
  }

  lemma FireSerials(s: State, pick: Fd)
    requires Inv(s) && s.place.Scanning? && pick in s.place.todo && Armed(s, pick)
    ensures SerialsOk(Fired(s, pick)) && Accounted(Fired(s, pick))
  {
    hide Sockets, QueueOk, PlaceOk, JobsOk, StagesOk, Queued;
    var s' := Fired(s, pick);
    FiredArmed(s, pick);
    EnqueuedKept(s, s'.(fires := s.fires));
    assert forall k: nat :: Queued(s'.(fires := s.fires), k) ==> Queued(s', k) by {
      SameQueued(s'.(fires := s.fires), s');
    }
    assert forall k: nat :: Waits(s, k) ==> Waits(s', k) || k == s.table[pick].serial;
    assert s'.fires[|s.fires|] == s.table[pick].serial;
    hide Waits;
  }

  lemma SameQueued(s: State, s': State)
    requires s'.queue == s.queue
    ensures forall k: nat :: Queued(s, k) ==> Queued(s', k)
  {}

  lemma FireJobs(s: State, pick: Fd)
    requires Inv(s) && s.place.Scanning? && pick in s.place.todo && Armed(s, pick)
    ensures JobsOk(Fired(s, pick))
  {
    hide PlaceOk, StagesOk, Accounted;
    var s' := Fired(s, pick);
    FiredArmed(s, pick);
    hide SerialsOk;
    assert Quiet(s', s.table[pick].conn);
    assert forall c :: Quiet(s, c) ==> Quiet(s', c) && s.table[pick].conn != c;
    hide Quiet, QueueOk, TableOk, Sockets;
  }

  lemma FireStages(s: State, pick: Fd)
    requires Inv(s) && s.place.Scanning? && pick in s.place.todo && Armed(s, pick)
    ensures StagesOk(Fired(s, pick))
  {
    hide PlaceOk, JobsOk, Accounted, Sockets, QueueOk, TableOk;
    FiredArmed(s, pick);
    hide SerialsOk;
  }

  lemma PollInv(s: State, ready: set<Fd>, pick: Fd, hup: bool)
    requires Inv(s)
    ensures Inv(PollStep(s, ready, pick, hup))
  {
    match s.place
    case Applying(_) => AppliedInv(s, ready, pick, hup);
    case Polling => PolledInv(s, ready, pick, hup);
    case Scanning(_) => ScannedInv(s, ready, pick, hup);
    case Firing(_, _, _) => DispatchInv(s, ready, pick, hup);
  }

  lemma AppliedInv(s: State, ready: set<Fd>, pick: Fd, hup: bool)
    requires Inv(s) && s.place.Applying?
    ensures Inv(PollStep(s, ready, pick, hup))
  {
    hide Sockets, QueueOk, JobsOk, StagesOk, SerialsOk, Accounted;
    var s' := PollStep(s, ready, pick, hup);
    if s.queue == [] {
      PlaceChanged(s, s'.place);
    } else {
      hide TableOk, PlaceOk;
      assert s' == Applied(s);
      if s.queue[0].Register? { RegisteredInv(s); } else { UnregisteredInv(s); }
    }
  }

  lemma ScannedInv(s: State, ready: set<Fd>, pick: Fd, hup: bool)
    requires Inv(s) && s.place.Scanning?
    ensures Inv(PollStep(s, ready, pick, hup))
  {
    hide Sockets, QueueOk, TableOk, JobsOk, StagesOk, SerialsOk, Accounted;
    var s', todo := PollStep(s, ready, pick, hup), s.place.todo;
    if pick in todo {
      assert Armed(s, pick);
      if s.table[pick].ready {
        hide PlaceOk;
        assert s' == PollStep(s, {}, pick, false);
        FireInv(s, pick);
      } else {
        PlaceChanged(s, s'.place);
      }
    } else {
      PlaceChanged(s, s'.place);
    }
  }

  lemma PlaceChanged(s: State, place: Place)
    requires Inv(s) && !s.place.Firing? && !place.Firing? && PlaceOk(s.(place := place))
    ensures Inv(s.(place := place))
  {
    hide Queued, Waits, Quiet, PlaceOk;
    var s' := s.(place := place);
    SameWaiting(s, s');
    SameQuiet(s, s');
  }

  lemma SameQuiet(s: State, s': State)
    requires s'.queue == s.queue && s'.open == s.open && s'.fires == s.fires && s'.table.Keys == s.table.Keys
    requires forall f :: f in s.table ==> s'.table[f].serial == s.table[f].serial && s'.table[f].conn == s.table[f].conn
    ensures forall c :: Quiet(s, c) ==> Quiet(s', c)
  {
    SameWaiting(s, s');
  }

  lemma PolledInv(s: State, ready: set<Fd>, pick: Fd, hup: bool)
    requires Inv(s) && s.place.Polling?
    ensures Inv(PollStep(s, ready, pick, hup))
  {
    hide Sockets, QueueOk, TableOk, PlaceOk, JobsOk, StagesOk, SerialsOk, Accounted, PollStep;
    PolledTable(s, ready, pick, hup);
    PolledSerials(s, ready, pick, hup);
    PolledJobs(s, ready, pick, hup);
  }

  lemma PolledTable(s: State, ready: set<Fd>, pick: Fd, hup: bool)
    requires Inv(s) && s.place.Polling?
    ensures var s' := PollStep(s, ready, pick, hup); Sockets(s') && QueueOk(s') && TableOk(s') && PlaceOk(s')
  {
    hide JobsOk, StagesOk, SerialsOk, Accounted;
    var s' := PollStep(s, ready, pick, hup);
    SameWaiting(s, s');
  }

  lemma PolledSerials(s: State, ready: set<Fd>, pick: Fd, hup: bool)
    requires Inv(s) && s.place.Polling?
    ensures var s' := PollStep(s, ready, pick, hup); SerialsOk(s') && Accounted(s')
  {
    hide Sockets, QueueOk, TableOk, PlaceOk, JobsOk, StagesOk, Queued, Waits;
    SameWaiting(s, PollStep(s, ready, pick, hup));
  }

  lemma PolledJobs(s: State, ready: set<Fd>, pick: Fd, hup: bool)
    requires Inv(s) && s.place.Polling?
    ensures var s' := PollStep(s, ready, pick, hup); JobsOk(s') && StagesOk(s')
  {
    hide Sockets, QueueOk, TableOk, PlaceOk, SerialsOk, Accounted, Queued, Waits, Quiet;
    var s' := PollStep(s, ready, pick, hup);
    SameWaiting(s, s');
    SameQuiet(s, s');
  }

  lemma DispatchInv(s: State, ready: set<Fd>, pick: Fd, hup: bool)
    requires Inv(s) && s.place.Firing?
    ensures Inv(PollStep(s, ready, pick, hup))
  {
    hide Sockets, QueueOk, TableOk, PlaceOk, JobsOk, StagesOk, SerialsOk, Accounted, PollStep;
    DispatchTable(s, ready, pick, hup);
    DispatchSerials(s, ready, pick, hup);
    DispatchJobs(s, ready, pick, hup);
  }

  lemma DispatchTable(s: State, ready: set<Fd>, pick: Fd, hup: bool)
    requires Inv(s) && s.place.Firing?
    ensures var s' := PollStep(s, ready, pick, hup); Sockets(s') && QueueOk(s') && TableOk(s') && PlaceOk(s')
  {
    hide JobsOk, StagesOk, SerialsOk, Accounted;
    SameWaiting(s, PollStep(s, ready, pick, hup));
  }

  lemma DispatchSerials(s: State, ready: set<Fd>, pick: Fd, hup: bool)
    requires Inv(s) && s.place.Firing?
    ensures var s' := PollStep(s, ready, pick, hup); SerialsOk(s') && Accounted(s')
  {
    hide Sockets, QueueOk, TableOk, PlaceOk, JobsOk, StagesOk, Queued, Waits;
    SameWaiting(s, PollStep(s, ready, pick, hup));
  }

  lemma DispatchJobs(s: State, ready: set<Fd>, pick: Fd, hup: bool)
    requires Inv(s) && s.place.Firing?
    ensures var s' := PollStep(s, ready, pick, hup); JobsOk(s') && StagesOk(s')
  {
    hide Sockets, QueueOk, TableOk, PlaceOk, SerialsOk, Accounted, Queued, Waits, Quiet;
    var s' := PollStep(s, ready, pick, hup);
    SameWaiting(s, s');
    SameQuiet(s, s');
  }

  lemma DeallocInv(s: State, c: Conn)
    requires Inv(s) && c in s.open && Unreferenced(s, c)
    ensures Inv(Start(s, c, Unregistering))
  {
    hide Sockets, QueueOk, TableOk, PlaceOk, JobsOk, StagesOk, SerialsOk, Accounted, Quiet;
    var s' := Start(s, c, Unregistering);
    PollSideKept(s, s');
    DeallocJobs(s, c);
    DeallocStages(s, c);
    hide Start;
  }

  lemma DeallocJobs(s: State, c: Conn)
    requires Inv(s) && c in s.open && Unreferenced(s, c)
    ensures JobsOk(Start(s, c, Unregistering))
  {
    hide Sockets, QueueOk, TableOk, PlaceOk, StagesOk, SerialsOk, Accounted;
    var s' := Start(s, c, Unregistering);
    assert Quiet(s, c);
    hide Quiet;
    SameQuiet(s, s');
  }

  lemma DeallocStages(s: State, c: Conn)
    requires Inv(s) && c in s.open
    ensures StagesOk(Start(s, c, Unregistering))
  {
    hide Sockets, QueueOk, TableOk, PlaceOk, JobsOk, SerialsOk, Accounted, Queued, Waits;
    SameWaiting(s, Start(s, c, Unregistering));
  }

  lemma StepInv(s: State, m: Move)
    requires Inv(s)
    ensures Inv(Step(s, m))
  {
    hide Inv, WorkStep, PollStep, Start;
    match m
    case Accept(f) => AcceptInv(s, f);
    case Work(job, choice) => if job in s.jobs && s.jobs[job].conn in s.open { WorkInv(s, job, choice); }
    case Dealloc(c) => if c in s.open && Unreferenced(s, c) { DeallocInv(s, c); }
    case Go(ready, pick, hup) => PollInv(s, ready, pick, hup);
    case StopScan => StopInv(s);
  }

  lemma StopInv(s: State)
    requires Inv(s)
    ensures s.place.Scanning? ==> Inv(s.(place := Applying(false)))
  {
    if s.place.Scanning? { PlaceChanged(s, Applying(false)); }
  }

  lemma {:induction false} Always(schedule: seq<Move>)
    ensures Inv(Exec(schedule))
  {
    if schedule != [] {
      Always(schedule[..|schedule| - 1]);
      StepInv(Exec(schedule[..|schedule| - 1]), schedule[|schedule| - 1]);
    }
  }

  // ----- Main results -----

  lemma OneAtMost<T>(a: set<T>)
    requires forall x, y :: x in a && y in a ==> x == y
    ensures |a| <= 1
  {
    if a != {} {
      var x :| x in a;
      assert a == {x};
    }
  }

  /** There is never more than one way to run more code of a connection. */
  lemma AtMostOneContinuation(schedule: seq<Move>, c: Conn)
    ensures Continuations(Exec(schedule), c) <= 1
  {
    Always(schedule);
    hide Exec;
    OneContinuation(Exec(schedule), c);
  }

  lemma OneContinuation(s: State, c: Conn)
    requires Inv(s)
    ensures Continuations(s, c) <= 1
  {
    var jobs := set i | i in s.jobs && s.jobs[i].conn == c;
    var queued := set i | 0 <= i < |s.queue| && s.queue[i].Register? && s.queue[i].conn == c;
    var armed := set f | f in s.table && Armed(s, f) && s.table[f].conn == c;
    OneAtMost(jobs);
    OneAtMost(queued);
    OneAtMost(armed);
    if jobs != {} || (s.place.Firing? && s.place.conn == c) {
      assert Quiet(s, c);
      assert queued == {} && armed == {};
    }
    assert forall i :: i in queued ==> s.queue[i].fd == s.open[c];
    assert forall f :: f in armed ==> f == s.open[c];
    assert queued == {} || armed == {};
  }

  /** Every one-shot registration is at any time exactly one of: still queued, armed in the table, or
      fired, and then once. So none is lost, overwritten or cancelled, and none fires twice. */
  lemma RegistrationsFireOnce(schedule: seq<Move>, k: nat)
    requires k < Exec(schedule).registered
    ensures var s := Exec(schedule);
      && (forall i, j :: 0 <= i < j < |s.fires| ==> s.fires[i] != s.fires[j])
      && (k in s.fires || Queued(s, k) || Waits(s, k))
      && !(k in s.fires && Queued(s, k)) && !(k in s.fires && Waits(s, k)) && !(Queued(s, k) && Waits(s, k))
  {
    Always(schedule);
  }

  /** What makes it so: an Unregister that finds an entry removes one that has fired, and a Register never
      finds one. */
  lemma UpdatesHitFiredEntries(schedule: seq<Move>)
    requires Exec(schedule).queue != []
    ensures var s := Exec(schedule);
      if s.queue[0].Register? then s.queue[0].fd !in s.table else !Armed(s, s.queue[0].fd)
  {
    Always(schedule);
    if Exec(schedule).queue[0].Register? { NoEntryYet(Exec(schedule)); }
  }

  /** An armed entry is for the connection that has the descriptor open, however often it was reused. */
  lemma FiresForTheOwner(schedule: seq<Move>, f: Fd)
    requires Armed(Exec(schedule), f)
    ensures var s := Exec(schedule); s.table[f].conn in s.open && s.open[s.table[f].conn] == f
  {
    Always(schedule);
  }

  /** A connection's request is processed once at most. */
  lemma ProcessedOnce(schedule: seq<Move>)
    ensures forall i, j :: 0 <= i < j < |Exec(schedule).processed| ==>
      Exec(schedule).processed[i] != Exec(schedule).processed[j]
  {
    Always(schedule);
  }
}
