/** Shutting a dispatch queue down takes a bounded number of steps (chat/utils/dispatchqueue.c): without
    further dispatches every run reaches the end of _DisptachQueueDealloc. */
module Shutdown {
  import opened Dispatching
  import opened DispatchingProof

  // ----- Work left -----

  /** The steps a worker still takes for the block it is about: QueueDrain and its end, or its end. */
  function Effort(w: Worker): nat {
    match w
    case Woken => 2
    case Running(_) => 1
    case _ => 0
  }

  function Efforts(ws: seq<Worker>): nat {
    if ws == [] then 0 else Efforts(ws[..|ws| - 1]) + Effort(ws[|ws| - 1])
  }

  /** The steps of the thread that deallocates, and for each exit block to come those that it causes. */
  function Ahead(d: Dealloc, n: nat): int {
    match d
    case Alive => 6 * n + 3
    case Exiting(i, enqueued) => 5 * (n - i) + n + 2 - if enqueued then 1 else 0
    case Joining(i) => n - i + 1
    case Freed => 0
  }

  /** A caller still has to post, then some worker passes sem_wait, drains and finishes. */
  function Work(s: State): int {
    4 * |s.posting| + 3 * s.semaphore + Efforts(s.workers) + Ahead(s.dealloc, |s.workers|)
  }

  lemma {:induction false} EffortsReplaced(ws: seq<Worker>, i: nat, w: Worker)
    requires i < |ws|
    ensures Efforts(ws[i := w]) == Efforts(ws) - Effort(ws[i]) + Effort(w)
  {
    var n := |ws| - 1;
    if i < n {
      EffortsReplaced(ws[..n], i, w);
      assert ws[i := w][..n] == ws[..n][i := w];
    } else {
      assert ws[i := w][..n] == ws[..n];
    }
  }

  predicate InRange(s: State) { s.dealloc.Exiting? || s.dealloc.Joining? ==> s.dealloc.i <= |s.workers| }

  lemma StaysInRange(threads: nat, schedule: seq<Move>)
    ensures InRange(Exec(threads, schedule).now)
  {
    hide Exec, Announced, Ordered, ExitsUsed, Conserved, Serial;
    Always(threads, schedule);
  }

  /** Every step that is not a dispatch and changes the state leaves less work. */
  lemma StepWorks(r: Run, m: Move)
    requires InRange(r.now) && !m.Enqueue? && Step(r, m) != r
    ensures Work(Step(r, m).now) < Work(r.now)
  {
    hide Efforts, Work;
    var s, s' := r.now, Step(r, m).now;
    match m {
      case Post(c) => PostWorks(s, s', c);
      case Wait(w) => WorkerWorks(s, s', w);
      case Drain(w) => WorkerWorks(s, s', w);
      case Finish(w) => WorkerWorks(s, s', w);
      case _ => DeallocWorks(s, s');
    }
  }

  lemma PostWorks(s: State, s': State, c: Caller)
    requires c in s.posting && s' == s.(semaphore := s.semaphore + 1, posting := s.posting - {c})
    ensures Work(s') < Work(s)
  {}

  lemma WorkerWorks(s: State, s': State, w: nat)
    requires w < |s.workers| == |s'.workers| && s'.workers == s.workers[w := s'.workers[w]]
    requires s'.posting == s.posting && s'.dealloc == s.dealloc
    requires 3 * s'.semaphore + Effort(s'.workers[w]) < 3 * s.semaphore + Effort(s.workers[w])
    ensures Work(s') < Work(s)
  {
    EffortsReplaced(s.workers, w, s'.workers[w]);
  }

  lemma DeallocWorks(s: State, s': State)
    requires s'.posting == s.posting && s'.workers == s.workers
    requires 3 * s'.semaphore + Ahead(s'.dealloc, |s.workers|) < 3 * s.semaphore + Ahead(s.dealloc, |s.workers|)
    ensures Work(s') < Work(s)
  {}

  lemma WorkNotNegative(s: State)
    requires InRange(s)
    ensures Work(s) >= 0
  {}

  // ----- Runs without dispatches -----

  /** A run that goes on: no move is a dispatch, and each one changes the state. */
  predicate GoesOn(r: Run, more: seq<Move>)
    decreases more
  {
    more == [] || (!more[0].Enqueue? && Step(r, more[0]) != r && GoesOn(Step(r, more[0]), more[1..]))
  }

  lemma Continued(threads: nat, schedule: seq<Move>, m: Move)
    ensures Exec(threads, schedule + [m]) == Step(Exec(threads, schedule), m)
  {
    assert (schedule + [m])[..|schedule|] == schedule;
  }

  /** No such run has more steps than there was work. */
  lemma {:induction false} StepsBounded(threads: nat, schedule: seq<Move>, more: seq<Move>)
    requires GoesOn(Exec(threads, schedule), more)
    ensures |more| <= Work(Exec(threads, schedule).now)
    decreases more
  {
    hide Exec, Step, Work;
    StaysInRange(threads, schedule);
    WorkNotNegative(Exec(threads, schedule).now);
    if more != [] {
      StepWorks(Exec(threads, schedule), more[0]);
      Continued(threads, schedule, more[0]);
      StepsBounded(threads, schedule + [more[0]], more[1..]);
    }
  }

  /** Once dealloc has begun some step is possible until it has ended. */
  lemma NotStuck(threads: nat, schedule: seq<Move>) returns (m: Move)
    requires var d := Exec(threads, schedule).now.dealloc; !d.Alive? && !d.Freed?
    ensures !m.Enqueue? && Step(Exec(threads, schedule), m) != Exec(threads, schedule)
  {
    hide Exec;
    var s := Exec(threads, schedule).now;
    if s.dealloc.Joining? && s.dealloc.i < |s.workers| && !s.workers[s.dealloc.i].Exited? {
      m := JoinNeverHangs(threads, schedule);
    } else {
      m := GoDealloc;
    }
  }

  /** Without further dispatches a run after dealloc began takes no more steps than there was work, and it
      can always go on until dealloc has ended: whatever the scheduler does, all threads are joined. */
  lemma ShutdownEnds(threads: nat, schedule: seq<Move>, more: seq<Move>) returns (m: Move)
    requires !Exec(threads, schedule).now.dealloc.Alive? && GoesOn(Exec(threads, schedule), more)
    ensures |more| <= Work(Exec(threads, schedule).now)
    ensures
      var last := Exec(threads, schedule + more);
      last.now.dealloc.Freed? || (!m.Enqueue? && Step(last, m) != last)
  {
    hide Exec, Step, Work;
    StepsBounded(threads, schedule, more);
    BegunStays(threads, schedule, more);
    if Exec(threads, schedule + more).now.dealloc.Freed? {
      m := GoDealloc;
    } else {
      m := NotStuck(threads, schedule + more);
    }
  }

  lemma {:induction false} BegunStays(threads: nat, schedule: seq<Move>, more: seq<Move>)
    requires !Exec(threads, schedule).now.dealloc.Alive?
    ensures !Exec(threads, schedule + more).now.dealloc.Alive?
  {
    hide Step;
    if more == [] {
      assert schedule + more == schedule;
    } else {
      var front := more[..|more| - 1];
      BegunStays(threads, schedule, front);
      assert schedule + more == (schedule + front) + [more[|more| - 1]];
      Continued(threads, schedule + front, more[|more| - 1]);
      NeverAliveAgain(Exec(threads, schedule + front), more[|more| - 1]);
    }
  }

  lemma NeverAliveAgain(r: Run, m: Move)
    requires !r.now.dealloc.Alive?
    ensures !Step(r, m).now.dealloc.Alive?
  {}

  /** So there is a way to the end, and it is no longer than that. */
  lemma {:induction false} ShutdownReached(threads: nat, schedule: seq<Move>) returns (more: seq<Move>)
    requires !Exec(threads, schedule).now.dealloc.Alive?
    ensures GoesOn(Exec(threads, schedule), more) && |more| <= Work(Exec(threads, schedule).now)
    ensures Exec(threads, schedule + more).now.dealloc.Freed?
    decreases Work(Exec(threads, schedule).now)
  {
    hide Exec, Step, Work;
    StaysInRange(threads, schedule);
    WorkNotNegative(Exec(threads, schedule).now);
    if Exec(threads, schedule).now.dealloc.Freed? {
      more := [];
      assert schedule + more == schedule;
    } else {
      var m := NotStuck(threads, schedule);
      Continued(threads, schedule, m);
      NeverAliveAgain(Exec(threads, schedule), m);
      StepWorks(Exec(threads, schedule), m);
      StaysInRange(threads, schedule + [m]);
      WorkNotNegative(Exec(threads, schedule + [m]).now);
      var rest := ShutdownReached(threads, schedule + [m]);
      more := [m] + rest;
      assert more[1..] == rest && schedule + more == schedule + [m] + rest;
    }
  }

  // ----- While the queue is alive -----

  /** Callers about to post, and workers. */
  predicate Serves(m: Move) { m.Post? || m.Wait? || m.Drain? || m.Finish? }

  /** All blocks dispatched are finished. */
  ghost predicate AllDone(r: Run) {
    && r.now.queue == [] && (forall w :: 0 <= w < |r.now.workers| ==> r.now.workers[w].Waiting?)
    && forall b :: Times(r.past.finished, b) == Times(r.past.dispatched, b)
  }

  lemma {:induction false} NoneExited(ws: seq<Worker>, w: nat)
    requires ExitedCount(ws) == 0 && w < |ws|
    ensures !ws[w].Exited?
  {
    if w < |ws| - 1 { NoneExited(ws[..|ws| - 1], w); }
  }

  lemma {:induction false} NoneRun(ws: seq<Worker>, b: Block)
    requires forall w :: 0 <= w < |ws| ==> ws[w].Waiting?
    ensures RunningCount(ws, b) == 0 && WokenCount(ws) == 0
  {
    if ws != [] { NoneRun(ws[..|ws| - 1], b); }
  }

  /** Before dealloc no exit block was dispatched, so no worker has exited. */
  lemma NoExitYet(r: Run)
    requires Inv(r) && r.now.dealloc.Alive?
    ensures Exits(r.past.dispatched) == 0 && forall w :: 0 <= w < |r.now.workers| ==> !r.now.workers[w].Exited?
  {
    hide Announced, Conserved, Serial;
    Appended(r.past.taken, r.now.queue);
    forall w | 0 <= w < |r.now.workers| ensures !r.now.workers[w].Exited? { NoneExited(r.now.workers, w); }
  }

  /** With all workers waiting and nobody announcing anything, everything is done. */
  lemma IdleIsDone(r: Run)
    requires Inv(r) && r.now.dealloc.Alive? && r.now.posting == {} && r.now.semaphore == 0
    requires forall w :: 0 <= w < |r.now.workers| ==> r.now.workers[w].Waiting?
    ensures AllDone(r)
  {
    hide ExitsUsed, Serial;
    NoneRun(r.now.workers, Exit);
    NoExitYet(r);
    NoExits(r.past.dispatched);
    assert r.past.dispatched == r.past.taken;
    forall b ensures Times(r.past.finished, b) == Times(r.past.dispatched, b) { NoneRun(r.now.workers, b); }
  }

  /** Until then some caller or worker can go on. */
  lemma ServesOn(threads: nat, schedule: seq<Move>) returns (m: Move)
    requires threads > 0 && Exec(threads, schedule).now.dealloc.Alive? && !AllDone(Exec(threads, schedule))
    ensures Serves(m) && Step(Exec(threads, schedule), m) != Exec(threads, schedule)
  {
    hide Exec, AllDone, Announced, Ordered, ExitsUsed, Conserved, Serial, Ending;
    Always(threads, schedule);
    var r := Exec(threads, schedule);
    var ws := r.now.workers;
    NoExitYet(r);
    if c :| c in r.now.posting {
      m := Post(c);
    } else if w: nat :| w < |ws| && ws[w].Woken? {
      m := Drain(w);
      DrainLeaves(r, w);
    } else if w: nat :| w < |ws| && ws[w].Running? {
      m := Finish(w);
      FinishLeaves(r, w);
    } else if r.now.semaphore > 0 {
      m := Wait(0);
    } else {
      IdleIsDone(r);
      assert false;
    }
  }

  lemma StaysAlive(r: Run, m: Move)
    requires Serves(m)
    ensures Step(r, m).now.dealloc == r.now.dealloc && Step(r, m).past.dispatched == r.past.dispatched
  {}

  /** While the queue is alive every dispatched block can be finished: without further dispatches the callers
      and workers alone, in no more steps than there is work, get everything done. */
  lemma {:induction false} EverythingCanFinish(threads: nat, schedule: seq<Move>) returns (more: seq<Move>)
    requires threads > 0 && Exec(threads, schedule).now.dealloc.Alive?
    ensures (forall k :: 0 <= k < |more| ==> Serves(more[k])) && |more| <= Work(Exec(threads, schedule).now)
    ensures AllDone(Exec(threads, schedule + more))
    ensures Exec(threads, schedule + more).past.dispatched == Exec(threads, schedule).past.dispatched
    decreases Work(Exec(threads, schedule).now)
  {
    hide Exec, Step, Work, AllDone;
    StaysInRange(threads, schedule);
    WorkNotNegative(Exec(threads, schedule).now);
    if AllDone(Exec(threads, schedule)) {
      more := [];
      assert schedule + more == schedule;
    } else {
      var m := ServesOn(threads, schedule);
      Continued(threads, schedule, m);
      StaysAlive(Exec(threads, schedule), m);
      StepWorks(Exec(threads, schedule), m);
      StaysInRange(threads, schedule + [m]);
      WorkNotNegative(Exec(threads, schedule + [m]).now);
      var rest := EverythingCanFinish(threads, schedule + [m]);
      more := [m] + rest;
      assert schedule + more == schedule + [m] + rest;
    }
  }
}
