/** What the dispatch queue of module Dispatching keeps under every schedule, and what it leaves behind. */
module DispatchingProof {
  import opened Dispatching
  import opened Finite

  // ----- Counting facts -----

  lemma {:induction false} WokenReplaced(ws: seq<Worker>, i: nat, w: Worker)
    requires i < |ws|
    ensures WokenCount(ws[i := w]) == WokenCount(ws) - (if ws[i].Woken? then 1 else 0) + (if w.Woken? then 1 else 0)
  {
    var n := |ws| - 1;
    if i < n {
      WokenReplaced(ws[..n], i, w);
      assert ws[i := w][..n] == ws[..n][i := w];
    } else {
      assert ws[i := w][..n] == ws[..n];
    }
  }

  lemma {:induction false} ExitedReplaced(ws: seq<Worker>, i: nat, w: Worker)
    requires i < |ws|
    ensures ExitedCount(ws[i := w]) == ExitedCount(ws) - (if ws[i].Exited? then 1 else 0) + (if w.Exited? then 1 else 0)
  {
    var n := |ws| - 1;
    if i < n {
      ExitedReplaced(ws[..n], i, w);
      assert ws[i := w][..n] == ws[..n][i := w];
    } else {
      assert ws[i := w][..n] == ws[..n];
    }
  }

  lemma {:induction false} RunningReplaced(ws: seq<Worker>, i: nat, w: Worker, b: Block)
    requires i < |ws|
    ensures RunningCount(ws[i := w], b) + Bit(ws[i] == Running(b)) == RunningCount(ws, b) + Bit(w == Running(b))
  {
    var n := |ws| - 1;
    if i < n {
      RunningReplaced(ws[..n], i, w, b);
      assert ws[i := w][..n] == ws[..n][i := w];
    } else {
      assert ws[i := w][..n] == ws[..n];
    }
  }

  lemma {:induction false} WokenCounts(ws: seq<Worker>, i: nat)
    requires i < |ws| && ws[i].Woken?
    ensures WokenCount(ws) > 0
  {
    if i < |ws| - 1 { WokenCounts(ws[..|ws| - 1], i); }
  }

  lemma {:induction false} SomeWoken(ws: seq<Worker>) returns (i: nat)
    requires WokenCount(ws) > 0
    ensures i < |ws| && ws[i].Woken?
  {
    if ws[|ws| - 1].Woken? { i := |ws| - 1; } else { i := SomeWoken(ws[..|ws| - 1]); }
  }

  lemma {:induction false} AllWaiting(n: nat, b: Block)
    ensures var ws := seq(n, _ => Waiting);
      WokenCount(ws) == 0 && ExitedCount(ws) == 0 && RunningCount(ws, b) == 0
  {
    if n > 0 {
      AllWaiting(n - 1, b);
      assert seq<Worker>(n, _ => Waiting)[..n - 1] == seq(n - 1, _ => Waiting);
    }
  }

  lemma {:induction false} AllExited(ws: seq<Worker>)
    requires forall i :: 0 <= i < |ws| ==> ws[i].Exited?
    ensures WokenCount(ws) == 0 && ExitedCount(ws) == |ws| && forall b :: RunningCount(ws, b) == 0
  {
    if ws != [] { AllExited(ws[..|ws| - 1]); }
  }

  lemma {:induction false} NotAllExited(ws: seq<Worker>, i: nat)
    requires i < |ws| && !ws[i].Exited?
    ensures ExitedCount(ws) < |ws|
  {
    var front := ws[..|ws| - 1];
    if i < |front| { NotAllExited(front, i); } else { AtMostAll(front); }
  }

  lemma {:induction false} AtMostAll(ws: seq<Worker>)
    ensures ExitedCount(ws) <= |ws|
  {
    if ws != [] { AtMostAll(ws[..|ws| - 1]); }
  }

  lemma Added(a: seq<Block>, b: Block)
    ensures Exits(a + [b]) == Exits(a) + (if b.Exit? then 1 else 0)
    ensures Jobs(a + [b]) == if b.Exit? then Jobs(a) else Jobs(a) + [b]
  {
    assert (a + [b])[..|a|] == a;
  }

  lemma TimesAdded(bs: seq<Block>, x: Block, b: Block)
    ensures Times(bs + [x], b) == Times(bs, b) + Bit(x == b)
  {
    assert (bs + [x])[..|bs|] == bs;
  }

  lemma {:induction false} TimesAppended(a: seq<Block>, b: seq<Block>, x: Block)
    ensures Times(a + b, x) == Times(a, x) + Times(b, x)
  {
    if b == [] {
      assert a + b == a;
    } else {
      TimesAppended(a, b[..|b| - 1], x);
      assert (a + b)[..|a + b| - 1] == a + b[..|b| - 1];
    }
  }

  lemma {:induction false} Appended(a: seq<Block>, b: seq<Block>)
    ensures Exits(a + b) == Exits(a) + Exits(b) && Jobs(a + b) == Jobs(a) + Jobs(b)
  {
    if b == [] {
      assert a + b == a;
    } else {
      Appended(a, b[..|b| - 1]);
      assert (a + b)[..|a + b| - 1] == a + b[..|b| - 1];
    }
  }

  lemma {:induction false} NoExits(bs: seq<Block>)
    requires Exits(bs) == 0
    ensures Jobs(bs) == bs && forall k :: 0 <= k < |bs| ==> bs[k].Job?
  {
    if bs != [] { NoExits(bs[..|bs| - 1]); }
  }

  lemma {:induction false} ExitsBounded(bs: seq<Block>)
    ensures Exits(bs) <= |bs|
  {
    if bs != [] { ExitsBounded(bs[..|bs| - 1]); }
  }

  // ----- The invariant -----

  /** Blocks that dealloc has enqueued and not yet posted. */
  function Unposted(d: Dealloc): nat { if d.Exiting? && d.enqueued then 1 else 0 }

  /** Every block in the queue is announced: by the semaphore, to a woken worker, or by a post to come. */
  ghost predicate Announced(s: State) {
    && |s.queue| == s.semaphore + WokenCount(s.workers) + |s.posting| + Unposted(s.dealloc)
    && forall c :: c in s.posting && c.FromBlock? ==> c.w < |s.workers| && s.workers[c.w].Running?
  }

  /** What was dispatched was taken in order or still waits. */
  ghost predicate Ordered(r: Run) {
    && r.past.misses == 0
    && r.past.dispatched == r.past.taken + r.now.queue
    && forall w :: 0 <= w < |r.now.workers| && r.now.workers[w].Running? ==> r.now.workers[w].block.Job?
  }

  /** Each exit block taken made one worker exit. */
  ghost predicate ExitsUsed(r: Run) { Exits(r.past.taken) == ExitedCount(r.now.workers) }

  /** Every other block taken is finished or being run. */
  ghost predicate Conserved(r: Run) {
    forall b :: Times(Jobs(r.past.taken), b) == Times(r.past.finished, b) + RunningCount(r.now.workers, b)
  }

  function Current(w: Worker): seq<Block> {
    match w
    case Running(b) => [b]
    case Exited => [Exit]
    case _ => []
  }

  /** A single worker finishes the blocks in the order it took them. */
  ghost predicate Serial(r: Run) {
    |r.now.workers| == 1 ==>
      if r.now.workers[0].Exited? then Jobs(r.past.taken) == r.past.finished
      else r.past.taken == r.past.finished + Current(r.now.workers[0])
  }

  /** How many exit blocks dealloc has enqueued, for n threads. */
  function ExitsPut(d: Dealloc, n: nat): nat {
    match d
    case Alive => 0
    case Exiting(i, enqueued) => if enqueued then i + 1 else i
    case Joining(_) | Freed => n
  }

  ghost predicate Ending(r: Run) {
    var d, ws := r.now.dealloc, r.now.workers;
    && Exits(r.past.dispatched) == ExitsPut(d, |ws|)
    && (d.Exiting? ==> d.i <= |ws| && (d.enqueued ==> d.i < |ws|))
    && (d.Joining? ==> d.i <= |ws| && forall j :: 0 <= j < d.i ==> ws[j].Exited?)
    && (d.Freed? ==> forall j :: 0 <= j < |ws| ==> ws[j].Exited?)
    && (if d.Alive? then r.past.late == 0
        else
          && |r.past.dispatched| == r.past.begun + r.past.late + ExitsPut(d, |ws|)
          && Exits(r.past.dispatched[..r.past.begun]) == 0)
  }

  ghost predicate Inv(r: Run) {
    Announced(r.now) && Ordered(r) && ExitsUsed(r) && Conserved(r) && Serial(r) && Ending(r)
  }

  lemma CreatedInv(threads: nat)
    ensures Inv(Created(threads)) && |Created(threads).now.workers| == threads
  {
    AllWaiting(threads, Exit);
    forall b ensures RunningCount(Created(threads).now.workers, b) == 0 { AllWaiting(threads, b); }
  }

  lemma StepAnnounced(r: Run, m: Move)
    requires Announced(r.now)
    ensures Announced(Step(r, m).now) && |Step(r, m).now.workers| == |r.now.workers|
  {
    hide WokenCount;
    var s := r.now;
    if (m.Wait? || m.Drain? || m.Finish?) && m.w < |s.workers| {
      var s' := Step(r, m).now;
      WokenReplaced(s.workers, m.w, s'.workers[m.w]);
      assert s'.workers == s.workers[m.w := s'.workers[m.w]];
      if s.workers[m.w].Woken? { WokenCounts(s.workers, m.w); }
    }
  }

  lemma StepOrdered(r: Run, m: Move)
    requires Announced(r.now) && Ordered(r)
    ensures Ordered(Step(r, m))
  {
    hide WokenCount;
    if m.Drain? && m.w < |r.now.workers| && r.now.workers[m.w].Woken? {
      WokenCounts(r.now.workers, m.w);
      assert r.now.queue == [r.now.queue[0]] + r.now.queue[1..];
    }
  }

  lemma StepExitsUsed(r: Run, m: Move)
    requires ExitsUsed(r)
    ensures ExitsUsed(Step(r, m))
  {
    hide ExitedCount, Exits;
    var s, s' := r.now, Step(r, m).now;
    if (m.Wait? || m.Drain? || m.Finish?) && m.w < |s.workers| {
      ExitedReplaced(s.workers, m.w, s'.workers[m.w]);
      assert s'.workers == s.workers[m.w := s'.workers[m.w]];
      if m.Drain? && s.workers[m.w].Woken? && s.queue != [] { Added(r.past.taken, s.queue[0]); }
    }
  }

  lemma StepConserved(r: Run, m: Move)
    requires Conserved(r)
    ensures Conserved(Step(r, m))
  {
    forall b ensures var r' := Step(r, m);
      Times(Jobs(r'.past.taken), b) == Times(r'.past.finished, b) + RunningCount(r'.now.workers, b)
    {
      StepConservedFor(r, m, b);
    }
    hide Step, Times, Jobs, RunningCount;
  }

  lemma StepConservedFor(r: Run, m: Move, b: Block)
    requires Conserved(r)
    ensures var r' := Step(r, m);
      Times(Jobs(r'.past.taken), b) == Times(r'.past.finished, b) + RunningCount(r'.now.workers, b)
  {
    hide RunningCount, Jobs, Times;
    var ws := r.now.workers;
    assert Times(Jobs(r.past.taken), b) == Times(r.past.finished, b) + RunningCount(ws, b);
    if (m.Wait? || m.Drain? || m.Finish?) && m.w < |ws| {
      RunningReplaced(ws, m.w, Step(r, m).now.workers[m.w], b);
      assert Step(r, m).now.workers == ws[m.w := Step(r, m).now.workers[m.w]];
      if m.Drain? && ws[m.w].Woken? && r.now.queue != [] {
        Added(r.past.taken, r.now.queue[0]);
        TimesAdded(Jobs(r.past.taken), r.now.queue[0], b);
      }
      if m.Finish? && ws[m.w].Running? { TimesAdded(r.past.finished, ws[m.w].block, b); }
    }
  }

  lemma StepSerial(r: Run, m: Move)
    requires Announced(r.now) && ExitsUsed(r) && Serial(r)
    ensures Serial(Step(r, m))
  {
    hide WokenCount, Jobs, Exits;
    var ws := r.now.workers;
    if m.Drain? && m.w < |ws| == 1 && ws[m.w].Woken? {
      WokenCounts(ws, m.w);
      Added(r.past.taken, r.now.queue[0]);
      assert ExitedCount(ws) == ExitedCount(ws[..0]) == 0;
      NoExits(r.past.taken);
    }
  }

  lemma StepEnding(r: Run, m: Move)
    requires Ending(r)
    ensures Ending(Step(r, m))
  {
    hide Exits, Jobs;
    var d, d' := r.past.dispatched, Step(r, m).past.dispatched;
    if m.Enqueue? { Added(d, Job(m.id)); }
    if m.GoDealloc? { Added(d, Exit); }
    if r.now.dealloc.Alive? { assert d[..|d|] == d; } else { assert d'[..r.past.begun] == d[..r.past.begun]; }
  }

  lemma StepInv(r: Run, m: Move)
    requires Inv(r)
    ensures Inv(Step(r, m)) && |Step(r, m).now.workers| == |r.now.workers|
  {
    hide Step;
    StepAnnounced(r, m);
    StepOrdered(r, m);
    StepExitsUsed(r, m);
    StepConserved(r, m);
    StepSerial(r, m);
    StepEnding(r, m);
    hide Announced, Ordered, ExitsUsed, Conserved, Serial, Ending;
  }

  lemma {:induction false} Always(threads: nat, schedule: seq<Move>)
    ensures Inv(Exec(threads, schedule)) && |Exec(threads, schedule).now.workers| == threads
  {
    if schedule == [] {
      CreatedInv(threads);
    } else {
      Always(threads, schedule[..|schedule| - 1]);
      StepInv(Exec(threads, schedule[..|schedule| - 1]), schedule[|schedule| - 1]);
    }
  }

  // ----- Main results -----

  /** A worker that passed sem_wait finds a block: no drain ever returns NULL. */
  lemma DrainsFind(threads: nat, schedule: seq<Move>)
    ensures var r := Exec(threads, schedule);
      r.past.misses == 0 && forall w :: 0 <= w < |r.now.workers| && r.now.workers[w].Woken? ==> r.now.queue != []
  {
    Always(threads, schedule);
    var r := Exec(threads, schedule);
    forall w | 0 <= w < |r.now.workers| && r.now.workers[w].Woken? ensures r.now.queue != [] {
      WokenCounts(r.now.workers, w);
    }
  }

  /** Blocks are taken in the order they were dispatched, and each one taken is at any time either being
      run by one worker or finished once, or was the exit block of one exited worker. */
  lemma EachBlockRunsOnce(threads: nat, schedule: seq<Move>)
    ensures var r := Exec(threads, schedule);
      && r.past.dispatched == r.past.taken + r.now.queue
      && (forall b :: Times(Jobs(r.past.taken), b) == Times(r.past.finished, b) + RunningCount(r.now.workers, b))
      && Exits(r.past.taken) == ExitedCount(r.now.workers)
  {
    Always(threads, schedule);
  }

  /** A serial queue finishes its blocks in the order they were dispatched. */
  lemma SerialQueueKeepsOrder(schedule: seq<Move>)
    ensures Exec(1, schedule).past.finished <= Jobs(Exec(1, schedule).past.dispatched)
  {
    Always(1, schedule);
    var r := Exec(1, schedule);
    var past, w := r.past, r.now.workers[0];
    assert ExitedCount(r.now.workers) == ExitedCount(r.now.workers[..0]) + if w.Exited? then 1 else 0;
    Appended(past.taken, r.now.queue);
    if !w.Exited? { NoExits(past.taken); }
  }

  /** When dealloc has joined every thread, each has taken exactly one exit block; every block dispatched
      before dealloc began is finished; and what still lies in the queue was dispatched later. */
  lemma ShutdownDrains(threads: nat, schedule: seq<Move>)
    requires threads > 0 && Exec(threads, schedule).now.dealloc.Freed?
    ensures var r := Exec(threads, schedule);
      && (forall w :: 0 <= w < |r.now.workers| ==> r.now.workers[w].Exited?)
      && Exits(r.past.taken) == threads == Exits(r.past.dispatched)
      && r.past.begun <= |r.past.dispatched|
      && (forall b :: Times(r.past.dispatched[..r.past.begun], b) <= Times(r.past.finished, b))
      && (forall b :: Times(r.past.finished, b) == Times(Jobs(r.past.taken), b))
      && |r.now.queue| == r.now.semaphore + |r.now.posting| <= r.past.late
  {
    Always(threads, schedule);
    hide Exec;
    FreedInv(Exec(threads, schedule));
  }

  lemma FreedInv(r: Run)
    requires Inv(r) && |r.now.workers| > 0 && r.now.dealloc.Freed?
    ensures Exits(r.past.taken) == |r.now.workers| == Exits(r.past.dispatched)
    ensures r.past.begun <= |r.past.dispatched|
    ensures forall b :: Times(r.past.dispatched[..r.past.begun], b) <= Times(r.past.finished, b)
    ensures forall b :: Times(r.past.finished, b) == Times(Jobs(r.past.taken), b)
    ensures |r.now.queue| == r.now.semaphore + |r.now.posting| <= r.past.late
  {
    hide RunningCount, Jobs, WokenCount, ExitedCount, Exits, Times;
    AllExited(r.now.workers);
    hide Serial;
    var early, taken := r.past.dispatched[..r.past.begun], r.past.taken;
    if |taken| < r.past.begun {
      assert early == taken + early[|taken|..];
      Appended(taken, early[|taken|..]);
      assert false;
    }
    var rest := taken[r.past.begun..];
    assert taken == early + rest;
    Appended(early, rest);
    NoExits(early);
    forall b { TimesAppended(early, Jobs(rest), b); }
    ExitsBounded(rest);
  }

  /** Without dispatches after dealloc began nothing is left over: the queue is empty, the semaphore is
      zero, no caller is about to post, and a serial queue has finished all its blocks in order. */
  lemma QuietShutdown(threads: nat, schedule: seq<Move>)
    requires threads > 0 && Exec(threads, schedule).now.dealloc.Freed? && Exec(threads, schedule).past.late == 0
    ensures var r := Exec(threads, schedule);
      && r.now.queue == [] && r.now.semaphore == 0 && r.now.posting == {}
      && (forall b :: Times(r.past.finished, b) == Times(Jobs(r.past.dispatched), b))
      && (threads == 1 ==> r.past.finished == Jobs(r.past.dispatched))
  {
    ShutdownDrains(threads, schedule);
    Always(threads, schedule);
    assert Exec(threads, schedule).past.dispatched == Exec(threads, schedule).past.taken;
  }

  /** An exit block of a thread that has not exited is still queued, so somebody was told of it. */
  lemma ExitsAnnounced(r: Run)
    requires Announced(r.now) && Ordered(r) && ExitsUsed(r) && Ending(r)
    requires r.now.dealloc.Joining? && r.now.dealloc.i < |r.now.workers| && !r.now.workers[r.now.dealloc.i].Exited?
    ensures r.now.posting != {} || WokenCount(r.now.workers) > 0 || r.now.semaphore > 0
  {
    NotAllExited(r.now.workers, r.now.dealloc.i);
    Appended(r.past.taken, r.now.queue);
  }

  lemma DrainLeaves(r: Run, w: nat)
    requires w < |r.now.workers| && r.now.workers[w].Woken?
    ensures Step(r, Drain(w)) != r
  {
    assert Step(r, Drain(w)).now.workers[w] != r.now.workers[w];
  }

  lemma FinishLeaves(r: Run, w: nat)
    requires w < |r.now.workers| && r.now.workers[w].Running? && FromBlock(w) !in r.now.posting
    ensures Step(r, Finish(w)) != r
  {
    assert Step(r, Finish(w)).now.workers[w] != r.now.workers[w];
  }

  /** Joining never hangs: until the thread to be joined has exited some step other than the join changes
      the state: a caller posts, or a worker passes sem_wait, drains or finishes its block. */
  lemma JoinNeverHangs(threads: nat, schedule: seq<Move>) returns (m: Move)
    requires var s := Exec(threads, schedule).now;
      s.dealloc.Joining? && s.dealloc.i < |s.workers| && !s.workers[s.dealloc.i].Exited?
    ensures m.Post? || m.Wait? || m.Drain? || m.Finish?
    ensures Step(Exec(threads, schedule), m) != Exec(threads, schedule)
  {
    hide Exec, WokenCount, ExitedCount, Exits, Jobs, Times, RunningCount, Conserved, Serial;
    Always(threads, schedule);
    var r := Exec(threads, schedule);
    var i := r.now.dealloc.i;
    ExitsAnnounced(r);
    if r.now.workers[i].Woken? { WokenCounts(r.now.workers, i); }
    if c :| c in r.now.posting {
      m := Post(c);
    } else if WokenCount(r.now.workers) > 0 {
      var w := SomeWoken(r.now.workers);
      m := Drain(w);
      DrainLeaves(r, w);
    } else if r.now.workers[i].Running? {
      m := Finish(i);
      FinishLeaves(r, i);
    } else {
      m := Wait(i);
    }
  }
}
