/** Why calls of the queue of module MichaelScott come to an end: a thread that runs alone finishes its call
    within a fixed number of accesses, and in any run the accesses of a thread are bounded. */
module MichaelScottProgress {
  import opened Wrappers
  import opened MichaelScott
  import opened MichaelScottProof

  // ----- A thread alone -----

  /** The tail pointer is one node behind. */
  predicate Lags(q: Queue) { q.tail < |q.heap| && q.heap[q.tail].next.Some? }

  /** The accesses of a call from the top of its loop, if nobody interferes. */
  function EnqueueRound(q: Queue): nat { if Lags(q) then 9 else 5 }

  function DrainRound(q: Queue): nat { if q.head != q.tail then 8 else if Lags(q) then 13 else 4 }

  /** The accesses that are left from where the thread stands; what it read before may be out of date. */
  function Left(q: Queue, l: Local): nat {
    match l
    case EnqReadTail(_) => EnqueueRound(q)
    case EnqReadNext(_, tail) => if tail == q.tail then EnqueueRound(q) - 1 else 2 + EnqueueRound(q)
    case EnqCheck(_, tail, seen) =>
      if tail != q.tail then 1 + EnqueueRound(q)
      else if seen == None && Lags(q) then 2 + EnqueueRound(q)
      else EnqueueRound(q) - 2
    case EnqLink(_, tail) => if tail == q.tail && !Lags(q) then 2 else 1 + EnqueueRound(q)
    case EnqHelp(_, tail, _) => if tail == q.tail then 6 else 1 + EnqueueRound(q)
    case EnqSwing(_, _) => 1
    case DeqReadHead => DrainRound(q)
    case DeqReadTail(head) => if head == q.head then DrainRound(q) - 1 else 3 + DrainRound(q)
    case DeqReadNext(head, tail) =>
      if head != q.head then 2 + DrainRound(q)
      else if head != tail then 6
      else if tail == q.tail then DrainRound(q) - 2
      else 3 + DrainRound(q)
    case DeqCheck(head, tail, seen) =>
      if head != q.head then 1 + DrainRound(q)
      else if head != tail then 5
      else if seen == None then 1
      else 2 + if tail == q.tail then 8 else DrainRound(q)
    case DeqHelp(tail, _) => 1 + if tail == q.tail then 8 else DrainRound(q)
    case DeqReadElement(head, _) => if head == q.head then 4 else 2 + DrainRound(q)
    case DeqSwing(head, _, _) => if head == q.head then 3 else 1 + DrainRound(q)
    case DeqAssert(_, _) => 2
    case DeqMark(_, _) => 1
    case _ => 0
  }

  lemma LeftBounded(q: Queue, l: Local)
    ensures Left(q, l) <= 16
  {}

  lemma LagsIs(q: Queue, h: History)
    requires ChainInv(q, h)
    ensures Lags(q) <==> h.tailAt + 1 < |h.chain|
    ensures q.head < |q.heap| && q.tail < |q.heap|
    ensures q.head == q.tail <==> h.headAt == h.tailAt
  {
    OnlyLastOpen(q.heap, h.chain, h.tailAt);
  }

  lemma EnqueueLeftFalls(q: Queue, h: History, c: seq<Pointer>, l: Local, n: Note, q': Queue, h': History, l': Local)
    requires Ready(q, h, c, l, n) && ChainInv(q', h') && !l'.Fault?
    requires l.EnqReadTail? || l.EnqReadNext? || l.EnqCheck? || l.EnqLink? || l.EnqHelp? || l.EnqSwing?
    requires (q', l') == Advance(q, l) && h' == RecordShared(h, q, l, q', l')
    ensures Left(q', l') < Left(q, l)
  {
    hide Distinct, Fresh, Paid, Did, Holds, Matches;
    LagsIs(q, h);
    LagsIs(q', h');
    hide Linked;
  }

  lemma ReadLeftFalls(q: Queue, h: History, c: seq<Pointer>, l: Local, n: Note, q': Queue, h': History, l': Local)
    requires Ready(q, h, c, l, n) && ChainInv(q', h') && !l'.Fault?
    requires l.DeqReadHead? || l.DeqReadTail? || l.DeqReadNext?
    requires (q', l') == Advance(q, l) && h' == RecordShared(h, q, l, q', l')
    ensures Left(q', l') < Left(q, l)
  {
    hide Distinct, Fresh, Paid, Did, Holds, Matches;
    LagsIs(q, h);
    LagsIs(q', h');
    hide Linked;
  }

  lemma CheckLeftFalls(q: Queue, h: History, c: seq<Pointer>, l: Local, n: Note, q': Queue, h': History, l': Local)
    requires Ready(q, h, c, l, n) && ChainInv(q', h') && !l'.Fault?
    requires l.DeqCheck? || l.DeqHelp?
    requires (q', l') == Advance(q, l) && h' == RecordShared(h, q, l, q', l')
    ensures Left(q', l') < Left(q, l)
  {
    hide Distinct, Fresh, Paid, Did, Holds, Matches;
    LagsIs(q, h);
    LagsIs(q', h');
    hide Linked;
  }

  lemma TakeLeftFalls(q: Queue, l: Local, q': Queue, l': Local)
    requires !l'.Fault? && (l.DeqReadElement? || l.DeqSwing? || l.DeqAssert? || l.DeqMark?)
    requires (q', l') == Advance(q, l)
    ensures Left(q', l') < Left(q, l)
  {}

  /** An access of a thread inside a call leaves it fewer accesses to make. */
  lemma GoGetsNearer(schedule: seq<Move>, t: Tid)
    requires !Outside(LocalOf(Exec(schedule), t))
    ensures var s, s' := Exec(schedule), Step(Exec(schedule), Go(t));
      Left(s'.q, LocalOf(s', t)) < Left(s.q, LocalOf(s, t))
  {
    hide Exec, HistoryOf, ChainInv, Matches, LocalInv, OwnersDiffer, MarkersDiffer, Left, Advance;
    Always(schedule);
    var s, h := Exec(schedule), HistoryOf(schedule);
    var l, n, c := LocalOf(s, t), NoteOf(h, t), Replay(h.log).value;
    var (q', l') := Advance(s.q, l);
    NotAtFault(s.q, h, l, n);
    var h' := RecordShared(h, s.q, l, q', l');
    var n' := RecordNote(n, h, h', s.q, l, l');
    Goes(s.q, h, c, l, n, q', h', l', n');
    NotAtFault(q', h', l', n');
    if l.DeqReadHead? || l.DeqReadTail? || l.DeqReadNext? {
      ReadLeftFalls(s.q, h, c, l, n, q', h', l');
    } else if l.DeqCheck? || l.DeqHelp? {
      CheckLeftFalls(s.q, h, c, l, n, q', h', l');
    } else if l.DeqReadElement? || l.DeqSwing? || l.DeqAssert? || l.DeqMark? {
      TakeLeftFalls(s.q, l, q', l');
    } else {
      EnqueueLeftFalls(s.q, h, c, l, n, q', h', l');
    }
  }

  lemma NotAtFault(q: Queue, h: History, l: Local, n: Note)
    requires LocalInv(q, h, l, n)
    ensures !l.Fault?
  {}

  /** The next n decisions all go to thread t. */
  function Alone(t: Tid, n: nat): seq<Move> { seq(n, _ => Go(t)) }

  lemma GoesOnAlone(schedule: seq<Move>, m: Move)
    ensures Exec(schedule + [m]) == Step(Exec(schedule), m)
    ensures HistoryOf(schedule + [m]) == Record(HistoryOf(schedule), Exec(schedule), m)
  {
    assert (schedule + [m])[..|schedule|] == schedule;
  }

  /** From every state a run reaches, a thread inside a call that alone takes steps is outside it within 16 of
      them: no thread can keep another from finishing by stopping where it is. */
  lemma AloneFinishes(schedule: seq<Move>, t: Tid) returns (n: nat)
    ensures n <= 16 && Outside(LocalOf(Exec(schedule + Alone(t, n)), t))
  {
    LeftBounded(Exec(schedule).q, LocalOf(Exec(schedule), t));
    n := AloneFinishesWithin(schedule, t);
  }

  lemma {:induction false} AloneFinishesWithin(schedule: seq<Move>, t: Tid) returns (n: nat)
    ensures n <= Left(Exec(schedule).q, LocalOf(Exec(schedule), t))
    ensures Outside(LocalOf(Exec(schedule + Alone(t, n)), t))
    decreases Left(Exec(schedule).q, LocalOf(Exec(schedule), t))
  {
    hide Exec, Step, Left;
    if Outside(LocalOf(Exec(schedule), t)) {
      n := 0;
      assert schedule + Alone(t, 0) == schedule;
    } else {
      GoGetsNearer(schedule, t);
      GoesOnAlone(schedule, Go(t));
      var rest := AloneFinishesWithin(schedule + [Go(t)], t);
      n := rest + 1;
      assert schedule + Alone(t, n) == schedule + [Go(t)] + Alone(t, rest);
    }
  }

  // ----- What a call alone returns -----

  predicate Enqueuing(l: Local) {
    l.EnqReadTail? || l.EnqReadNext? || l.EnqCheck? || l.EnqLink? || l.EnqHelp? || l.EnqSwing? || l.EnqDone?
  }

  predicate Draining(l: Local) {
    || l.DeqReadHead? || l.DeqReadTail? || l.DeqReadNext? || l.DeqCheck? || l.DeqHelp?
    || l.DeqReadElement? || l.DeqSwing? || l.DeqAssert? || l.DeqMark? || l.DeqDone?
  }

  /** While t runs alone all effects are its own, and its call stays what it is. */
  lemma GoAdds(s: System, h: History, t: Tid)
    requires !LocalOf(Step(s, Go(t)), t).Fault?
    ensures var h' := Record(h, s, Go(t));
      && NoteOf(h', t).arg == NoteOf(h, t).arg
      && exists did :: h'.log == h.log + did && NoteOf(h', t).own == NoteOf(h, t).own + did
    ensures var l, l' := LocalOf(s, t), LocalOf(Step(s, Go(t)), t);
      (Enqueuing(l) ==> Enqueuing(l')) && (Draining(l) ==> Draining(l'))
  {
    var h' := Record(h, s, Go(t));
    if Outside(LocalOf(s, t)) {
      assert h'.log == h.log + [] && NoteOf(h', t).own == NoteOf(h, t).own + [];
    } else {
      var did := EffectOf(s.q, LocalOf(s, t), Advance(s.q, LocalOf(s, t)).1);
      hide EffectOf, Retries;
      assert h'.log == h.log + did && NoteOf(h', t).own == NoteOf(h, t).own + did;
    }
  }

  /** While t runs alone all effects are its own, and its call stays what it is. */
  lemma {:induction false} EffectsAreItsOwn(schedule: seq<Move>, t: Tid, n: nat)
    ensures var h, h' := HistoryOf(schedule), HistoryOf(schedule + Alone(t, n));
      && (NoteOf(h, t).own == [] ==> h'.log == h.log + NoteOf(h', t).own)
      && NoteOf(h', t).arg == NoteOf(h, t).arg
    ensures var l, l' := LocalOf(Exec(schedule), t), LocalOf(Exec(schedule + Alone(t, n)), t);
      (Enqueuing(l) ==> Enqueuing(l')) && (Draining(l) ==> Draining(l'))
  {
    hide Exec, HistoryOf, Step, Record, Enqueuing, Draining;
    if n == 0 {
      assert schedule + Alone(t, 0) == schedule;
    } else {
      EffectsAreItsOwn(schedule, t, n - 1);
      var before := schedule + Alone(t, n - 1);
      assert schedule + Alone(t, n) == before + [Go(t)];
      GoesOnAlone(before, Go(t));
      NeverFaults(before + [Go(t)], t);
      GoAdds(Exec(before), HistoryOf(before), t);
    }
  }

  /** Having seen the queue empty changes nothing, and was possible only when it was. */
  lemma {:induction false} ReplayChanging(log: seq<Effect>, own: seq<Effect>)
    requires Replay(log + own).Some?
    ensures Replay(log + Changing(own)) == Replay(log + own)
    ensures Replay(log).Some? && (Changing(own) == [] && FoundEmpty in own ==> Replay(log).value == [])
  {
    if own == [] {
      assert log + own == log && log + Changing(own) == log;
    } else {
      var front, last := own[..|own| - 1], own[|own| - 1];
      assert (log + own)[..|log + own| - 1] == log + front && (log + own)[|log + own| - 1] == last;
      ReplayChanging(log, front);
      if last.FoundEmpty? {
        assert Changing(own) == Changing(front);
        if Changing(front) == [] { assert log + [] == log; }
      } else {
        assert (log + Changing(own))[..|log + Changing(front)|] == log + Changing(front);
        assert log + Changing(own) == log + Changing(front) + [last];
      }
    }
  }

  /** The effects of a call that was alone, replayed on what the queue held before. */
  lemma AloneReplays(schedule: seq<Move>, m: Move, n: nat)
    requires Outside(LocalOf(Exec(schedule), m.tid)) && !m.Go?
    ensures var h := HistoryOf(schedule + [m] + Alone(m.tid, n));
      && Replay(HistoryOf(schedule).log + Changing(NoteOf(h, m.tid).own)) ==
           Some(Contents(Exec(schedule + [m] + Alone(m.tid, n)).q))
      && (Changing(NoteOf(h, m.tid).own) == [] && FoundEmpty in NoteOf(h, m.tid).own ==>
            Contents(Exec(schedule).q) == [])
      && (m.Enqueue? ==> NoteOf(h, m.tid).arg == m.e)
    ensures var l := LocalOf(Exec(schedule + [m] + Alone(m.tid, n)), m.tid);
      if m.Enqueue? then Enqueuing(l) else Draining(l)
  {
    hide Exec, HistoryOf, Contents, Replay, Changing;
    var before := schedule + [m];
    GoesOnAlone(schedule, m);
    EffectsAreItsOwn(before, m.tid, n);
    RefinesFifo(schedule);
    RefinesFifo(before + Alone(m.tid, n));
    ReplayChanging(HistoryOf(schedule).log, NoteOf(HistoryOf(before + Alone(m.tid, n)), m.tid).own);
  }

  lemma ReplayOne(log: seq<Effect>, e: Effect)
    ensures Replay(log + [e]) ==
      if Replay(log) == None then None
      else
        var c := Replay(log).value;
        match e
        case Put(x) => Some(c + [x])
        case Take(x) => if c != [] && c[0] == x then Some(c[1..]) else None
        case FoundEmpty => if c == [] then Some(c) else None
  {
    assert (log + [e])[..|log|] == log;
  }

  /** A drain that runs alone returns the first element, or NULL if and only if the queue is empty. */
  lemma DrainAlone(schedule: seq<Move>, t: Tid) returns (n: nat)
    requires Outside(LocalOf(Exec(schedule), t))
    ensures n <= 16
    ensures var was, s := Contents(Exec(schedule).q), Exec(schedule + [Drain(t)] + Alone(t, n));
      if was == [] then LocalOf(s, t) == DeqDone(None) && Contents(s.q) == []
      else LocalOf(s, t) == DeqDone(Some(was[0])) && Contents(s.q) == was[1..]
  {
    hide Exec, HistoryOf, Contents, Replay, Changing;
    n := AloneFinishes(schedule + [Drain(t)], t);
    AloneReplays(schedule, Drain(t), n);
    var after := schedule + [Drain(t)] + Alone(t, n);
    CallsTakeEffectOnce(after, t);
    RefinesFifo(schedule);
    var log, l := HistoryOf(schedule).log, LocalOf(Exec(after), t);
    assert log + [] == log;
    if l.result.Some? { ReplayOne(log, Take(l.result.value)); }
  }

  /** An enqueue that runs alone ends with its element behind all others. */
  lemma EnqueueAlone(schedule: seq<Move>, t: Tid, e: Pointer) returns (n: nat)
    requires Outside(LocalOf(Exec(schedule), t))
    ensures n <= 16
    ensures var s := Exec(schedule + [Enqueue(t, e)] + Alone(t, n));
      LocalOf(s, t) == EnqDone && Contents(s.q) == Contents(Exec(schedule).q) + [e]
  {
    hide Exec, HistoryOf, Contents, Replay, Changing;
    n := AloneFinishes(schedule + [Enqueue(t, e)], t);
    AloneReplays(schedule, Enqueue(t, e), n);
    CallsTakeEffectOnce(schedule + [Enqueue(t, e)] + Alone(t, n), t);
    RefinesFifo(schedule);
    ReplayOne(HistoryOf(schedule).log, Put(e));
  }

  // ----- Any run -----

  /** The accesses of t inside calls. */
  function Accesses(schedule: seq<Move>, t: Tid): nat {
    if schedule == [] then 0
    else
      var before, m := schedule[..|schedule| - 1], schedule[|schedule| - 1];
      Accesses(before, t) + if m == Go(t) && !Outside(LocalOf(Exec(before), t)) then 1 else 0
  }

  /** The calls t started. */
  function Calls(schedule: seq<Move>, t: Tid): nat {
    if schedule == [] then 0
    else
      var before, m := schedule[..|schedule| - 1], schedule[|schedule| - 1];
      Calls(before, t) + if !m.Go? && m.tid == t && Outside(LocalOf(Exec(before), t)) then 1 else 0
  }

  /** How many accesses the current turn of the loop has made. */
  function Made(l: Local): nat {
    match l
    case EnqReadNext(_, _) | DeqReadTail(_) => 1
    case EnqCheck(_, _, _) | DeqReadNext(_, _) => 2
    case EnqLink(_, _) | EnqHelp(_, _, _) | DeqCheck(_, _, _) => 3
    case EnqSwing(_, _) | DeqHelp(_, _) | DeqReadElement(_, _) => 4
    case DeqSwing(_, _, _) => 5
    case DeqAssert(_, _) => 6
    case DeqMark(_, _) => 7
    case _ => 0
  }

  /** A turn makes at most six accesses before it goes round again, the last one at most eight. */
  lemma AccessMade(q: Queue, l: Local, l': Local)
    requires Inside(l) && l' == Advance(q, l).1 && !l'.Fault?
    ensures Outside(l') || (if Retries(l, l') then Made(l) <= 5 && Made(l') == 0 else Made(l') == Made(l) + 1)
  {}

  ghost predicate Charged(accesses: nat, calls: nat, l: Local, n: Note) {
    accesses + (if Outside(l) then 0 else 8 - Made(l)) <= 8 * calls + 6 * n.retries
  }

  lemma GoCharged(s: System, h: History, t: Tid, accesses: nat, calls: nat)
    requires Charged(accesses, calls, LocalOf(s, t), NoteOf(h, t)) && Inside(LocalOf(s, t))
    requires !LocalOf(Step(s, Go(t)), t).Fault?
    ensures Charged(accesses + 1, calls, LocalOf(Step(s, Go(t)), t), NoteOf(Record(h, s, Go(t)), t))
  {
    hide Advance, Retries, EffectOf, Made;
    AccessMade(s.q, LocalOf(s, t), Advance(s.q, LocalOf(s, t)).1);
    MadeBounded(LocalOf(s, t));
  }

  lemma StartCharged(s: System, h: History, m: Move, accesses: nat, calls: nat)
    requires Charged(accesses, calls, LocalOf(s, m.tid), NoteOf(h, m.tid)) && Outside(LocalOf(s, m.tid)) && !m.Go?
    ensures Charged(accesses, calls + 1, LocalOf(Step(s, m), m.tid), NoteOf(Record(h, s, m), m.tid))
  {}

  /** A decision about another thread, or one that is not possible, changes nothing for t. */
  lemma OtherMove(s: System, h: History, m: Move, t: Tid)
    requires m.tid != t || (m.Go? <==> Outside(LocalOf(s, t)))
    ensures LocalOf(Step(s, m), t) == LocalOf(s, t) && NoteOf(Record(h, s, m), t) == NoteOf(h, t)
  {
    hide Advance, Retries, EffectOf;
  }

  lemma {:induction false} AccessesCharged(schedule: seq<Move>, t: Tid)
    ensures
      Charged(Accesses(schedule, t), Calls(schedule, t), LocalOf(Exec(schedule), t), NoteOf(HistoryOf(schedule), t))
  {
    if schedule != [] {
      hide Charged, Step, Record;
      var before, m := schedule[..|schedule| - 1], schedule[|schedule| - 1];
      AccessesCharged(before, t);
      NeverFaults(before, t);
      NeverFaults(schedule, t);
      var s, h := Exec(before), HistoryOf(before);
      if m.tid != t || (m.Go? <==> Outside(LocalOf(s, t))) {
        OtherMove(s, h, m, t);
      } else if m.Go? {
        GoCharged(s, h, t, Accesses(before, t), Calls(before, t));
      } else {
        StartCharged(s, h, m, Accesses(before, t), Calls(before, t));
      }
    }
  }

  lemma MadeBounded(l: Local)
    ensures Made(l) <= 7
  {}

  /** Lock-free progress: over a run with k enqueues and m drains in effect a thread has made at most eight
      accesses for each call it started and six for each of 2k + m others. */
  lemma AccessesBounded(schedule: seq<Move>, t: Tid)
    ensures var log := HistoryOf(schedule).log;
      Accesses(schedule, t) <= 8 * Calls(schedule, t) + 6 * (2 * |Puts(log)| + |Takes(log)|)
  {
    hide Exec, HistoryOf, Accesses, Calls;
    AccessesCharged(schedule, t);
    MadeBounded(LocalOf(Exec(schedule), t));
    RetriesBounded(schedule, t);
  }
}
