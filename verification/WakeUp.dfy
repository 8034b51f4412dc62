/**
 How producers of updates wake the poll thread of chat/net/poll.c: enqueue the update, then write a
 byte to a non-blocking pipe; the poll thread reads bytes, then drains the queue. One access to the
 update queue or the pipe per step.
 */
module WakeUp {
  type Tid = nat

  /** The poll thread itself produces updates too: when it starts, and from blocks it runs inline. */
  const POLL_THREAD: Tid := 0

  /** Watch is the registration of the pipe's read end; every other update is somebody's. */
  datatype Content = Watch | Other(id: int)

  datatype Update = Update(content: Content, serial: nat)

  /** The two calls of PollApplyUpdates per round are told apart by afterPoll. */
  datatype Place =
    | Starting
    | Started
    | Reading(afterPoll: bool)
    | Draining(afterPoll: bool)
    | Polling
    | Scanning

  /** pipe counts the bytes in the pipe, which holds capacity many; watched says that the pipe is in the
      poll table; writing maps a producer between its enqueue and its write to the update's serial. */
  datatype State = State(
    place: Place, queue: seq<Update>, pipe: nat, capacity: nat, watched: bool, writing: map<Tid, nat>,
    enqueued: seq<Update>, applied: seq<Update>)

  datatype Move = Enqueue(tid: Tid, id: int) | Write(tid: Tid) | Go

  function Created(capacity: nat): State { State(Starting, [], 0, capacity, false, map[], [], []) }

  function Put(s: State, t: Tid, c: Content): State {
    var u := Update(c, |s.enqueued|);
    s.(queue := s.queue + [u], enqueued := s.enqueued + [u], writing := s.writing[t := u.serial])
  }

  /** The poll thread's next access. Inside poll() it may always return: ready, or after a second. */
  function Advance(s: State): State {
    match s.place
    case Starting => Put(s, POLL_THREAD, Watch).(place := Started)
    case Started => s.(place := Reading(false))
    case Reading(after) => s.(pipe := if s.pipe > 255 then s.pipe - 255 else 0, place := Draining(after))
    case Draining(after) =>
      if s.queue == [] then s.(place := if after then Scanning else Polling)
      else s.(queue := s.queue[1..], applied := s.applied + [s.queue[0]],
              watched := s.watched || s.queue[0].content.Watch?)
    case Polling => s.(place := Reading(true))
    case Scanning => s.(place := Reading(false))
  }

  function Step(s: State, m: Move): State {
    match m
    case Enqueue(t, id) =>
      if t in s.writing || (t == POLL_THREAD && !s.place.Scanning?) then s else Put(s, t, Other(id))
    case Write(t) =>
      if t !in s.writing then s
      else s.(pipe := if s.pipe < s.capacity then s.pipe + 1 else s.pipe, writing := s.writing - {t})
    case Go => if POLL_THREAD in s.writing then s else Advance(s)
  }

  function Exec(capacity: nat, schedule: seq<Move>): State {
    if schedule == [] then Created(capacity)
    else Step(Exec(capacity, schedule[..|schedule| - 1]), schedule[|schedule| - 1])
  }

  /** poll() on a table that has the pipe in it returns at once if the pipe holds a byte. */
  predicate MaySleep(s: State) { s.place.Polling? && !(s.watched && s.pipe > 0) }

  // ----- The invariant -----

  /** The update is announced by a byte in the pipe, or its producer still has to write one. */
  ghost predicate Announced(s: State, u: Update) {
    s.pipe > 0 || exists t :: t in s.writing && s.writing[t] == u.serial
  }

  /** Only while the poll thread drains may an update be unannounced: then it is about to be applied. */
  ghost predicate AllAnnounced(s: State) {
    !s.place.Draining? ==> forall i :: 0 <= i < |s.queue| ==> Announced(s, s.queue[i])
  }

  /** The registration of the pipe is in the queue until it is applied, before the first poll(). */
  ghost predicate Watching(s: State) {
    s.place.Starting? || s.watched ||
    ((s.place.Started? || s.place == Reading(false) || s.place == Draining(false)) &&
      exists i :: 0 <= i < |s.queue| && s.queue[i].content.Watch?)
  }

  ghost predicate Inv(s: State) {
    s.capacity > 0 && s.enqueued == s.applied + s.queue && AllAnnounced(s) && Watching(s)
  }

  lemma PutInv(s: State, t: Tid, c: Content, place: Place)
    requires Inv(s) && t !in s.writing
    requires place == s.place || (s.place.Starting? && place.Started? && c.Watch?)
    ensures Inv(Put(s, t, c).(place := place))
  {
    var s' := Put(s, t, c).(place := place);
    forall i | 0 <= i < |s'.queue| && !place.Draining? ensures Announced(s', s'.queue[i]) {
      if i == |s.queue| {
        assert s'.writing[t] == s'.queue[i].serial;
      } else if s.pipe == 0 {
        assert Announced(s, s.queue[i]);
        var p :| p in s.writing && s.writing[p] == s.queue[i].serial;
        assert s'.writing[p] == s'.queue[i].serial;
      }
    }
    forall i | 0 <= i < |s.queue| ensures s'.queue[i] == s.queue[i] {}
    assert s'.queue[|s.queue|].content == c;
  }

  lemma StepInv(s: State, m: Move)
    requires Inv(s)
    ensures Inv(Step(s, m)) && Step(s, m).capacity == s.capacity
  {
    match m
    case Enqueue(t, id) =>
      if t !in s.writing { PutInv(s, t, Other(id), s.place); }
    case Write(t) =>
      var s' := Step(s, m);
      assert t in s.writing ==> s'.pipe > 0;
    case Go => if POLL_THREAD !in s.writing { AdvanceInv(s); }
  }

  lemma AdvanceInv(s: State)
    requires Inv(s) && POLL_THREAD !in s.writing
    ensures Inv(Advance(s))
  {
    if s.place.Starting? {
      PutInv(s, POLL_THREAD, Watch, Started);
    } else if s.place.Draining? && s.queue != [] {
      assert s.queue == [s.queue[0]] + s.queue[1..];
      if !s.watched && !s.queue[0].content.Watch? {
        var i :| 0 <= i < |s.queue| && s.queue[i].content.Watch?;
        assert s.queue[1..][i - 1].content.Watch?;
      }
    }
  }

  lemma {:induction false} Always(capacity: nat, schedule: seq<Move>)
    requires capacity > 0
    ensures Inv(Exec(capacity, schedule)) && Exec(capacity, schedule).capacity == capacity
  {
    if schedule != [] {
      Always(capacity, schedule[..|schedule| - 1]);
      StepInv(Exec(capacity, schedule[..|schedule| - 1]), schedule[|schedule| - 1]);
    }
  }

  // ----- Main results -----

  /** No wake-up is lost: at every poll() with an update still queued, a byte is in the pipe or the
      update's producer has not written yet, so poll() sleeps only while every queued update's producer
      has yet to write. */
  lemma NoLostWakeUp(capacity: nat, schedule: seq<Move>, i: nat)
    requires capacity > 0 && i < |Exec(capacity, schedule).queue| && Exec(capacity, schedule).place.Polling?
    ensures var s := Exec(capacity, schedule);
      && Announced(s, s.queue[i])
      && (MaySleep(s) ==> exists t :: t in s.writing && s.writing[t] == s.queue[i].serial)
  {
    Always(capacity, schedule);
  }

  /** Updates are applied once each, in the order they were enqueued. */
  lemma AppliedInOrder(capacity: nat, schedule: seq<Move>)
    requires capacity > 0
    ensures Exec(capacity, schedule).enqueued == Exec(capacity, schedule).applied + Exec(capacity, schedule).queue
  {
    Always(capacity, schedule);
  }

  // ----- What is queued can be applied -----

  lemma Then(capacity: nat, schedule: seq<Move>, m: Move)
    ensures Exec(capacity, schedule + [m]) == Step(Exec(capacity, schedule), m)
  {
    assert (schedule + [m])[..|schedule|] == schedule;
  }

  /** The steps of the poll thread itself. */
  predicate Own(m: Move) { m == Go || m == Write(POLL_THREAD) }

  /** How far the poll thread is from draining. */
  function Distance(s: State): nat {
    (if POLL_THREAD in s.writing then 1 else 0) +
    match s.place
    case Starting => 3
    case Started => 2
    case Reading(_) => 1
    case Draining(_) => 0
    case Polling => 2
    case Scanning => 2
  }

  lemma StepsNearer(s: State)
    requires !s.place.Draining? || POLL_THREAD in s.writing
    ensures var m := if POLL_THREAD in s.writing then Write(POLL_THREAD) else Go;
      Distance(Step(s, m)) < Distance(s) || (s.place.Starting? && Step(s, m).place.Started?)
  {}

  /** The poll thread alone comes to a drained queue. */
  lemma {:induction false} DrainsAlone(capacity: nat, schedule: seq<Move>) returns (more: seq<Move>)
    ensures forall k :: 0 <= k < |more| ==> Own(more[k])
    ensures Exec(capacity, schedule + more).queue == []
    ensures Exec(capacity, schedule).enqueued <= Exec(capacity, schedule + more).enqueued
    decreases Exec(capacity, schedule).place.Starting?, Distance(Exec(capacity, schedule)),
              |Exec(capacity, schedule).queue|
  {
    hide Exec;
    var s := Exec(capacity, schedule);
    if s.place.Draining? && POLL_THREAD !in s.writing && s.queue == [] {
      more := [];
      assert schedule + more == schedule;
    } else {
      var m := if POLL_THREAD in s.writing then Write(POLL_THREAD) else Go;
      if !s.place.Draining? || POLL_THREAD in s.writing { StepsNearer(s); }
      Then(capacity, schedule, m);
      var rest := DrainsAlone(capacity, schedule + [m]);
      more := [m] + rest;
      assert schedule + more == schedule + [m] + rest;
    }
  }

  /** Every update that was enqueued can be applied, by the poll thread alone. */
  lemma EverythingCanApply(capacity: nat, schedule: seq<Move>) returns (more: seq<Move>)
    requires capacity > 0
    ensures forall k :: 0 <= k < |more| ==> Own(more[k])
    ensures Exec(capacity, schedule).enqueued <= Exec(capacity, schedule + more).applied
  {
    more := DrainsAlone(capacity, schedule);
    AppliedInOrder(capacity, schedule + more);
  }
}
