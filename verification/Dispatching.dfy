/**
 The dispatch queue of chat/utils/dispatchqueue.c as a transition system: callers, workers and the
 thread that deallocates, one access to the block queue or the semaphore per step. The block queue is
 the FIFO sequence that the lock-free queue refines.
 */
module Dispatching {
  import opened Finite

  type Id = nat

  datatype Block = Job(id: Id) | Exit

  /** Between sem_wait and QueueDrain a worker is Woken. Exited is pthread_exit, called by an exit block. */
  datatype Worker = Waiting | Woken | Running(block: Block) | Exited

  /** A call of Dispatch comes from a thread of its own or from the block a worker runs. */
  datatype Caller = Client(c: nat) | FromBlock(w: nat)

  /** _DisptachQueueDealloc: Exiting(i, enqueued) dispatches exit block i, Joining(i) joins thread i. */
  datatype Dealloc = Alive | Exiting(i: nat, enqueued: bool) | Joining(i: nat) | Freed

  /** posting holds the callers between QueueEnqueue and sem_post. */
  datatype State = State(queue: seq<Block>, semaphore: nat, workers: seq<Worker>, posting: set<Caller>,
                         dealloc: Dealloc)

  /** What happened so far: the blocks in the order they were enqueued, taken and finished, the drains
      that found nothing, how many blocks were enqueued when dealloc began, and how many callers enqueued
      later. */
  datatype Past = Past(dispatched: seq<Block>, taken: seq<Block>, finished: seq<Block>, misses: nat, begun: nat,
                       late: nat)

  datatype Run = Run(now: State, past: Past)

  /** A decision of the scheduler. One that is not possible changes nothing. */
  datatype Move =
    | Enqueue(caller: Caller, id: Id)
    | Post(caller: Caller)
    | Wait(w: nat)
    | Drain(w: nat)
    | Finish(w: nat)
    | BeginDealloc
    | GoDealloc

  /** DispatchQueueCreate with its threads started; kDispatchQueueSerial asks for one thread, otherwise ten. */
  function Created(threads: nat): Run {
    Run(State([], 0, seq(threads, _ => Waiting), {}, Alive), Past([], [], [], 0, 0, 0))
  }

  predicate MayCall(s: State, c: Caller) {
    c !in s.posting && (c.FromBlock? ==> c.w < |s.workers| && s.workers[c.w].Running?)
  }

  function Put(r: Run, b: Block): Run {
    r.(now := r.now.(queue := r.now.queue + [b]), past := r.past.(dispatched := r.past.dispatched + [b]))
  }

  function Become(r: Run, w: nat, worker: Worker): Run
    requires w < |r.now.workers|
  {
    r.(now := r.now.(workers := r.now.workers[w := worker]))
  }

  function Take(r: Run, w: nat): Run
    requires w < |r.now.workers|
  {
    if r.now.queue == [] then Become(r, w, Waiting).(past := r.past.(misses := r.past.misses + 1))
    else
      var b := r.now.queue[0];
      Run(r.now.(queue := r.now.queue[1..], workers := r.now.workers[w := if b.Exit? then Exited else Running(b)]),
          r.past.(taken := r.past.taken + [b]))
  }

  function DeallocStep(r: Run): Run {
    var s, n := r.now, |r.now.workers|;
    match s.dealloc
    case Alive | Freed => r
    case Exiting(i, false) =>
      if i < n then var r' := Put(r, Exit); r'.(now := r'.now.(dealloc := Exiting(i, true)))
      else r.(now := s.(dealloc := Joining(0)))
    case Exiting(i, true) => r.(now := s.(semaphore := s.semaphore + 1, dealloc := Exiting(i + 1, false)))
    case Joining(i) =>
      if i >= n then r.(now := s.(dealloc := Freed))
      else if s.workers[i].Exited? then r.(now := s.(dealloc := Joining(i + 1)))
      else r
  }

  function Step(r: Run, m: Move): Run {
    var s, n := r.now, |r.now.workers|;
    match m
    case Enqueue(c, id) =>
      if !MayCall(s, c) then r
      else
        var r' := Put(r, Job(id));
        Run(r'.now.(posting := s.posting + {c}), r'.past.(late := r.past.late + if s.dealloc.Alive? then 0 else 1))
    case Post(c) =>
      if c in s.posting then r.(now := s.(semaphore := s.semaphore + 1, posting := s.posting - {c})) else r
    case Wait(w) =>
      if w < n && s.workers[w].Waiting? && s.semaphore > 0
      then var r' := Become(r, w, Woken); r'.(now := r'.now.(semaphore := s.semaphore - 1))
      else r
    case Drain(w) => if w < n && s.workers[w].Woken? then Take(r, w) else r
    case Finish(w) =>
      if w < n && s.workers[w].Running? && FromBlock(w) !in s.posting
      then Become(r, w, Waiting).(past := r.past.(finished := r.past.finished + [s.workers[w].block]))
      else r
    case BeginDealloc =>
      if s.dealloc.Alive?
      then Run(s.(dealloc := Exiting(0, false)), r.past.(begun := |r.past.dispatched|))
      else r
    case GoDealloc => DeallocStep(r)
  }

  function Exec(threads: nat, schedule: seq<Move>): Run {
    if schedule == [] then Created(threads)
    else Step(Exec(threads, schedule[..|schedule| - 1]), schedule[|schedule| - 1])
  }

  // ----- Counting -----

  /** Workers between sem_wait and QueueDrain. */
  function WokenCount(ws: seq<Worker>): nat {
    if ws == [] then 0 else WokenCount(ws[..|ws| - 1]) + if ws[|ws| - 1].Woken? then 1 else 0
  }

  function ExitedCount(ws: seq<Worker>): nat {
    if ws == [] then 0 else ExitedCount(ws[..|ws| - 1]) + if ws[|ws| - 1].Exited? then 1 else 0
  }

  /** How many workers run b. */
  function RunningCount(ws: seq<Worker>, b: Block): nat {
    if ws == [] then 0 else RunningCount(ws[..|ws| - 1], b) + Bit(ws[|ws| - 1] == Running(b))
  }

  /** How often b occurs. */
  function Times(bs: seq<Block>, b: Block): nat {
    if bs == [] then 0 else Times(bs[..|bs| - 1], b) + Bit(bs[|bs| - 1] == b)
  }

  function Exits(bs: seq<Block>): nat {
    if bs == [] then 0 else Exits(bs[..|bs| - 1]) + if bs[|bs| - 1].Exit? then 1 else 0
  }

  /** The blocks other than exit blocks. */
  function Jobs(bs: seq<Block>): seq<Block> {
    if bs == [] then [] else Jobs(bs[..|bs| - 1]) + if bs[|bs| - 1].Exit? then [] else [bs[|bs| - 1]]
  }
}
