/**
 The lock-free FIFO queue of chat/utils/queue.c as a transition system: any number of threads, one
 shared memory access per step. Node identities are never reused, because malloc is modelled by
 extending the heap and free(head) is left out.
 */
module MichaelScott {
  import opened Wrappers

  type NodeId = nat
  type Tid = nat
  /** What the queue carries, a void pointer. */
  type Pointer = int

  datatype Cell = Cell(element: Pointer, next: Option<NodeId>, dequeued: bool)

  /** The shared words: the malloc'ed nodes and the head and tail pointers. */
  datatype Queue = Queue(heap: seq<Cell>, head: NodeId, tail: NodeId)

  /** Where a thread stands, with the registers it still needs. Each constructor but the first and the
      last four names the next shared access. Fault is a failed assertion or a wild or NULL access. */
  datatype Local =
    | Idle
    | EnqReadTail(node: NodeId)
    | EnqReadNext(node: NodeId, tail: NodeId)
    | EnqCheck(node: NodeId, tail: NodeId, seen: Option<NodeId>)
    | EnqLink(node: NodeId, tail: NodeId)
    | EnqHelp(node: NodeId, tail: NodeId, next: NodeId)
    | EnqSwing(node: NodeId, tail: NodeId)
    | DeqReadHead
    | DeqReadTail(head: NodeId)
    | DeqReadNext(head: NodeId, tail: NodeId)
    | DeqCheck(head: NodeId, tail: NodeId, seen: Option<NodeId>)
    | DeqHelp(tail: NodeId, next: NodeId)
    | DeqReadElement(head: NodeId, seen: Option<NodeId>)
    | DeqSwing(head: NodeId, next: NodeId, element: Pointer)
    | DeqAssert(next: NodeId, element: Pointer)
    | DeqMark(next: NodeId, element: Pointer)
    | EnqDone
    | DeqDone(result: Option<Pointer>)
    | Fault

  /** QueueCreate: one dummy node, both pointers on it. */
  const CREATED: Queue := Queue([Cell(0, None, false)], 0, 0)

  /** Compare-and-swap on the tail pointer. */
  function SwingTail(q: Queue, expected: NodeId, next: NodeId): Queue {
    if q.tail == expected then q.(tail := next) else q
  }

  /** The next shared access of a thread at l. */
  function Advance(q: Queue, l: Local): (Queue, Local) {
    match l
    case Idle | EnqDone | DeqDone(_) | Fault => (q, l)
    case EnqReadTail(node) => (q, EnqReadNext(node, q.tail))
    case EnqReadNext(node, tail) =>
      if tail < |q.heap| then (q, EnqCheck(node, tail, q.heap[tail].next)) else (q, Fault)
    case EnqCheck(node, tail, seen) =>
      if tail != q.tail then (q, EnqReadTail(node))
      else if seen == None then (q, EnqLink(node, tail))
      else (q, EnqHelp(node, tail, seen.value))
    case EnqLink(node, tail) =>
      if tail >= |q.heap| then (q, Fault)
      else if q.heap[tail].next == None then
        (q.(heap := q.heap[tail := q.heap[tail].(next := Some(node))]), EnqSwing(node, tail))
      else (q, EnqReadTail(node))
    case EnqHelp(node, tail, next) => (SwingTail(q, tail, next), EnqReadTail(node))
    case EnqSwing(node, tail) => (SwingTail(q, tail, node), EnqDone)
    case DeqReadHead => (q, DeqReadTail(q.head))
    case DeqReadTail(head) => (q, DeqReadNext(head, q.tail))
    case DeqReadNext(head, tail) =>
      if head < |q.heap| then (q, DeqCheck(head, tail, q.heap[head].next)) else (q, Fault)
    case DeqCheck(head, tail, seen) =>
      if head != q.head then (q, DeqReadHead)
      else if head != tail then (q, DeqReadElement(head, seen))
      else if seen == None then (q, DeqDone(None))
      else (q, DeqHelp(tail, seen.value))
    case DeqHelp(tail, next) => (SwingTail(q, tail, next), DeqReadHead)
    case DeqReadElement(head, seen) =>
      if seen.Some? && seen.value < |q.heap|
      then (q, DeqSwing(head, seen.value, q.heap[seen.value].element))
      else (q, Fault)
    case DeqSwing(head, next, element) =>
      if q.head == head then (q.(head := next), DeqAssert(next, element)) else (q, DeqReadHead)
    case DeqAssert(next, element) =>
      if next < |q.heap| && !q.heap[next].dequeued then (q, DeqMark(next, element)) else (q, Fault)
    case DeqMark(next, element) =>
      if next < |q.heap|
      then (q.(heap := q.heap[next := q.heap[next].(dequeued := true)]), DeqDone(Some(element)))
      else (q, Fault)
  }

  // ----- Runs -----

  datatype System = System(q: Queue, locals: map<Tid, Local>)

  /** One scheduling decision: a thread outside any call starts one, or a thread inside a call makes
      its next access. A decision that is not possible changes nothing. */
  datatype Move = Enqueue(tid: Tid, e: Pointer) | Drain(tid: Tid) | Go(tid: Tid)

  function LocalOf(s: System, t: Tid): Local { if t in s.locals then s.locals[t] else Idle }

  predicate Outside(l: Local) { l.Idle? || l.EnqDone? || l.DeqDone? }

  function Step(s: System, m: Move): System {
    var l := LocalOf(s, m.tid);
    match m
    case Enqueue(t, e) =>
      if Outside(l)
      then System(s.q.(heap := s.q.heap + [Cell(e, None, false)]), s.locals[t := EnqReadTail(|s.q.heap|)])
      else s
    case Drain(t) => if Outside(l) then s.(locals := s.locals[t := DeqReadHead]) else s
    case Go(t) =>
      if Outside(l) then s
      else
        var (q, l') := Advance(s.q, l);
        System(q, s.locals[t := l'])
  }

  /** The system after a schedule, from QueueCreate. */
  function Exec(schedule: seq<Move>): System {
    if schedule == [] then System(CREATED, map[])
    else Step(Exec(schedule[..|schedule| - 1]), schedule[|schedule| - 1])
  }

  // ----- What a run did -----

  /** What the calls do to the abstract queue, and when: an enqueue when its node is linked, a drain
      when it swings head, an empty drain when it reads a NULL next. */
  datatype Effect = Put(e: Pointer) | Take(e: Pointer) | FoundEmpty

  function EffectOf(q: Queue, l: Local, l': Local): seq<Effect> {
    if l.EnqLink? && l'.EnqSwing? && l.node < |q.heap| then [Put(q.heap[l.node].element)]
    else if l.DeqSwing? && l'.DeqAssert? then [Take(l.element)]
    else if l.DeqReadNext? && l'.DeqCheck? && l'.seen == None then [FoundEmpty]
    else []
  }

  /** The loops go round again. */
  predicate Retries(l: Local, l': Local) {
    || ((l.EnqCheck? || l.EnqLink? || l.EnqHelp?) && l'.EnqReadTail?)
    || ((l.DeqCheck? || l.DeqHelp? || l.DeqSwing?) && l'.DeqReadHead?)
  }

  /** What is recorded of one thread: the argument of its current or last call, the effects of that
      call so far, and how often its loops went round again over the whole run. The last three say
      where in the chain the tail and head it last read stood, and how many pointer changes its
      earlier retries are charged to. */
  datatype Note = Note(arg: Pointer, own: seq<Effect>, retries: nat, tailIx: nat, headIx: nat, charged: nat)

  /** What is recorded of a run: the nodes in the order they were linked, how often head and tail were
      swung, and all effects in order. */
  datatype History = History(chain: seq<NodeId>, headAt: nat, tailAt: nat, log: seq<Effect>, notes: map<Tid, Note>)

  function NoteOf(h: History, t: Tid): Note { if t in h.notes then h.notes[t] else Note(0, [], 0, 0, 0, 0) }

  /** Successful compare-and-swaps so far: links, tail swings and head swings. */
  function Changes(h: History): int { |h.chain| - 1 + h.tailAt + h.headAt }

  function RecordShared(h: History, q: Queue, l: Local, q': Queue, l': Local): History {
    h.(chain := if l.EnqLink? && l'.EnqSwing? then h.chain + [l.node] else h.chain,
       headAt := if l.DeqSwing? && l'.DeqAssert? then h.headAt + 1 else h.headAt,
       tailAt := if q'.tail != q.tail then h.tailAt + 1 else h.tailAt,
       log := h.log + EffectOf(q, l, l'))
  }

  function RecordNote(n: Note, h: History, h': History, q: Queue, l: Local, l': Local): Note {
    n.(own := n.own + EffectOf(q, l, l'),
       retries := if Retries(l, l') then n.retries + 1 else n.retries,
       charged := if Retries(l, l') && Changes(h') >= 0 then Changes(h') else n.charged,
       tailIx := if l.EnqReadTail? || l.DeqReadTail? then h.tailAt else n.tailIx,
       headIx := if l.DeqReadHead? then h.headAt
                 else if l.DeqSwing? && l'.DeqAssert? then n.headIx + 1 else n.headIx)
  }

  function Record(h: History, s: System, m: Move): History {
    var l, n := LocalOf(s, m.tid), NoteOf(h, m.tid);
    match m
    case Enqueue(t, e) => if Outside(l) then h.(notes := h.notes[t := n.(arg := e, own := [])]) else h
    case Drain(t) => if Outside(l) then h.(notes := h.notes[t := n.(own := [])]) else h
    case Go(t) =>
      if Outside(l) then h
      else
        var (q', l') := Advance(s.q, l);
        var h' := RecordShared(h, s.q, l, q', l');
        h'.(notes := h.notes[t := RecordNote(n, h, h', s.q, l, l')])
  }

  function HistoryOf(schedule: seq<Move>): History {
    if schedule == [] then History([0], 0, 0, [], map[])
    else
      var before := schedule[..|schedule| - 1];
      Record(HistoryOf(before), Exec(before), schedule[|schedule| - 1])
  }

  // ----- The abstract queue -----

  /** The elements held: those of the nodes behind head, found by following next. */
  function Walk(heap: seq<Cell>, n: NodeId, fuel: nat): seq<Pointer>
    decreases fuel
  {
    if fuel == 0 || n >= |heap| || heap[n].next == None || heap[n].next.value >= |heap| then []
    else [heap[heap[n].next.value].element] + Walk(heap, heap[n].next.value, fuel - 1)
  }

  function Contents(q: Queue): seq<Pointer> { Walk(q.heap, q.head, |q.heap|) }

  /** A sequential FIFO queue that starts empty and performs the effects in order; None if one of them
      is not possible at its turn. */
  function Replay(log: seq<Effect>): Option<seq<Pointer>> {
    if log == [] then Some([])
    else
      var before := Replay(log[..|log| - 1]);
      if before == None then None
      else
        match log[|log| - 1]
        case Put(e) => Some(before.value + [e])
        case Take(e) => if before.value != [] && before.value[0] == e then Some(before.value[1..]) else None
        case FoundEmpty => if before.value == [] then before else None
  }

  function Puts(log: seq<Effect>): seq<Pointer> {
    if log == [] then []
    else Puts(log[..|log| - 1]) + (if log[|log| - 1].Put? then [log[|log| - 1].e] else [])
  }

  function Takes(log: seq<Effect>): seq<Pointer> {
    if log == [] then []
    else Takes(log[..|log| - 1]) + (if log[|log| - 1].Take? then [log[|log| - 1].e] else [])
  }

  /** The effects of a call other than having seen an empty queue. */
  function Changing(own: seq<Effect>): seq<Effect> {
    if own == [] then []
    else Changing(own[..|own| - 1]) + (if own[|own| - 1].FoundEmpty? then [] else [own[|own| - 1]])
  }
}
