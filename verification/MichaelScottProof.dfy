/** Why the queue of module MichaelScott is a FIFO queue under every schedule. */
module MichaelScottProof {
  import opened Wrappers
  import opened MichaelScott
  import Finite

  // ----- The invariant -----

  ghost predicate Distinct(chain: seq<NodeId>) {
    forall i, j :: 0 <= i < j < |chain| ==> chain[i] != chain[j]
  }

  /** The chain is a linked list in the heap. */
  ghost predicate Linked(heap: seq<Cell>, chain: seq<NodeId>) {
    && |chain| >= 1
    && (forall i :: 0 <= i < |chain| ==> chain[i] < |heap|)
    && (forall i, j :: 0 <= i < j == i + 1 < |chain| ==> heap[chain[i]].next == Some(chain[j]))
    && heap[chain[|chain| - 1]].next == None
  }

  /** The nodes from position i on have not been dequeued. */
  ghost predicate Fresh(heap: seq<Cell>, chain: seq<NodeId>, i: nat) {
    forall k :: i <= k < |chain| ==> chain[k] < |heap| && !heap[chain[k]].dequeued
  }

  /** The chain is the linked list; head is at headAt, tail at tailAt, at most one behind the last node. */
  ghost predicate ChainInv(q: Queue, h: History) {
    && Linked(q.heap, h.chain) && Distinct(h.chain)
    && h.headAt <= h.tailAt < |h.chain| <= h.tailAt + 2
    && h.chain[h.headAt] == q.head && h.chain[h.tailAt] == q.tail
    && Fresh(q.heap, h.chain, h.headAt + 1)
  }

  /** c is the elements of the chain behind head. */
  ghost predicate Matches(q: Queue, h: History, c: seq<Pointer>) {
    && |c| == |h.chain| - 1 - h.headAt
    && forall k, i :: 0 <= k < |c| && i == h.headAt + 1 + k ==>
         h.chain[i] < |q.heap| && q.heap[h.chain[i]].element == c[k]
  }

  /** What one step's effect makes of the queue contents; None if the effect is not possible. */
  function After(c: seq<Pointer>, did: seq<Effect>): Option<seq<Pointer>> {
    if did == [] then Some(c)
    else
      match did[0]
      case Put(e) => Some(c + [e])
      case Take(e) => if c != [] && c[0] == e then Some(c[1..]) else None
      case FoundEmpty => if c == [] then Some(c) else None
  }

  /** A node that its thread has not linked yet. */
  ghost predicate Private(q: Queue, h: History, node: NodeId) {
    node < |q.heap| && node !in h.chain && q.heap[node].next == None && !q.heap[node].dequeued
  }

  ghost predicate Own(l: Local, node: NodeId) {
    (l.EnqReadTail? || l.EnqReadNext? || l.EnqCheck? || l.EnqLink? || l.EnqHelp?) && l.node == node
  }

  /** The thread swung head to this node and has not set its flag yet. */
  ghost predicate Marking(l: Local, node: NodeId) {
    (l.DeqAssert? || l.DeqMark?) && l.next == node
  }

  ghost predicate AtTail(h: History, n: Note, tail: NodeId) {
    n.tailIx <= h.tailAt && n.tailIx < |h.chain| && h.chain[n.tailIx] == tail
  }

  ghost predicate AtHead(h: History, n: Note, head: NodeId) {
    n.headIx <= h.headAt && n.headIx < |h.chain| && h.chain[n.headIx] == head
  }

  ghost predicate Follows(h: History, i: nat, next: NodeId) {
    i + 1 < |h.chain| && h.chain[i + 1] == next
  }

  /** Where in the chain the pointers a thread holds stand. */
  ghost predicate Placed(h: History, l: Local, n: Note) {
    match l
    case Idle | EnqReadTail(_) | EnqDone | DeqReadHead | DeqDone(_) => true
    case EnqReadNext(_, tail) => AtTail(h, n, tail)
    case EnqCheck(_, tail, seen) => AtTail(h, n, tail) && (seen.Some? ==> Follows(h, n.tailIx, seen.value))
    case EnqLink(_, tail) => AtTail(h, n, tail)
    case EnqHelp(_, tail, next) => AtTail(h, n, tail) && Follows(h, n.tailIx, next)
    case EnqSwing(node, tail) => AtTail(h, n, tail) && Follows(h, n.tailIx, node)
    case DeqReadTail(head) => AtHead(h, n, head)
    case DeqReadNext(head, tail) => AtHead(h, n, head) && AtTail(h, n, tail) && n.headIx <= n.tailIx
    case DeqCheck(head, tail, seen) =>
      && AtHead(h, n, head) && AtTail(h, n, tail) && n.headIx <= n.tailIx
      && (seen.Some? ==> Follows(h, n.headIx, seen.value))
      && (seen.None? ==> n.headIx == n.tailIx)
    case DeqHelp(tail, next) => AtTail(h, n, tail) && Follows(h, n.tailIx, next)
    case DeqReadElement(head, seen) =>
      AtHead(h, n, head) && seen.Some? && Follows(h, n.headIx, seen.value) && n.headIx < h.tailAt
    case DeqSwing(head, next, _) =>
      AtHead(h, n, head) && Follows(h, n.headIx, next) && n.headIx < h.tailAt
    case DeqAssert(next, _) => AtHead(h, n, next)
    case DeqMark(next, _) => AtHead(h, n, next)
    case Fault => false
  }

  /** How many pointer changes have happened since the current round of the loop began. */
  function Uncharged(h: History, l: Local, n: Note): int {
    match l
    case EnqReadNext(_, _) => h.tailAt - n.tailIx
    case EnqCheck(_, _, seen) => if seen == None then |h.chain| - 1 - n.tailIx else h.tailAt - n.tailIx
    case EnqLink(_, _) => |h.chain| - 1 - n.tailIx
    case EnqHelp(_, _, _) => h.tailAt - n.tailIx
    case DeqReadTail(_) => h.headAt - n.headIx
    case DeqReadNext(_, _) => (h.headAt - n.headIx) + (h.tailAt - n.tailIx)
    case DeqCheck(_, _, _) => (h.headAt - n.headIx) + (h.tailAt - n.tailIx)
    case DeqHelp(_, _) => h.tailAt - n.tailIx
    case DeqReadElement(_, _) => h.headAt - n.headIx
    case DeqSwing(_, _, _) => h.headAt - n.headIx
    case _ => 0
  }

  /** Every retry is charged to a pointer change of its own round. */
  ghost predicate Paid(h: History, l: Local, n: Note) {
    n.retries <= n.charged <= Changes(h) && n.charged + Uncharged(h, l, n) <= Changes(h)
  }

  /** What the call with argument arg has done so far to the abstract queue, and whether it saw it empty. */
  ghost predicate Progressed(l: Local, arg: Pointer, changed: seq<Effect>, sawEmpty: bool) {
    match l
    case Idle => true
    case EnqSwing(_, _) | EnqDone => changed == [Put(arg)]
    case DeqCheck(_, _, seen) => changed == [] && (seen.None? ==> sawEmpty)
    case DeqAssert(_, element) => changed == [Take(element)]
    case DeqMark(_, element) => changed == [Take(element)]
    case DeqDone(result) => if result == None then changed == [] && sawEmpty else changed == [Take(result.value)]
    case _ => changed == []
  }

  ghost predicate Did(l: Local, n: Note) { Progressed(l, n.arg, Changing(n.own), FoundEmpty in n.own) }

  /** What the heap holds for the nodes a thread holds. */
  ghost predicate Holds(q: Queue, h: History, l: Local, n: Note) {
    && (forall node: NodeId :: Own(l, node) ==> Private(q, h, node) && q.heap[node].element == n.arg)
    && (l.DeqSwing? ==> l.next < |q.heap| && q.heap[l.next].element == l.element)
    && (forall node: NodeId :: Marking(l, node) ==> node < |q.heap| && !q.heap[node].dequeued)
  }

  /** What a thread standing at l may rely on. */
  ghost predicate LocalInv(q: Queue, h: History, l: Local, n: Note) {
    Placed(h, l, n) && Paid(h, l, n) && Did(l, n) && Holds(q, h, l, n)
  }

  /** No two threads hold the same unlinked node. */
  ghost predicate OwnersDiffer(s: System) {
    forall t: Tid, u: Tid, node: NodeId ::
      t != u && Own(LocalOf(s, t), node) ==> !Own(LocalOf(s, u), node)
  }

  /** No two threads have swung head to the same node. */
  ghost predicate MarkersDiffer(s: System) {
    forall t: Tid, u: Tid, node: NodeId ::
      t != u && Marking(LocalOf(s, t), node) ==> !Marking(LocalOf(s, u), node)
  }

  ghost predicate Inv(s: System, h: History) {
    && ChainInv(s.q, h)
    && Replay(h.log).Some? && Matches(s.q, h, Replay(h.log).value)
    && (forall t: Tid :: LocalInv(s.q, h, LocalOf(s, t), NoteOf(h, t)))
    && OwnersDiffer(s) && MarkersDiffer(s)
  }

  // ----- What one thread's step leaves the others -----

  /** The shared state only moves forward: the chain and the heap grow, head and tail advance, and
      elements stay. */
  ghost predicate Forward(q: Queue, h: History, q': Queue, h': History) {
    && ChainInv(q, h) && ChainInv(q', h')
    && h.chain <= h'.chain && h.headAt <= h'.headAt && h.tailAt <= h'.tailAt
    && |q.heap| <= |q'.heap|
    && (forall n :: 0 <= n < |q.heap| ==> q'.heap[n].element == q.heap[n].element)
  }

  lemma OthersStay(q: Queue, h: History, q': Queue, h': History, l: Local, n: Note)
    requires Forward(q, h, q', h') && LocalInv(q, h, l, n)
    requires forall node: NodeId :: Own(l, node) ==> Private(q', h', node)
    requires forall node: NodeId :: Marking(l, node) ==> node < |q'.heap| && !q'.heap[node].dequeued
    ensures LocalInv(q', h', l, n)
  {
    assert forall i :: 0 <= i < |h.chain| ==> h'.chain[i] == h.chain[i];
    assert Placed(h', l, n);
    assert Uncharged(h', l, n) - Uncharged(h, l, n) <= Changes(h') - Changes(h);
  }

  // ----- The steps that change shared words -----

  lemma ReplayAfter(log: seq<Effect>, did: seq<Effect>)
    requires Replay(log).Some? && |did| <= 1
    ensures Replay(log + did) == After(Replay(log).value, did)
  {
    if did == [] {
      assert log + did == log;
    } else {
      assert (log + did)[..|log|] == log;
    }
  }

  lemma OnlyLastOpen(heap: seq<Cell>, chain: seq<NodeId>, i: nat)
    requires Linked(heap, chain) && i < |chain|
    ensures heap[chain[i]].next == if i + 1 < |chain| then Some(chain[i + 1]) else None
  {}

  lemma LinkLast(heap: seq<Cell>, chain: seq<NodeId>, i: nat, node: NodeId)
    requires Linked(heap, chain) && Distinct(chain)
    requires i < |chain| && heap[chain[i]].next == None
    requires node < |heap| && node !in chain && heap[node].next == None
    ensures i == |chain| - 1
    ensures Distinct(chain + [node])
    ensures Linked(heap[chain[i] := heap[chain[i]].(next := Some(node))], chain + [node])
  {
    OnlyLastOpen(heap, chain, i);
  }

  /** A link: the node becomes the last of the chain, its element the last one held. */
  lemma LinkStep(q: Queue, h: History, c: seq<Pointer>, tail: NodeId, i: nat, node: NodeId, q': Queue, h': History)
    requires ChainInv(q, h) && Matches(q, h, c) && Private(q, h, node)
    requires i < |h.chain| && i <= h.tailAt && h.chain[i] == tail && q.heap[tail].next == None
    requires q' == q.(heap := q.heap[tail := q.heap[tail].(next := Some(node))])
    requires h'.chain == h.chain + [node] && h'.headAt == h.headAt && h'.tailAt == h.tailAt
    ensures Forward(q, h, q', h') && Matches(q', h', c + [q.heap[node].element])
  {
    LinkLast(q.heap, h.chain, i, node);
  }

  /** A tail swing, successful or not. */
  lemma SwingTailStep(q: Queue, h: History, c: seq<Pointer>, tail: NodeId, i: nat, next: NodeId, q': Queue, h': History)
    requires ChainInv(q, h) && Matches(q, h, c)
    requires i <= h.tailAt && h.chain[i] == tail && Follows(h, i, next)
    requires q' == SwingTail(q, tail, next)
    requires h'.chain == h.chain && h'.headAt == h.headAt
    requires h'.tailAt == if q'.tail != q.tail then h.tailAt + 1 else h.tailAt
    ensures Forward(q, h, q', h') && Matches(q', h', c)
    ensures h'.tailAt > i
  {
    if q.tail == tail {
      assert i == h.tailAt;
    }
  }

  /** A successful head swing: the first element held leaves. */
  lemma SwingHeadStep(q: Queue, h: History, c: seq<Pointer>, i: nat, next: NodeId, q': Queue, h': History)
    requires ChainInv(q, h) && Matches(q, h, c)
    requires i <= h.headAt && h.chain[i] == q.head && Follows(h, i, next) && i < h.tailAt
    requires q' == q.(head := next)
    requires h'.chain == h.chain && h'.headAt == h.headAt + 1 && h'.tailAt == h.tailAt
    ensures i == h.headAt
    ensures Forward(q, h, q', h')
    ensures c != [] && c[0] == q.heap[next].element && Matches(q', h', c[1..])
  {
    assert i == h.headAt;
    assert h.chain[h.headAt + 1 + 0] == next;
  }

  /** Setting the flag of a node that head has passed or is at. */
  lemma MarkStep(q: Queue, h: History, c: seq<Pointer>, i: nat, next: NodeId, q': Queue)
    requires ChainInv(q, h) && Matches(q, h, c)
    requires i <= h.headAt && h.chain[i] == next
    requires q' == q.(heap := q.heap[next := q.heap[next].(dequeued := true)])
    ensures Forward(q, h, q', h) && Matches(q', h, c)
  {}

  lemma ChangingPush(own: seq<Effect>, e: Effect)
    ensures Changing(own + [e]) == Changing(own) + (if e.FoundEmpty? then [] else [e])
  {
    assert (own + [e])[..|own|] == own;
  }

  // ----- One step of one thread -----

  ghost predicate Ready(q: Queue, h: History, c: seq<Pointer>, l: Local, n: Note) {
    ChainInv(q, h) && Matches(q, h, c) && LocalInv(q, h, l, n)
  }

  /** What a step of a thread at l does to the shared state, and that it spares the nodes others hold. */
  ghost predicate SharedGood(q: Queue, h: History, c: seq<Pointer>, l: Local, q': Queue, h': History, l': Local) {
    && Forward(q, h, q', h')
    && After(c, EffectOf(q, l, l')).Some? && Matches(q', h', After(c, EffectOf(q, l, l')).value)
    && (forall node: NodeId :: Private(q, h, node) && !Own(l, node) ==> Private(q', h', node))
    && (forall node: NodeId :: node < |q.heap| && !q.heap[node].dequeued && !Marking(l, node) ==>
          !q'.heap[node].dequeued)
    && (forall node: NodeId :: Own(l', node) ==> Own(l, node))
    && (forall node: NodeId :: Marking(l', node) ==> Marking(l, node) || node !in h.chain[..h.headAt + 1])
  }

  lemma LinkGoes(q: Queue, h: History, c: seq<Pointer>, l: Local, n: Note, q': Queue, h': History, l': Local)
    requires Ready(q, h, c, l, n) && l.EnqLink? && l'.EnqSwing?
    requires (q', l') == Advance(q, l) && h' == RecordShared(h, q, l, q', l')
    ensures SharedGood(q, h, c, l, q', h', l') && Follows(h', n.tailIx, l.node)
  {
    hide Paid, Did, Matches, Forward, Distinct, Fresh;
    assert Own(l, l.node);
    OnlyLastOpen(q.heap, h.chain, n.tailIx);
    LinkStep(q, h, c, l.tail, n.tailIx, l.node, q', h');
    hide Linked;
  }

  lemma TailSwingRecorded(q: Queue, h: History, l: Local, q': Queue, h': History, l': Local)
    requires l.EnqHelp? || l.EnqSwing? || l.DeqHelp?
    requires (q', l') == Advance(q, l) && h' == RecordShared(h, q, l, q', l')
    ensures q' == SwingTail(q, l.tail, if l.EnqSwing? then l.node else l.next)
    ensures h' == h.(tailAt := if q'.tail != q.tail then h.tailAt + 1 else h.tailAt)
    ensures l' == if l.EnqHelp? then EnqReadTail(l.node) else if l.EnqSwing? then EnqDone else DeqReadHead
  {
    assert h.log + [] == h.log;
  }

  lemma TailStands(q: Queue, h: History, l: Local, n: Note, next: NodeId)
    requires LocalInv(q, h, l, n) && (l.EnqHelp? || l.EnqSwing? || l.DeqHelp?)
    requires next == if l.EnqSwing? then l.node else l.next
    ensures AtTail(h, n, l.tail) && Follows(h, n.tailIx, next)
  {}

  lemma TailSwingGoes(q: Queue, h: History, c: seq<Pointer>, l: Local, n: Note, next: NodeId, q': Queue, h': History,
                      l': Local)
    requires Ready(q, h, c, l, n) && (l.EnqHelp? || l.EnqSwing? || l.DeqHelp?)
    requires next == if l.EnqSwing? then l.node else l.next
    requires q' == SwingTail(q, l.tail, next)
    requires h' == h.(tailAt := if q'.tail != q.tail then h.tailAt + 1 else h.tailAt)
    requires l' == if l.EnqHelp? then EnqReadTail(l.node) else if l.EnqSwing? then EnqDone else DeqReadHead
    ensures SharedGood(q, h, c, l, q', h', l') && h'.tailAt > n.tailIx
  {
    hide ChainInv, Matches, Forward, Paid, Did, Holds;
    TailStands(q, h, l, n, next);
    hide LocalInv, Follows;
    SwingTailStep(q, h, c, l.tail, n.tailIx, next, q', h');
  }

  lemma HeadSwingGoes(q: Queue, h: History, c: seq<Pointer>, l: Local, n: Note, q': Queue, h': History, l': Local)
    requires Ready(q, h, c, l, n) && l.DeqSwing? && l'.DeqAssert?
    requires (q', l') == Advance(q, l) && h' == RecordShared(h, q, l, q', l')
    ensures SharedGood(q, h, c, l, q', h', l')
    ensures Fresh(q.heap, h.chain, n.headIx + 1)
  {
    SwingHeadStep(q, h, c, n.headIx, l.next, q', h');
  }

  lemma MarkGoes(q: Queue, h: History, c: seq<Pointer>, l: Local, n: Note, q': Queue, h': History, l': Local)
    requires Ready(q, h, c, l, n) && l.DeqMark?
    requires (q', l') == Advance(q, l) && h' == RecordShared(h, q, l, q', l')
    ensures SharedGood(q, h, c, l, q', h', l')
  {
    MarkStep(q, h, c, n.headIx, l.next, q');
    assert h'.log == h.log;
  }

  lemma SeesEmptyGoes(q: Queue, h: History, c: seq<Pointer>, l: Local, n: Note, q': Queue, h': History, l': Local)
    requires Ready(q, h, c, l, n) && l.DeqReadNext? && l'.DeqCheck? && l'.seen == None
    requires (q', l') == Advance(q, l) && h' == RecordShared(h, q, l, q', l')
    ensures SharedGood(q, h, c, l, q', h', l') && n.headIx == n.tailIx
  {
    hide Distinct, Fresh, Paid, Did, Holds;
    OnlyLastOpen(q.heap, h.chain, n.headIx);
  }

  /** The steps that only read, or whose compare-and-swap fails. */
  predicate Quiet(l: Local, l': Local) {
    && !(l.EnqLink? && l'.EnqSwing?) && !(l.DeqSwing? && l'.DeqAssert?)
    && !l.EnqHelp? && !l.EnqSwing? && !l.DeqHelp? && !l.DeqMark?
    && !(l.DeqReadNext? && l'.DeqCheck? && l'.seen == None)
  }

  lemma QuietRecorded(q: Queue, h: History, l: Local, q': Queue, h': History, l': Local)
    requires Quiet(l, l')
    requires (q', l') == Advance(q, l) && h' == RecordShared(h, q, l, q', l')
    ensures q' == q && h' == h && EffectOf(q, l, l') == []
    ensures forall node: NodeId :: Own(l', node) ==> Own(l, node)
    ensures forall node: NodeId :: Marking(l', node) ==> Marking(l, node)
  {
    assert h.log + [] == h.log;
  }

  lemma QuietGoes(q: Queue, h: History, c: seq<Pointer>, l: Local, n: Note, l': Local)
    requires Ready(q, h, c, l, n) && EffectOf(q, l, l') == []
    requires forall node: NodeId :: Own(l', node) ==> Own(l, node)
    requires forall node: NodeId :: Marking(l', node) ==> Marking(l, node)
    ensures SharedGood(q, h, c, l, q, h, l')
  {
  }

  /** A thread inside a call, about to make its next access. */
  predicate Inside(l: Local) { !Outside(l) && !l.Fault? }

  lemma MovedProgress(q: Queue, l: Local, arg: Pointer, changed: seq<Effect>, saw: bool, l': Local,
                      changed': seq<Effect>, saw': bool)
    requires Progressed(l, arg, changed, saw) && Inside(l) && !l'.Fault? && l' == Advance(q, l).1
    requires l.EnqLink? ==> l.node < |q.heap| && q.heap[l.node].element == arg
    requires
      var did := EffectOf(q, l, l');
      && changed' == changed + (if did == [] || did[0].FoundEmpty? then [] else did)
      && saw' == (saw || did == [FoundEmpty])
    ensures Progressed(l', arg, changed', saw')
  {}

  lemma OwnPush(own: seq<Effect>, did: seq<Effect>)
    requires |did| <= 1
    ensures Changing(own + did) == Changing(own) + (if did == [] || did[0].FoundEmpty? then [] else did)
    ensures FoundEmpty in own + did <==> FoundEmpty in own || did == [FoundEmpty]
  {
    if did == [] {
      assert own + did == own;
    } else {
      ChangingPush(own, did[0]);
      assert own + did == own + [did[0]];
    }
  }

  lemma MovedDid(q: Queue, l: Local, n: Note, l': Local, n': Note)
    requires Did(l, n) && Inside(l) && !l'.Fault? && l' == Advance(q, l).1
    requires n'.own == n.own + EffectOf(q, l, l') && n'.arg == n.arg
    requires l.EnqLink? ==> l.node < |q.heap| && q.heap[l.node].element == n.arg
    ensures Did(l', n')
  {
    OwnPush(n.own, EffectOf(q, l, l'));
    MovedProgress(q, l, n.arg, Changing(n.own), FoundEmpty in n.own, l', Changing(n'.own), FoundEmpty in n'.own);
  }

  /** The indices a step records, and the rest of the note that positions depend on. */
  ghost predicate Reindexed(h: History, l: Local, n: Note, l': Local, n': Note) {
    && n'.tailIx == (if l.EnqReadTail? || l.DeqReadTail? then h.tailAt else n.tailIx)
    && n'.headIx == (if l.DeqReadHead? then h.headAt
                     else if l.DeqSwing? && l'.DeqAssert? then n.headIx + 1 else n.headIx)
  }

  lemma EnqueuePlaced(q: Queue, h: History, l: Local, n: Note, h': History, l': Local, n': Note)
    requires ChainInv(q, h) && Placed(h, l, n) && Reindexed(h, l, n, l', n')
    requires l.EnqReadTail? || l.EnqReadNext? || l.EnqCheck? || l.EnqLink? || l.EnqHelp? || l.EnqSwing?
    requires l' == Advance(q, l).1
    requires h.chain <= h'.chain && h.tailAt <= h'.tailAt
    requires l.EnqLink? && l'.EnqSwing? ==> Follows(h', n.tailIx, l.node)
    ensures Placed(h', l', n')
  {
    if l.EnqReadNext? {
      OnlyLastOpen(q.heap, h.chain, n.tailIx);
    }
  }

  lemma DrainPlaced(q: Queue, h: History, l: Local, n: Note, h': History, l': Local, n': Note)
    requires ChainInv(q, h) && Placed(h, l, n) && Reindexed(h, l, n, l', n')
    requires l.DeqReadHead? || l.DeqReadTail? || l.DeqReadNext? || l.DeqCheck? || l.DeqHelp?
    requires l' == Advance(q, l).1
    requires h.chain <= h'.chain && h.tailAt <= h'.tailAt && h.headAt <= h'.headAt
    ensures Placed(h', l', n')
  {
    if l.DeqReadNext? {
      OnlyLastOpen(q.heap, h.chain, n.headIx);
    }
  }

  lemma TakePlaced(q: Queue, h: History, l: Local, n: Note, h': History, l': Local, n': Note)
    requires ChainInv(q, h) && Placed(h, l, n) && Reindexed(h, l, n, l', n')
    requires l.DeqReadElement? || l.DeqSwing? || l.DeqAssert? || l.DeqMark?
    requires forall node: NodeId :: Marking(l, node) ==> node < |q.heap| && !q.heap[node].dequeued
    requires l' == Advance(q, l).1
    requires h.chain <= h'.chain && h.tailAt <= h'.tailAt && h.headAt <= h'.headAt
    requires l.DeqSwing? && l'.DeqAssert? ==> n.headIx + 1 <= h'.headAt
    ensures Placed(h', l', n')
  {
    assert l.DeqAssert? ==> Marking(l, l.next);
  }

  lemma EnqueuePaid(q: Queue, h: History, l: Local, n: Note, h': History, l': Local, n': Note)
    requires ChainInv(q, h) && Placed(h, l, n) && Paid(h, l, n) && Reindexed(h, l, n, l', n')
    requires l.EnqReadTail? || l.EnqReadNext? || l.EnqCheck? || l.EnqLink? || l.EnqHelp? || l.EnqSwing?
    requires l' == Advance(q, l).1 && !l'.Fault?
    requires h'.headAt >= h.headAt && |h'.chain| >= |h.chain| && h'.tailAt >= h.tailAt
    requires l.EnqHelp? ==> h'.tailAt > n.tailIx
    requires n'.retries == if Retries(l, l') then n.retries + 1 else n.retries
    requires n'.charged == if Retries(l, l') then Changes(h') else n.charged
    ensures Paid(h', l', n')
  {
    if l.EnqReadNext? || l.EnqLink? {
      OnlyLastOpen(q.heap, h.chain, n.tailIx);
    }
  }

  lemma DrainPaid(q: Queue, h: History, l: Local, n: Note, h': History, l': Local, n': Note)
    requires ChainInv(q, h) && Placed(h, l, n) && Paid(h, l, n) && Reindexed(h, l, n, l', n')
    requires l.DeqReadHead? || l.DeqReadTail? || l.DeqReadNext? || l.DeqCheck? || l.DeqHelp?
          || l.DeqReadElement? || l.DeqSwing? || l.DeqAssert? || l.DeqMark?
    requires l' == Advance(q, l).1 && !l'.Fault?
    requires l.DeqSwing? || h'.headAt == h.headAt
    requires h'.headAt >= h.headAt && |h'.chain| >= |h.chain| && h'.tailAt >= h.tailAt
    requires l.DeqHelp? ==> h'.tailAt > n.tailIx
    requires n'.retries == if Retries(l, l') then n.retries + 1 else n.retries
    requires n'.charged == if Retries(l, l') then Changes(h') else n.charged
    ensures Paid(h', l', n')
  {
    hide Linked, Distinct, Fresh;
  }

  /** The mover's own part of the invariant, from what its step did to the shared state. */
  lemma OwnPart(q: Queue, h: History, c: seq<Pointer>, l: Local, n: Note, q': Queue, h': History, l': Local, n': Note)
    requires Ready(q, h, c, l, n) && Inside(l) && Forward(q, h, q', h')
    requires l' == Advance(q, l).1 && n' == RecordNote(n, h, h', q, l, l')
    requires l.EnqLink? && l'.EnqSwing? ==> Follows(h', n.tailIx, l.node)
    requires l.EnqHelp? || l.DeqHelp? ==> h'.tailAt > n.tailIx
    requires if l.DeqSwing? && l'.DeqAssert? then n.headIx < h'.headAt else h'.headAt == h.headAt
    ensures Placed(h', l', n') && Paid(h', l', n') && Did(l', n')
  {
    hide Linked, Distinct, Fresh, Paid, Placed, Did, Matches, Progressed, Uncharged;
    var drains := l.DeqReadHead? || l.DeqReadTail? || l.DeqReadNext? || l.DeqCheck? || l.DeqHelp?;
    var takes := l.DeqReadElement? || l.DeqSwing? || l.DeqAssert? || l.DeqMark?;
    assert Reindexed(h, l, n, l', n');
    if drains || takes {
      if drains { DrainPlaced(q, h, l, n, h', l', n'); } else { TakePlaced(q, h, l, n, h', l', n'); }
      DrainPaid(q, h, l, n, h', l', n');
    } else {
      EnqueuePlaced(q, h, l, n, h', l', n');
      EnqueuePaid(q, h, l, n, h', l', n');
      assert l.EnqLink? ==> Own(l, l.node);
    }
    MovedDid(q, l, n, l', n');
  }

  /** One step of one thread keeps the shared state good and its own part of the invariant. */
  ghost predicate GoesWell(q: Queue, h: History, c: seq<Pointer>, l: Local, n: Note, q': Queue, h': History,
                           l': Local, n': Note)
  {
    SharedGood(q, h, c, l, q', h', l') && LocalInv(q', h', l', n')
  }

  lemma QuietGoesWell(q: Queue, h: History, c: seq<Pointer>, l: Local, n: Note, l': Local, n': Note)
    requires Ready(q, h, c, l, n) && Inside(l) && Quiet(l, l')
    requires (q, l') == Advance(q, l) && h == RecordShared(h, q, l, q, l')
    requires n' == RecordNote(n, h, h, q, l, l')
    ensures GoesWell(q, h, c, l, n, q, h, l', n')
  {
    hide ChainInv, Matches, Forward, Placed, Paid, Did;
    QuietRecorded(q, h, l, q, h, l');
    QuietForward(q, h);
    QuietGoes(q, h, c, l, n, l');
    OwnPart(q, h, c, l, n, q, h, l', n');
    assert Holds(q, h, l', n') by { assert n'.arg == n.arg; }
  }

  lemma QuietForward(q: Queue, h: History)
    requires ChainInv(q, h)
    ensures Forward(q, h, q, h)
  {}

  lemma TailSwingGoesWell(q: Queue, h: History, c: seq<Pointer>, l: Local, n: Note, q': Queue, h': History,
                          l': Local, n': Note)
    requires Ready(q, h, c, l, n) && (l.EnqHelp? || l.EnqSwing? || l.DeqHelp?)
    requires (q', l') == Advance(q, l) && h' == RecordShared(h, q, l, q', l')
    requires n' == RecordNote(n, h, h', q, l, l')
    ensures GoesWell(q, h, c, l, n, q', h', l', n')
  {
    hide ChainInv, Matches, Forward, Placed, Paid, Did, Follows;
    TailSwingRecorded(q, h, l, q', h', l');
    TailSwingGoes(q, h, c, l, n, if l.EnqSwing? then l.node else l.next, q', h', l');
    OwnPart(q, h, c, l, n, q', h', l', n');
    assert Holds(q', h', l', n') by { assert q'.heap == q.heap && h'.chain == h.chain && n'.arg == n.arg; }
  }

  lemma LinkGoesWell(q: Queue, h: History, c: seq<Pointer>, l: Local, n: Note, q': Queue, h': History, l': Local,
                     n': Note)
    requires Ready(q, h, c, l, n) && l.EnqLink? && l'.EnqSwing?
    requires (q', l') == Advance(q, l) && h' == RecordShared(h, q, l, q', l')
    requires n' == RecordNote(n, h, h', q, l, l')
    ensures GoesWell(q, h, c, l, n, q', h', l', n')
  {
    hide ChainInv, Matches, Forward, Placed, Paid, Did;
    LinkGoes(q, h, c, l, n, q', h', l');
    assert Holds(q', h', EnqSwing(l.node, l.tail), n');
    OwnPart(q, h, c, l, n, q', h', l', n');
  }

  lemma HeadSwingGoesWell(q: Queue, h: History, c: seq<Pointer>, l: Local, n: Note, q': Queue, h': History,
                          l': Local, n': Note)
    requires Ready(q, h, c, l, n) && l.DeqSwing? && l'.DeqAssert?
    requires (q', l') == Advance(q, l) && h' == RecordShared(h, q, l, q', l')
    requires n' == RecordNote(n, h, h', q, l, l')
    ensures GoesWell(q, h, c, l, n, q', h', l', n')
  {
    hide Matches, Forward, Paid, Did;
    HeadSwingGoes(q, h, c, l, n, q', h', l');
    assert h.chain[n.headIx + 1] == l.next;
    OwnPart(q, h, c, l, n, q', h', l', n');
  }

  lemma MarkGoesWell(q: Queue, h: History, c: seq<Pointer>, l: Local, n: Note, q': Queue, h': History, l': Local,
                     n': Note)
    requires Ready(q, h, c, l, n) && l.DeqMark?
    requires (q', l') == Advance(q, l) && h' == RecordShared(h, q, l, q', l')
    requires n' == RecordNote(n, h, h', q, l, l')
    ensures GoesWell(q, h, c, l, n, q', h', l', n')
  {
    hide ChainInv, Matches, Forward, Placed, Paid, Did;
    MarkGoes(q, h, c, l, n, q', h', l');
    OwnPart(q, h, c, l, n, q', h', l', n');
  }

  lemma SeesEmptyGoesWell(q: Queue, h: History, c: seq<Pointer>, l: Local, n: Note, q': Queue, h': History,
                          l': Local, n': Note)
    requires Ready(q, h, c, l, n) && l.DeqReadNext? && l'.DeqCheck? && l'.seen == None
    requires (q', l') == Advance(q, l) && h' == RecordShared(h, q, l, q', l')
    requires n' == RecordNote(n, h, h', q, l, l')
    ensures GoesWell(q, h, c, l, n, q', h', l', n')
  {
    assert q' == q && h' == h.(log := h.log + [FoundEmpty]);
    SeesEmptyGoes(q, h, c, l, n, q', h', l');
    assert Holds(q', h', l', n');
    OwnPart(q, h, c, l, n, q', h', l', n');
  }

  lemma Goes(q: Queue, h: History, c: seq<Pointer>, l: Local, n: Note, q': Queue, h': History, l': Local, n': Note)
    requires Ready(q, h, c, l, n) && Inside(l)
    requires (q', l') == Advance(q, l) && h' == RecordShared(h, q, l, q', l')
    requires n' == RecordNote(n, h, h', q, l, l')
    ensures GoesWell(q, h, c, l, n, q', h', l', n')
  {
    if Quiet(l, l') {
      QuietRecorded(q, h, l, q', h', l');
      QuietGoesWell(q, h, c, l, n, l', n');
    } else if l.EnqLink? {
      LinkGoesWell(q, h, c, l, n, q', h', l', n');
    } else if l.DeqSwing? {
      HeadSwingGoesWell(q, h, c, l, n, q', h', l', n');
    } else if l.DeqMark? {
      MarkGoesWell(q, h, c, l, n, q', h', l', n');
    } else if l.DeqReadNext? {
      SeesEmptyGoesWell(q, h, c, l, n, q', h', l', n');
    } else {
      TailSwingGoesWell(q, h, c, l, n, q', h', l', n');
    }
  }

  // ----- Runs -----

  /** Another thread keeps its part of the invariant while t moves. */
  lemma OtherStays(s: System, h: History, c: seq<Pointer>, t: Tid, u: Tid, q': Queue, h': History, l': Local)
    requires Inv(s, h) && t != u
    requires SharedGood(s.q, h, c, LocalOf(s, t), q', h', l')
    ensures LocalInv(q', h', LocalOf(s, u), NoteOf(h, u))
  {
    OthersStay(s.q, h, q', h', LocalOf(s, u), NoteOf(h, u));
  }

  /** The notes of other threads are not part of the shared history. */
  lemma NotesApart(q: Queue, h: History, notes: map<Tid, Note>)
    requires ChainInv(q, h)
    ensures ChainInv(q, h.(notes := notes))
    ensures forall l: Local, n: Note {:trigger LocalInv(q, h.(notes := notes), l, n)} ::
      LocalInv(q, h, l, n) ==> LocalInv(q, h.(notes := notes), l, n)
  {
    forall l: Local, n: Note | LocalInv(q, h, l, n) ensures LocalInv(q, h.(notes := notes), l, n) {
      OthersStay(q, h, q, h.(notes := notes), l, n);
    }
  }

  lemma NotesMatch(q: Queue, h: History, notes: map<Tid, Note>, c: seq<Pointer>)
    requires ChainInv(q, h) && Matches(q, h, c)
    ensures Matches(q, h.(notes := notes), c)
  {
    hide Distinct, Fresh;
  }

  /** A node head has not reached is not being marked. */
  lemma MarkedBehindHead(s: System, h: History, u: Tid, node: NodeId)
    requires Inv(s, h) && Marking(LocalOf(s, u), node)
    ensures node in h.chain[..h.headAt + 1]
  {
    var n := NoteOf(h, u);
    assert Placed(h, LocalOf(s, u), n);
    assert h.chain[..h.headAt + 1][n.headIx] == node;
  }

  lemma OwnersStayDifferent(s: System, t: Tid, q': Queue, l': Local)
    requires OwnersDiffer(s)
    requires forall node: NodeId :: Own(l', node) ==> Own(LocalOf(s, t), node)
    ensures OwnersDiffer(System(q', s.locals[t := l']))
  {
    var s' := System(q', s.locals[t := l']);
    assert forall u: Tid :: LocalOf(s', u) == if u == t then l' else LocalOf(s, u);
  }

  lemma MarkersStayDifferent(s: System, h: History, t: Tid, q': Queue, l': Local)
    requires Inv(s, h)
    requires forall node: NodeId ::
      Marking(l', node) ==> Marking(LocalOf(s, t), node) || node !in h.chain[..h.headAt + 1]
    ensures MarkersDiffer(System(q', s.locals[t := l']))
  {
    var s' := System(q', s.locals[t := l']);
    assert forall u: Tid :: LocalOf(s', u) == if u == t then l' else LocalOf(s, u);
    forall u: Tid, node: NodeId | u != t && Marking(LocalOf(s, u), node) ensures !Marking(l', node) {
      MarkedBehindHead(s, h, u, node);
    }
  }

  lemma LocalsStay(s: System, h: History, c: seq<Pointer>, t: Tid, q': Queue, h0: History, l': Local, n': Note, u: Tid)
    requires Inv(s, h)
    requires GoesWell(s.q, h, c, LocalOf(s, t), NoteOf(h, t), q', h0, l', n')
    ensures LocalInv(q', h0, if u == t then l' else LocalOf(s, u), if u == t then n' else NoteOf(h, u))
  {
    if u != t {
      OtherStays(s, h, c, t, u, q', h0, l');
    }
  }

  lemma GoKeepsInv(s: System, h: History, t: Tid)
    requires Inv(s, h) && Inside(LocalOf(s, t))
    ensures Inv(Step(s, Go(t)), Record(h, s, Go(t)))
  {
    hide ChainInv, Matches, Placed, Paid, Did, Holds, Forward, Advance;
    var l, n, c := LocalOf(s, t), NoteOf(h, t), Replay(h.log).value;
    var (q', l') := Advance(s.q, l);
    var h0 := RecordShared(h, s.q, l, q', l');
    var n' := RecordNote(n, h, h0, s.q, l, l');
    Goes(s.q, h, c, l, n, q', h0, l', n');
    ReplayAfter(h.log, EffectOf(s.q, l, l'));
    Reassemble(s, h, t, q', h0, l', n', c);
  }

  lemma Reassemble(s: System, h: History, t: Tid, q': Queue, h0: History, l': Local, n': Note, c: seq<Pointer>)
    requires Inv(s, h)
    requires GoesWell(s.q, h, c, LocalOf(s, t), NoteOf(h, t), q', h0, l', n')
    requires Replay(h0.log) == After(c, EffectOf(s.q, LocalOf(s, t), l'))
    ensures Inv(System(q', s.locals[t := l']), h0.(notes := h.notes[t := n']))
  {
    hide ChainInv, LocalInv, Matches;
    var s', h' := System(q', s.locals[t := l']), h0.(notes := h.notes[t := n']);
    NotesApart(q', h0, h'.notes);
    NotesMatch(q', h0, h'.notes, Replay(h0.log).value);
    forall u: Tid ensures LocalInv(q', h', LocalOf(s', u), NoteOf(h', u)) {
      LocalsStay(s, h, c, t, q', h0, l', n', u);
    }
    OwnersStayDifferent(s, t, q', l');
    MarkersStayDifferent(s, h, t, q', l');
  }

  /** Allocating a node touches nothing that is linked. */
  lemma AllocStep(q: Queue, h: History, c: seq<Pointer>, e: Pointer, q': Queue)
    requires ChainInv(q, h) && Matches(q, h, c) && q' == q.(heap := q.heap + [Cell(e, None, false)])
    ensures Forward(q, h, q', h) && Matches(q', h, c)
    ensures forall node: NodeId :: Private(q, h, node) ==> Private(q', h, node)
    ensures Private(q', h, |q.heap|)
  {}

  lemma EnqueueKeepsLocals(s: System, h: History, t: Tid, q': Queue, n': Note, u: Tid)
    requires Inv(s, h) && Outside(LocalOf(s, t))
    requires q' == s.q.(heap := s.q.heap + [Cell(n'.arg, None, false)])
    requires n' == NoteOf(h, t).(arg := n'.arg, own := [])
    ensures
      LocalInv(q', h, if u == t then EnqReadTail(|s.q.heap|) else LocalOf(s, u), if u == t then n' else NoteOf(h, u))
  {
    AllocStep(s.q, h, Replay(h.log).value, n'.arg, q');
    assert LocalInv(s.q, h, LocalOf(s, u), NoteOf(h, u));
    if u != t {
      OthersStay(s.q, h, q', h, LocalOf(s, u), NoteOf(h, u));
    }
  }

  lemma EnqueueKeepsOwners(s: System, h: History, t: Tid, q': Queue)
    requires Inv(s, h) && Outside(LocalOf(s, t))
    ensures OwnersDiffer(System(q', s.locals[t := EnqReadTail(|s.q.heap|)]))
    ensures MarkersDiffer(System(q', s.locals[t := EnqReadTail(|s.q.heap|)]))
  {
    var s' := System(q', s.locals[t := EnqReadTail(|s.q.heap|)]);
    assert forall u: Tid :: LocalOf(s', u) == if u == t then EnqReadTail(|s.q.heap|) else LocalOf(s, u);
    forall u: Tid, node: NodeId | Own(LocalOf(s, u), node) ensures node < |s.q.heap| {
      assert LocalInv(s.q, h, LocalOf(s, u), NoteOf(h, u));
    }
  }

  lemma EnqueueKeepsInv(s: System, h: History, t: Tid, e: Pointer)
    requires Inv(s, h) && Outside(LocalOf(s, t))
    ensures Inv(Step(s, Enqueue(t, e)), Record(h, s, Enqueue(t, e)))
  {
    hide LocalInv;
    var s', h' := Step(s, Enqueue(t, e)), Record(h, s, Enqueue(t, e));
    var n' := NoteOf(h', t);
    AllocStep(s.q, h, Replay(h.log).value, e, s'.q);
    NotesApart(s'.q, h, h'.notes);
    forall u: Tid ensures LocalInv(s'.q, h', LocalOf(s', u), NoteOf(h', u)) {
      EnqueueKeepsLocals(s, h, t, s'.q, n', u);
    }
    EnqueueKeepsOwners(s, h, t, s'.q);
  }

  lemma DrainStarts(q: Queue, h: History, l: Local, n: Note)
    requires ChainInv(q, h) && LocalInv(q, h, l, n) && Outside(l)
    ensures LocalInv(q, h, DeqReadHead, n.(own := []))
  {}

  lemma DrainKeepsInv(s: System, h: History, t: Tid)
    requires Inv(s, h) && Outside(LocalOf(s, t))
    ensures Inv(Step(s, Drain(t)), Record(h, s, Drain(t)))
  {
    hide ChainInv, LocalInv, Matches;
    var n' := NoteOf(h, t).(own := []);
    var s', h' := s.(locals := s.locals[t := DeqReadHead]), h.(notes := h.notes[t := n']);
    NotesApart(s.q, h, h'.notes);
    NotesMatch(s.q, h, h'.notes, Replay(h.log).value);
    forall u: Tid ensures LocalInv(s.q, h', LocalOf(s', u), NoteOf(h', u)) {
      assert LocalInv(s.q, h, LocalOf(s, u), NoteOf(h, u));
      if u == t { DrainStarts(s.q, h, LocalOf(s, t), NoteOf(h, t)); }
    }
    OwnersStayDifferent(s, t, s.q, DeqReadHead);
    MarkersStayDifferent(s, h, t, s.q, DeqReadHead);
  }

  lemma StepKeepsInv(s: System, h: History, m: Move)
    requires Inv(s, h)
    ensures Inv(Step(s, m), Record(h, s, m))
  {
    var l := LocalOf(s, m.tid);
    assert LocalInv(s.q, h, l, NoteOf(h, m.tid));
    match m
    case Enqueue(t, e) => if Outside(l) { EnqueueKeepsInv(s, h, t, e); }
    case Drain(t) => if Outside(l) { DrainKeepsInv(s, h, t); }
    case Go(t) => if !Outside(l) { GoKeepsInv(s, h, t); }
  }

  /** The invariant holds after every schedule. */
  lemma {:induction false} Always(schedule: seq<Move>)
    ensures Inv(Exec(schedule), HistoryOf(schedule))
  {
    if schedule != [] {
      var before := schedule[..|schedule| - 1];
      Always(before);
      StepKeepsInv(Exec(before), HistoryOf(before), schedule[|schedule| - 1]);
    }
  }

  // ----- Main results -----

  /** No assertion fails and no NULL or wild pointer is followed, in any thread under any schedule:
      next is never NULL on the dequeue branch, and the node swung to has not been dequeued before. */
  lemma NeverFaults(schedule: seq<Move>, t: Tid)
    ensures !LocalOf(Exec(schedule), t).Fault?
  {
    Always(schedule);
    assert LocalInv(Exec(schedule).q, HistoryOf(schedule), LocalOf(Exec(schedule), t), NoteOf(HistoryOf(schedule), t));
  }

  /** Node m is reached from node n by following next k times. */
  ghost predicate Reaches(heap: seq<Cell>, n: NodeId, m: NodeId, k: nat)
    decreases k
  {
    if k == 0 then n == m
    else n < |heap| && heap[n].next.Some? && Reaches(heap, heap[n].next.value, m, k - 1)
  }

  lemma {:induction false} ChainReaches(heap: seq<Cell>, chain: seq<NodeId>, i: nat, j: nat)
    requires Linked(heap, chain) && i <= j < |chain|
    ensures Reaches(heap, chain[i], chain[j], j - i)
    decreases j - i
  {
    if i < j {
      OnlyLastOpen(heap, chain, i);
      ChainReaches(heap, chain, i + 1, j);
    }
  }

  /** Head never passes tail, and tail is the last node or the one before it. */
  lemma HeadBehindTail(schedule: seq<Move>) returns (k: nat)
    ensures Reaches(Exec(schedule).q.heap, Exec(schedule).q.head, Exec(schedule).q.tail, k)
    ensures Exec(schedule).q.tail < |Exec(schedule).q.heap|
    ensures
      var q := Exec(schedule).q;
      q.heap[q.tail].next.Some? ==>
        q.heap[q.tail].next.value < |q.heap| && q.heap[q.heap[q.tail].next.value].next == None
  {
    hide Exec, HistoryOf, Distinct, Fresh, Matches, LocalInv, OwnersDiffer, MarkersDiffer;
    Always(schedule);
    var q, h := Exec(schedule).q, HistoryOf(schedule);
    ChainReaches(q.heap, h.chain, h.headAt, h.tailAt);
    OnlyLastOpen(q.heap, h.chain, h.tailAt);
    k := h.tailAt - h.headAt;
  }

  lemma {:induction false} WalkAlongChain(heap: seq<Cell>, chain: seq<NodeId>, i: nat, fuel: nat)
    requires Linked(heap, chain) && i < |chain| && fuel >= |chain| - 1 - i
    ensures |Walk(heap, chain[i], fuel)| == |chain| - 1 - i
    ensures forall k :: 0 <= k < |chain| - 1 - i ==>
      Walk(heap, chain[i], fuel)[k] == heap[chain[i + 1 + k]].element
    decreases fuel
  {
    OnlyLastOpen(heap, chain, i);
    if i + 1 < |chain| {
      WalkAlongChain(heap, chain, i + 1, fuel - 1);
      var rest := Walk(heap, chain[i + 1], fuel - 1);
      assert Walk(heap, chain[i], fuel) == [heap[chain[i + 1]].element] + rest;
      forall k | 0 <= k < |chain| - 1 - i
        ensures Walk(heap, chain[i], fuel)[k] == heap[chain[i + 1 + k]].element
      {
        if k > 0 { assert i + 1 + 1 + (k - 1) == i + 1 + k; }
      }
    }
  }

  lemma ContentsMatch(q: Queue, h: History, c: seq<Pointer>)
    requires ChainInv(q, h) && Matches(q, h, c)
    ensures Contents(q) == c
  {
    Finite.DistinctBelow(h.chain, |q.heap|);
    WalkAlongChain(q.heap, h.chain, h.headAt, |q.heap|);
  }

  /** Refinement: the effects of any run, in the order they took effect, are a run of a sequential FIFO
      queue, and what it holds at the end is what the linked list holds. */
  lemma RefinesFifo(schedule: seq<Move>)
    ensures Replay(HistoryOf(schedule).log) == Some(Contents(Exec(schedule).q))
  {
    Always(schedule);
    ContentsMatch(Exec(schedule).q, HistoryOf(schedule), Replay(HistoryOf(schedule).log).value);
  }

  /** Every finished call took effect exactly once, between its start and its end: an enqueue put its
      argument, a drain that returns an element took that element, and a drain that returns NULL
      changed nothing and saw the queue empty at some moment of the call. */
  lemma CallsTakeEffectOnce(schedule: seq<Move>, t: Tid)
    ensures
      var l, n := LocalOf(Exec(schedule), t), NoteOf(HistoryOf(schedule), t);
      && (l.EnqDone? ==> Changing(n.own) == [Put(n.arg)])
      && (l.DeqDone? && l.result.Some? ==> Changing(n.own) == [Take(l.result.value)])
      && (l.DeqDone? && l.result.None? ==> Changing(n.own) == [] && FoundEmpty in n.own)
  {
    Always(schedule);
    assert LocalInv(Exec(schedule).q, HistoryOf(schedule), LocalOf(Exec(schedule), t), NoteOf(HistoryOf(schedule), t));
  }

  lemma {:induction false} ReplayConserves(log: seq<Effect>)
    requires Replay(log).Some?
    ensures Puts(log) == Takes(log) + Replay(log).value
  {
    if log != [] {
      var before := log[..|log| - 1];
      ReplayConserves(before);
      if log[|log| - 1].Take? {
        assert Replay(before).value == [log[|log| - 1].e] + Replay(log).value;
      }
    }
  }

  /** Nothing is lost, duplicated or reordered: what was drained, then what is still held, is what was
      enqueued. */
  lemma FirstInFirstOut(schedule: seq<Move>)
    ensures Puts(HistoryOf(schedule).log) == Takes(HistoryOf(schedule).log) + Contents(Exec(schedule).q)
  {
    RefinesFifo(schedule);
    ReplayConserves(HistoryOf(schedule).log);
  }

  /** The links and head swings of a run are its puts and takes. */
  ghost predicate Counted(h: History) {
    |h.chain| - 1 == |Puts(h.log)| && h.headAt == |Takes(h.log)|
  }

  lemma GoKeepsCounted(q: Queue, h: History, l: Local, l': Local)
    requires Counted(h) && l.EnqLink? ==> l.node < |q.heap|
    requires Counted(h) && l' == Advance(q, l).1
    ensures Counted(RecordShared(h, q, l, Advance(q, l).0, l'))
  {
    var did := EffectOf(q, l, l');
    if did == [] {
      assert h.log + did == h.log;
    } else {
      assert (h.log + did)[..|h.log|] == h.log;
    }
  }

  lemma {:induction false} AlwaysCounted(schedule: seq<Move>)
    ensures Counted(HistoryOf(schedule))
  {
    if schedule != [] {
      var before := schedule[..|schedule| - 1];
      AlwaysCounted(before);
      Always(before);
      var h, s, m := HistoryOf(before), Exec(before), schedule[|schedule| - 1];
      if m.Go? && !Outside(LocalOf(s, m.tid)) {
        var l := LocalOf(s, m.tid);
        assert LocalInv(s.q, h, l, NoteOf(h, m.tid));
        assert l.EnqLink? ==> Own(l, l.node);
        GoKeepsCounted(s.q, h, l, Advance(s.q, l).1);
      }
    }
  }

  /** Lock-free progress: over a whole run with k enqueues and m drains in effect, the loops of any one
      thread have gone round again at most 2k + m times. */
  lemma RetriesBounded(schedule: seq<Move>, t: Tid)
    ensures
      var h := HistoryOf(schedule);
      NoteOf(h, t).retries <= 2 * |Puts(h.log)| + |Takes(h.log)|
  {
    Always(schedule);
    AlwaysCounted(schedule);
    var h := HistoryOf(schedule);
    assert LocalInv(Exec(schedule).q, h, LocalOf(Exec(schedule), t), NoteOf(h, t));
  }
}
