/**
 The life of web server connections as a transition system: the poll thread of webserver/net/poll.c,
 any number of threads running connection code (webserver/http/httpconnection.c), one shared access
 per step. Descriptors are reused as soon as they are closed; connections are numbered as accepted.
 */
module Lifecycle {
  type Fd = int
  type Conn = nat

  datatype Direction = In | Out

  /** PollRegister without kPollRepeatFlag, numbered by serial, and PollUnregister. */
  datatype Update = Register(fd: Fd, conn: Conn, dir: Direction, serial: nat) | Unregister(fd: Fd)

  /** ready stands for revents > 0. */
  datatype Entry = Entry(conn: Conn, dir: Direction, serial: nat, ready: bool)

  /** Connection code that is dispatched or running, and where it stands: a block passed to PollRegister
      with its revents, HTTPConnectionReadRequest after its last recv, a dispatched HTTPProcessRequest,
      HTTPSendResponse, or one of the two steps that HTTPConnectionClose and the dealloc function share. */
  datatype At = InBlock(hup: bool) | Reading | ProcessBlock | Sending | OutBlock(hup: bool) | Unregistering | Closing

  datatype Job = Job(conn: Conn, at: At)

  /** Where the poll thread is. todo holds the descriptors whose slots the scan has not reached; Firing is
      between PollUnregister and the dispatch of the block. */
  datatype Place =
    | Applying(afterPoll: bool)
    | Polling
    | Scanning(todo: set<Fd>)
    | Firing(todo: set<Fd>, conn: Conn, dir: Direction)

  /** open maps each connection whose socket is not closed to the socket. fires lists the registrations
      in the order their blocks were dispatched, processed the connections whose requests were processed. */
  datatype State = State(
    place: Place, queue: seq<Update>, table: map<Fd, Entry>, jobs: map<nat, Job>, open: map<Conn, Fd>,
    accepted: nat, started: nat, registered: nat, fires: seq<nat>, processed: seq<Conn>)

  datatype Choice = First | Second | Third

  /** A decision of the scheduler or the environment. One that is not possible changes nothing. */
  datatype Move =
    | Accept(fd: Fd)
    | Work(job: nat, choice: Choice)
    | Dealloc(conn: Conn)
    | Go(ready: set<Fd>, pick: Fd, hup: bool)
    | StopScan

  const CREATED: State := State(Applying(false), [], map[], map[], map[], 0, 0, 0, [], [])

  function Start(s: State, c: Conn, at: At): State {
    s.(jobs := s.jobs[s.started := Job(c, at)], started := s.started + 1)
  }

  function Enqueue(s: State, u: Update): State { s.(queue := s.queue + [u]) }

  /** The job passes its continuation to the poll thread and ends. */
  function Rearm(s: State, job: nat, dir: Direction): State
    requires job in s.jobs && s.jobs[job].conn in s.open
  {
    var c := s.jobs[job].conn;
    Enqueue(s, Register(s.open[c], c, dir, s.registered)).(jobs := s.jobs - {job}, registered := s.registered + 1)
  }

  function WorkStep(s: State, job: nat, choice: Choice): State
    requires job in s.jobs && s.jobs[job].conn in s.open
  {
    var c := s.jobs[job].conn;
    var ended := s.(jobs := s.jobs - {job});
    match s.jobs[job].at
    case InBlock(hup) => if hup then ended else s.(jobs := s.jobs[job := Job(c, Reading)])
    case Reading => (
      match choice
      case First => ended // end of stream, or recv failed
      case Second => Start(ended, c, ProcessBlock)
      case Third => Rearm(s, job, In))
    case ProcessBlock => s.(jobs := s.jobs[job := Job(c, Sending)], processed := s.processed + [c])
    case Sending => if choice.First? then s.(jobs := s.jobs[job := Job(c, Unregistering)]) else Rearm(s, job, Out)
    case OutBlock(hup) => if hup then ended else s.(jobs := s.jobs[job := Job(c, Sending)])
    case Unregistering => Enqueue(s, Unregister(s.open[c])).(jobs := s.jobs[job := Job(c, Closing)])
    case Closing => ended.(open := s.open - {c})
  }

  /** Nothing refers to the connection any more: no running or dispatched block, no update, no table entry. */
  ghost predicate Unreferenced(s: State, c: Conn) {
    && (forall i :: i in s.jobs ==> s.jobs[i].conn != c)
    && (forall i :: 0 <= i < |s.queue| && s.queue[i].Register? ==> s.queue[i].conn != c)
    && (forall f :: f in s.table ==> s.table[f].conn != c)
    && (s.place.Firing? ==> s.place.conn != c)
  }

  /** One update of the drain loop of PollApplyUpdates. */
  function Apply(table: map<Fd, Entry>, u: Update): map<Fd, Entry> {
    match u
    case Register(f, c, dir, serial) => table[f := Entry(c, dir, serial, false)]
    case Unregister(f) => table - {f}
  }

  /** The poll thread's next access. The kernel chooses which entries poll() reports. */
  function PollStep(s: State, ready: set<Fd>, pick: Fd, hup: bool): State {
    match s.place
    case Applying(afterPoll) =>
      if s.queue != [] then s.(table := Apply(s.table, s.queue[0]), queue := s.queue[1..])
      else s.(place := if afterPoll then Scanning(s.table.Keys) else Polling)
    case Polling =>
      s.(table := map f | f in s.table :: s.table[f].(ready := f in ready), place := Applying(true))
    case Scanning(todo) =>
      if todo == {} then s.(place := Applying(false))
      else if pick !in todo || pick !in s.table then s
      else if !s.table[pick].ready then s.(place := Scanning(todo - {pick}))
      else
        var e := s.table[pick];
        Enqueue(s, Unregister(pick)).(place := Firing(todo - {pick}, e.conn, e.dir), fires := s.fires + [e.serial])
    case Firing(todo, c, dir) =>
      Start(s, c, if dir.In? then InBlock(hup) else OutBlock(hup)).(place := Scanning(todo))
  }

  ghost function Step(s: State, m: Move): State {
    match m
    case Accept(f) =>
      if f in s.open.Values then s
      else Start(s.(open := s.open[s.accepted := f], accepted := s.accepted + 1), s.accepted, Reading)
    case Work(job, choice) =>
      if job in s.jobs && s.jobs[job].conn in s.open then WorkStep(s, job, choice) else s
    case Dealloc(c) => if c in s.open && Unreferenced(s, c) then Start(s, c, Unregistering) else s
    case Go(ready, pick, hup) => PollStep(s, ready, pick, hup)
    case StopScan => if s.place.Scanning? then s.(place := Applying(false)) else s
  }

  ghost function Exec(schedule: seq<Move>): State {
    if schedule == [] then CREATED
    else Step(Exec(schedule[..|schedule| - 1]), schedule[|schedule| - 1])
  }

  // ----- What the main results speak of -----

  /** In the table and not fired yet. */
  predicate Armed(s: State, f: Fd) { f in s.table && s.table[f].serial !in s.fires }

  /** How many ways there are to run more code of the connection: dispatched or running blocks, queued
      registrations, registrations in the table that have not fired, a block about to be dispatched. */
  function Continuations(s: State, c: Conn): nat {
    |set i | i in s.jobs && s.jobs[i].conn == c|
    + |set i | 0 <= i < |s.queue| && s.queue[i].Register? && s.queue[i].conn == c|
    + |set f | f in s.table && Armed(s, f) && s.table[f].conn == c|
    + if s.place.Firing? && s.place.conn == c then 1 else 0
  }
}
