/**
 The protocol between the listener thread (TCPListener::run) and its workers
 (TCPServer::run) as a state machine.  Every action is what one thread does between two
 points at which another thread can be observed: one critical section on clientmutex_,
 one system call, one callback, one access to an atomic or to a thread's own flags.

 What the environment decides is part of the action: which free descriptor accept
 returns, which armed descriptors epoll reports, how a callback ends.
 */
module ListenerProtocol {
  import opened SockStates
  import opened Wrappers
  import opened ListenerShared

  /** The members of TCPListener::Params that bound the protocol. */
  datatype Params = Params(minServers: nat, maxServers: nat, maxConnections: nat, pollBatch: nat)

  datatype Callback = HandShake | ReadSocket | ShutDown

  /** How a callback ends. ThrewBefore: readBuffer threw, so that readSocket was not reached. */
  datatype Outcome = Returned(ok: bool) | Threw | ThrewBefore

  /** What has happened to one accepted connection; connections are numbered in accept order. */
  datatype Conn = Conn(fd: int, calls: seq<Callback>, threw: bool, closes: nat)

  /** The four tests of the worker's inner loop, in program order. */
  datatype Stage = AtNew | AtRead | AtShut | AtRelease

  datatype Worker =
    | Waiting                                              // in waitForActivity
    | Popping                                              // about to call popWork
    | Serving(work: Work, stage: Stage, done: SockState)   // done is completion_state
    | Releasing(work: Work, done: SockState)               // releaseWork has decremented work_q_sz_
    | Erased(work: Work)                                   // closeSocket has erased the entry, not yet closed
    | Checking                                             // at the test of request_stop_
    | Stopped

  /** An element of poll_sockets. `conn` is not seen by the program, which only knows fd. */
  datatype Event = Incoming | Ready(fd: int, conn: nat, flags: SockState)

  datatype Phase =
    | Starting
    | Polling                          // in epoll_wait, or before it in the loop
    | Handling                         // in the loop over poll_sockets
    | Accepting                        // about to call accept
    | Accepted(sock: Work)             // accept returned sock
    | Admitted(sock: Work)             // clients_.size() was below maxconnections
    | Listed(sock: Work)               // sock is in clients_, not yet pushed
    | Draining                         // waiting for work_q_sz_ to be zero
    | Joining                          // waiting for the servers to stop
    | Sweeping(todo: seq<Work>)        // closing clients_copy
    | SweepErased(sock: Work, todo: seq<Work>)
    | Finished

  /** closeSocket holds clientmutex_ from before the erase until after the close; its owner is a worker
      or, without a number, the listener. All other critical sections are single actions. */
  datatype Lock = Free | Closing(work: Work, owner: Option<nat>)

  datatype State = State(
    sh: Shared,
    lock: Lock,                        // clientmutex_, when it is held across two actions
    phase: Phase,
    batch: seq<Event>,                 // events received and not yet handled
    workers: map<nat, Worker>,         // servers_
    stopping: set<nat>,                // workers with request_stop_ set
    initWorker: nat,                   // init_server_
    nextWorker: nat,
    stopServer: bool,                  // stop_server_
    conns: seq<Conn>)

  datatype Action =
    // worker w
    | Wake(w: nat) | TimeOut(w: nat) | Pop(w: nat)
    | OnNew(w: nat, outcome: Outcome) | OnRead(w: nat, outcome: Outcome) | OnShut(w: nat, outcome: Outcome)
    | Decrement(w: nat) | Arm(w: nat) | Erase(w: nat) | Close(w: nat) | CheckStop(w: nat)
    // listener
    | Start | AddServer | Deliver(fd: int, flags: SockState) | DeliverIncoming | EndPoll
    | Handle | Accept(fd: int) | AcceptNone | Admit(more: bool) | List | PushNew | Raise | EndLoop
    | Reap(w: nat) | Retire(w: nat) | Drained | Joined(order: seq<int>)
    | SweepErase | SweepClose | Finish
    // any other thread
    | Stop

  function Init(): State {
    State(Shared(map[], [], 0, map[], map[], false), Free, Starting, [],
          map[0 := Waiting], {}, 0, 1, false, [])
  }

  predicate HasWorker(s: State, w: nat, k: Worker) {
    w in s.workers && s.workers[w] == k
  }

  function SetWorker(s: State, w: nat, k: Worker): State {
    s.(workers := s.workers[w := k])
  }

  function Fault(s: State): State {
    s.(sh := s.sh.(fault := true))
  }

  /** The state word the worker reads through its pointer, without the mutex. */
  function Peek(sh: Shared, work: Work): SockState {
    if NodeAlive(sh.clients, work) then sh.clients[work.fd].state else NONE
  }

  /** completion_state after a callback for `bit` that ended with `o`. */
  function Completion(done: SockState, bit: SockState, o: Outcome): SockState {
    if o.Returned? then Or(Or(done, bit), if o.ok then NONE else SHUT) else done
  }

  /** The connection's history after that callback. */
  function Called(c: Conn, call: Callback, o: Outcome): Conn {
    c.(calls := if o.ThrewBefore? then c.calls else c.calls + [call], threw := c.threw || !o.Returned?)
  }

  /** One `if ( sockmap->state & bit ) { callback }` of the worker's inner loop. */
  function RunStage(s: State, w: nat, wanted: bool, call: Callback, bit: SockState, o: Outcome, next: Stage): State
    requires w in s.workers && s.workers[w].Serving?
  {
    var k := s.workers[w];
    if !NodeAlive(s.sh.clients, k.work) || k.work.conn >= |s.conns| then Fault(s)
    else if !wanted then SetWorker(s, w, k.(stage := next))
    else
      SetWorker(s, w, Serving(k.work, next, Completion(k.done, bit, o)))
      .(conns := s.conns[k.work.conn := Called(s.conns[k.work.conn], call, o)])
  }

  /** close on the descriptor of `work`, and the connection's history. */
  function CloseConn(s: State, work: Work): State {
    var s' := s.(sh := CloseFd(s.sh, work));
    if work.conn < |s.conns|
    then s'.(conns := s.conns[work.conn := s.conns[work.conn].(closes := s.conns[work.conn].closes + 1)])
    else Fault(s')
  }

  /** What worker w does; None when it is not at that point of its program. */
  function WorkerStep(s: State, a: Action, w: nat): Option<State>
    requires w in s.workers
  {
    var k := s.workers[w];
    match a
    case Wake(_) =>
      if k.Waiting? && (s.sh.workQSize != 0 || w in s.stopping) then Some(SetWorker(s, w, Popping)) else None
    case TimeOut(_) =>
      if k.Waiting? && s.sh.workQSize == 0 && w !in s.stopping then Some(SetWorker(s, w, Checking)) else None
    case Pop(_) =>
      if k.Popping? && s.lock.Free? then
        var (sh', item) := PopWork(s.sh);
        Some(SetWorker(s.(sh := sh'), w, if item.Some? then Serving(item.value, AtNew, NONE) else Checking))
      else None
    case OnNew(_, o) =>
      if k.Serving? && k.stage.AtNew? && !o.ThrewBefore?
      then Some(RunStage(s, w, Peek(s.sh, k.work).isNew, HandShake, NEW, o, AtRead)) else None
    case OnRead(_, o) =>
      if k.Serving? && k.stage.AtRead?
      then Some(RunStage(s, w, Peek(s.sh, k.work).isRead, ReadSocket, READ, o, AtShut)) else None
    case OnShut(_, o) =>
      if k.Serving? && k.stage.AtShut? && !o.ThrewBefore?
      then Some(RunStage(s, w, Peek(s.sh, k.work).isShut, ShutDown, SHUT, o, AtRelease)) else None
    case Decrement(_) =>
      if k.Serving? && k.stage.AtRelease? then
        Some(SetWorker(s.(sh := s.sh.(workQSize := s.sh.workQSize - 1)), w, Releasing(k.work, k.done)))
      else None
    case Arm(_) =>
      if k.Releasing? && !k.done.isShut && s.lock.Free?
      then Some(SetWorker(s.(sh := Rearm(s.sh, k.work, k.done)), w, Popping)) else None
    case Erase(_) =>
      if k.Releasing? && k.done.isShut && s.lock.Free?
      then Some(SetWorker(s.(sh := EraseClient(s.sh, k.work), lock := Closing(k.work, Some(w))), w, Erased(k.work)))
      else None
    case Close(_) =>
      if k.Erased? then Some(SetWorker(CloseConn(s, k.work).(lock := Free), w, Popping)) else None
    case CheckStop(_) =>
      if k.Checking? then Some(SetWorker(s, w, if w in s.stopping then Stopped else Waiting)) else None
    case _ => None
  }

  /** addServer, push_back, start. */
  function NewServer(s: State): State {
    SetWorker(s, s.nextWorker, Waiting).(nextWorker := s.nextWorker + 1)
  }

  /** The elements of clients_ as the range-for over clients_copy meets them. */
  function ClientList(sh: Shared, order: seq<int>): seq<Work> {
    seq(|order|, i requires 0 <= i < |order| => Work(order[i], ConnOf(Lookup(sh.clients, order[i]).socket)))
  }

  /** `order` lists every key of the map once. */
  predicate Enumerates(order: seq<int>, keys: set<int>) {
    (forall k :: k in order ==> k in keys) && (forall k :: k in keys ==> k in order) &&
    forall i, j :: 0 <= i < j < |order| ==> order[i] != order[j]
  }

  /** What the listener thread does; None when it is not at that point of its program. */
  function ListenerStep(p: Params, s: State, a: Action): Option<State> {
    match a
    case Start =>
      if !s.phase.Starting? then None
      else if |s.workers| < p.minServers then Some(NewServer(s))
      else Some(s.(phase := Polling))
    case AddServer =>
      if s.phase.Polling? && s.batch == [] && s.sh.workQSize > |s.workers| && |s.workers| < p.maxServers
      then Some(NewServer(s)) else None
    case Deliver(fd, flags) =>
      // a one-shot registration reports once, and at least one of the events of read_event_mask_
      if s.phase.Polling? && |s.batch| < p.pollBatch && fd in s.sh.interest && s.sh.interest[fd]
         && !flags.isNew && (flags.isRead || flags.isShut)
      then Some(s.(sh := s.sh.(interest := s.sh.interest[fd := false]),
                   batch := s.batch + [Ready(fd, if fd in s.sh.kernel then s.sh.kernel[fd] else 0, flags)]))
      else None
    case DeliverIncoming =>
      if s.phase.Polling? && |s.batch| < p.pollBatch then Some(s.(batch := s.batch + [Incoming])) else None
    case EndPoll =>
      if s.phase.Polling? then Some(s.(phase := Handling)) else None
    case Handle =>
      if !s.phase.Handling? || s.batch == [] then None
      else if s.batch[0].Incoming? then Some(s.(phase := Accepting, batch := s.batch[1..]))
      else if s.lock.Free? then
        Some(s.(sh := PushWork(s.sh, s.batch[0].fd, s.batch[0].flags), batch := s.batch[1..]))
      else None
    case Accept(fd) =>
      // accept is called without the mutex and may return any descriptor that is not open
      if s.phase.Accepting? && fd !in s.sh.kernel then
        Some(s.(sh := s.sh.(kernel := s.sh.kernel[fd := |s.conns|]),
                conns := s.conns + [Conn(fd, [], false, 0)],
                phase := Accepted(Work(fd, |s.conns|))))
      else None
    case AcceptNone =>
      if s.phase.Accepting? then Some(s.(phase := Handling)) else None
    case Admit(more) =>
      if !s.phase.Accepted? then None
      else if |s.sh.clients| >= p.maxConnections
      then Some(CloseConn(s, s.phase.sock).(phase := if more then Accepting else Handling))
      else Some(s.(phase := Admitted(s.phase.sock)))
    case List =>
      if s.phase.Admitted? && s.lock.Free?
      then Some(s.(sh := ListClient(s.sh, s.phase.sock), phase := Listed(s.phase.sock))) else None
    case PushNew =>
      if s.phase.Listed? && s.lock.Free?
      then Some(s.(sh := PushWork(s.sh, s.phase.sock.fd, NEW), phase := Accepting)) else None
    case Raise =>
      // an exception from epoll_wait or accept ends the loop
      if s.phase.Polling? || s.phase.Accepting? then Some(s.(phase := Draining, batch := [])) else None
    case EndLoop =>
      if s.phase.Handling? && s.batch == []
      then Some(s.(phase := if s.stopServer then Draining else Polling)) else None
    case Reap(w) =>
      if s.phase.Handling? && s.batch == [] && HasWorker(s, w, Stopped) then
        if w != s.initWorker then Some(s.(workers := s.workers - {w}))
        else Some(NewServer(s.(workers := s.workers - {w}, initWorker := s.nextWorker)))
      else None
    case Retire(w) =>
      if s.phase.Handling? && s.batch == [] && w in s.workers && w != s.initWorker && |s.workers| > p.minServers
      then Some(s.(stopping := s.stopping + {w})) else None
    case Drained =>
      if s.phase.Draining? && s.sh.workQSize == 0
      then Some(s.(phase := Joining, stopping := s.workers.Keys)) else None
    case Joined(order) =>
      if s.phase.Joining? && (forall w :: w in s.workers ==> s.workers[w].Stopped?)
         && Enumerates(order, s.sh.clients.Keys)
      then Some(s.(phase := Sweeping(ClientList(s.sh, order)), workers := map[])) else None
    case SweepErase =>
      if s.phase.Sweeping? && s.phase.todo != [] && s.lock.Free? then
        var work := s.phase.todo[0];
        Some(s.(sh := EraseClient(s.sh, work), lock := Closing(work, None),
                phase := SweepErased(work, s.phase.todo[1..])))
      else None
    case SweepClose =>
      if s.phase.SweepErased?
      then Some(CloseConn(s, s.phase.sock).(lock := Free, phase := Sweeping(s.phase.todo))) else None
    case Finish =>
      if s.phase.Sweeping? && s.phase.todo == [] then Some(s.(phase := Finished)) else None
    case _ => None
  }

  predicate ByWorker(a: Action) {
    a.Wake? || a.TimeOut? || a.Pop? || a.OnNew? || a.OnRead? || a.OnShut? || a.Decrement? || a.Arm? ||
    a.Erase? || a.Close? || a.CheckStop?
  }

  function Step(p: Params, s: State, a: Action): Option<State> {
    if a.Stop? then Some(s.(stopServer := true))
    else if ByWorker(a) then
      if a.w in s.workers then WorkerStep(s, a, a.w) else None
    else ListenerStep(p, s, a)
  }

  /** The state after a run, if every action of the run was possible where it was taken. */
  function Run(p: Params, actions: seq<Action>): Option<State> {
    if actions == [] then Some(Init())
    else
      var before := Run(p, actions[..|actions| - 1]);
      if before.None? then None else Step(p, before.value, actions[|actions| - 1])
  }
}
