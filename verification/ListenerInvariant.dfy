/**
 The ownership invariant of the listener protocol.  Each conjunct speaks about the few
 components of the state it needs, so that an action only has to account for the
 conjuncts whose components it changes.
 */
module ListenerInvariant {
  import opened SockStates
  import opened Wrappers
  import opened ListenerShared
  import opened ListenerProtocol

  type Clients = map<int, Entry>
  type Kernel = map<int, nat>
  type Workers = map<nat, Worker>

  /** Where a client is. */
  datatype Place = InHand | Queued | HeldBy(w: nat) | Registered

  type Places = map<int, Place>

  predicate Holds(k: Worker) {
    k.Serving? || k.Releasing?
  }

  // ---- descriptors, client entries and histories ----

  /** A connection is open exactly as long as the kernel has it under its own descriptor. */
  ghost predicate ConnsOk(kernel: Kernel, conns: seq<Conn>) {
    && (forall fd :: fd in kernel ==> kernel[fd] < |conns| && conns[kernel[fd]].fd == fd)
    && (forall c :: 0 <= c < |conns| ==>
          && conns[c].closes <= 1
          && (conns[c].closes == 0 <==> (conns[c].fd in kernel && kernel[conns[c].fd] == c)))
  }

  /** Every client entry belongs to the connection that is open under its descriptor. */
  ghost predicate ClientsOk(kernel: Kernel, clients: Clients) {
    forall fd :: fd in clients ==>
      fd in kernel && clients[fd].socket == Socket(fd, kernel[fd])
  }

  /** Open in the kernel, not in clients_. */
  predicate Unlisted(kernel: Kernel, clients: Clients, work: Work) {
    work.fd in kernel && kernel[work.fd] == work.conn && work.fd !in clients
  }

  /** The listener has accepted fd and not listed it yet, or a thread is about to close fd. */
  predicate InTransit(phase: Phase, lock: Lock, fd: int) {
    || ((phase.Accepted? || phase.Admitted?) && phase.sock.fd == fd)
    || (lock.Closing? && lock.work.fd == fd)
  }

  /** No open descriptor is forgotten. */
  ghost predicate KernelOk(kernel: Kernel, clients: Clients, phase: Phase, lock: Lock) {
    forall fd :: fd in kernel ==> fd in clients || InTransit(phase, lock, fd)
  }

  predicate TransitOk(kernel: Kernel, clients: Clients, phase: Phase, lock: Lock) {
    && (phase.Accepted? || phase.Admitted? ==> Unlisted(kernel, clients, phase.sock))
    && (phase.Listed? ==> NodeAlive(clients, phase.sock))
    && (lock.Closing? ==> Unlisted(kernel, clients, lock.work))
    && (lock.Closing? && (phase.Accepted? || phase.Admitted?) ==> phase.sock.fd != lock.work.fd)
  }

  ghost predicate LockOk(lock: Lock, phase: Phase, workers: Workers) {
    && (lock.Closing? ==>
          if lock.owner.Some?
          then lock.owner.value in workers && workers[lock.owner.value] == Erased(lock.work)
          else phase.SweepErased? && phase.sock == lock.work)
    && (phase.SweepErased? ==> lock == Closing(phase.sock, None))
    && (forall w :: w in workers && workers[w].Erased? ==> lock == Closing(workers[w].work, Some(w)))
  }

  // ---- each client is in the one place the witness map says ----

  ghost predicate QueueOk(clients: Clients, workload: seq<Work>, place: Places) {
    && (forall i :: 0 <= i < |workload| ==>
          NodeAlive(clients, workload[i]) && workload[i].fd in place && place[workload[i].fd] == Queued)
    && (forall i, j :: 0 <= i < j < |workload| ==> workload[i].fd != workload[j].fd)
    && (forall fd :: fd in place && place[fd] == Queued ==> exists i :: 0 <= i < |workload| && workload[i].fd == fd)
  }

  ghost predicate HeldOk(clients: Clients, workers: Workers, place: Places) {
    && (forall w :: w in workers && Holds(workers[w]) ==>
          && NodeAlive(clients, workers[w].work)
          && workers[w].work.fd in place && place[workers[w].work.fd] == HeldBy(w))
    && (forall fd :: fd in place && place[fd].HeldBy? ==>
          place[fd].w in workers && Holds(workers[place[fd].w]) && workers[place[fd].w].work.fd == fd)
  }

  /** The interest list is the set of registered clients, and the one the sweep has erased and not yet closed. */
  ghost predicate InterestOk(interest: map<int, bool>, place: Places, phase: Phase) {
    forall fd :: fd in interest <==>
      (fd in place && place[fd] == Registered) || (phase.SweepErased? && phase.sock.fd == fd)
  }

  ghost predicate HandOk(phase: Phase, place: Places) {
    && (forall fd :: fd in place && place[fd] == InHand ==> phase.Listed? && phase.sock.fd == fd)
    && (phase.Listed? ==> phase.sock.fd in place && place[phase.sock.fd] == InHand)
  }

  /** The listener has left its event loop. */
  predicate Winding(phase: Phase) {
    phase.Draining? || phase.Joining? || phase.Sweeping? || phase.SweepErased? || phase.Finished?
  }

  predicate EventOk(clients: Clients, interest: map<int, bool>, e: Event) {
    e.Ready? ==>
      && e.fd in interest && !interest[e.fd] && NodeAlive(clients, Work(e.fd, e.conn))
      && !e.flags.isNew && (e.flags.isRead || e.flags.isShut)
  }

  /** Events received and not yet handled are about registered, disarmed, distinct clients. */
  ghost predicate BatchOk(clients: Clients, interest: map<int, bool>, phase: Phase, batch: seq<Event>) {
    && (forall i :: 0 <= i < |batch| ==> EventOk(clients, interest, batch[i]))
    && (forall i, j :: 0 <= i < j < |batch| && batch[i].Ready? && batch[j].Ready? ==> batch[i].fd != batch[j].fd)
    && (Winding(phase) ==> batch == [])
  }

  // ---- counters and bounds ----

  function ServingSet(workers: Workers): set<nat> {
    set w | w in workers && workers[w].Serving?
  }

  predicate CountOk(workQSize: int, workload: seq<Work>, workers: Workers) {
    workQSize == |workload| + |ServingSet(workers)|
  }

  predicate SizeOk(p: Params, clients: Clients, phase: Phase) {
    |clients| <= p.maxConnections && (phase.Admitted? ==> |clients| < p.maxConnections)
  }

  function PoolBound(p: Params): nat {
    var most := if p.minServers > p.maxServers then p.minServers else p.maxServers;
    if most > 1 then most else 1
  }

  ghost predicate PoolOk(p: Params, workers: Workers, nextWorker: nat) {
    |workers| <= PoolBound(p) && forall w :: w in workers ==> w < nextWorker
  }

  predicate StopOk(phase: Phase, workQSize: int, workers: Workers) {
    && (phase.Joining? ==> workQSize == 0)
    && (phase.Sweeping? || phase.SweepErased? || phase.Finished? ==> workQSize == 0 && workers == map[])
  }

  /** While the clients are swept, the list of those still to close is the client map. */
  ghost predicate SweepOk(clients: Clients, phase: Phase) {
    && (phase.Sweeping? || phase.SweepErased? ==>
          && (forall i :: 0 <= i < |phase.todo| ==> NodeAlive(clients, phase.todo[i]))
          && (forall i, j :: 0 <= i < j < |phase.todo| ==> phase.todo[i].fd != phase.todo[j].fd)
          && (forall fd :: fd in clients ==> exists i :: 0 <= i < |phase.todo| && phase.todo[i].fd == fd))
    && (phase.Finished? ==> clients == map[])
  }

  // ---- callbacks ----

  /** handShake followed by any number of readSocket calls. */
  predicate Reads(calls: seq<Callback>) {
    |calls| >= 1 && calls[0] == HandShake && forall i :: 1 <= i < |calls| ==> calls[i] == ReadSocket
  }

  /** A prefix of handShake, readSocket*, shutDown. */
  predicate InOrder(calls: seq<Callback>) {
    calls == [] || Reads(calls) || (calls[|calls| - 1] == ShutDown && Reads(calls[..|calls| - 1]))
  }

  /** Holds of a connection whatever its callbacks threw; in full order if they did not throw. */
  predicate HistoryOk(c: Conn) {
    && (c.calls != [] ==> c.calls[0] == HandShake)
    && (!c.threw ==> InOrder(c.calls))
  }

  ghost predicate HistoriesOk(conns: seq<Conn>) {
    forall c :: 0 <= c < |conns| ==> HistoryOk(conns[c])
  }

  /** Nothing has been called on a connection that is not yet listed. */
  predicate FreshOk(phase: Phase, conns: seq<Conn>) {
    phase.Accepted? || phase.Admitted? ==>
      phase.sock.conn < |conns| && conns[phase.sock.conn].calls == [] && !conns[phase.sock.conn].threw
  }

  /** The state word and the callbacks of a client that no worker is serving. */
  predicate Idle(st: SockState, c: Conn, registered: bool) {
    && (c.calls == [] ==> st.isNew)
    && (!c.threw ==> (if st.isNew then st == NEW && c.calls == [] else Reads(c.calls)))
    && (!c.threw && registered ==> st == NONE)
  }

  /** The same for a client that worker k is serving or releasing. */
  predicate Busy(st: SockState, c: Conn, k: Worker)
    requires Holds(k)
  {
    var past := k.Releasing? || !k.stage.AtNew?;
    && (k.done.isNew ==> st.isNew) && (k.done.isRead ==> st.isRead)
    && (!past ==> k.done == NONE && Idle(st, c, false))
    && (past ==> c.calls != [])
    && (past && !c.threw ==>
          && k.done.isNew == st.isNew
          && (st.isNew ==> st == NEW)
          && (k.Serving? && k.stage.AtRead? ==> !k.done.isRead && Reads(c.calls))
          && (k.Serving? && k.stage.AtShut? ==> k.done.isRead == st.isRead && Reads(c.calls))
          && (k.Releasing? || k.stage.AtRelease? ==>
                k.done.isRead == st.isRead && (st.isShut ==> k.done.isShut) && (!k.done.isShut ==> Reads(c.calls))))
  }

  predicate CallOk(e: Entry, at: Place, conns: seq<Conn>, workers: Workers) {
    && e.socket.Socket? && e.socket.conn < |conns|
    && if at.HeldBy?
       then at.w in workers && Holds(workers[at.w]) && Busy(e.state, conns[e.socket.conn], workers[at.w])
       else Idle(e.state, conns[e.socket.conn], at == Registered) && (at == InHand ==> e.state == NEW)
  }

  ghost predicate CallsOk(clients: Clients, conns: seq<Conn>, workers: Workers, place: Places) {
    forall fd :: fd in clients ==> fd in place && CallOk(clients[fd], place[fd], conns, workers)
  }

  ghost predicate Inv(p: Params, s: State, place: Places) {
    && !s.sh.fault
    && ConnsOk(s.sh.kernel, s.conns)
    && ClientsOk(s.sh.kernel, s.sh.clients)
    && KernelOk(s.sh.kernel, s.sh.clients, s.phase, s.lock)
    && TransitOk(s.sh.kernel, s.sh.clients, s.phase, s.lock)
    && LockOk(s.lock, s.phase, s.workers)
    && place.Keys == s.sh.clients.Keys
    && QueueOk(s.sh.clients, s.sh.workload, place)
    && HeldOk(s.sh.clients, s.workers, place)
    && InterestOk(s.sh.interest, place, s.phase)
    && HandOk(s.phase, place)
    && BatchOk(s.sh.clients, s.sh.interest, s.phase, s.batch)
    && CountOk(s.sh.workQSize, s.sh.workload, s.workers)
    && SizeOk(p, s.sh.clients, s.phase)
    && PoolOk(p, s.workers, s.nextWorker)
    && StopOk(s.phase, s.sh.workQSize, s.workers)
    && SweepOk(s.sh.clients, s.phase)
    && HistoriesOk(s.conns) && FreshOk(s.phase, s.conns)
    && CallsOk(s.sh.clients, s.conns, s.workers, place)
  }

  lemma InitInv(p: Params)
    ensures Inv(p, Init(), map[])
  {
    assert ServingSet(Init().workers) == {};
  }
}
