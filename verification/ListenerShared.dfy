/**
 The data shared by the TCPListener and its TCPServer workers, with the critical
 sections that change it.  Each function is one stretch of code run while
 clientmutex_ is held (or one system call), so the protocol can treat it as a step.

 `fault` records what the source would not survive: following a pointer to an erased
 map node or to a null socket, operator[] creating a client entry, an epoll_ctl or
 close call on a descriptor that does not allow it.
 */
module ListenerShared {
  import opened SockStates
  import opened Wrappers

  /** A BaseSocket*: null, or a socket with its descriptor. `conn` tells connections
      apart that the operating system gave the same descriptor one after the other. */
  datatype Socket = NoSocket | Socket(fd: int, conn: nat)

  /** A SocketWork stored in clients_. */
  datatype Entry = Entry(socket: Socket, state: SockState)

  /** What operator[] stores for a descriptor that is not in the map. */
  const DEFAULT_ENTRY := Entry(NoSocket, NEW)

  /** A pointer to the node of clients_ that holds connection `conn` under `fd`. */
  datatype Work = Work(fd: int, conn: nat)

  datatype Shared = Shared(
    clients: map<int, Entry>,      // clients_
    workload: seq<Work>,           // workload_
    workQSize: int,                // work_q_sz_
    kernel: map<int, nat>,         // open descriptors, with the connection behind each
    interest: map<int, bool>,      // the epoll interest list; true while the one-shot is armed
    fault: bool)

  /** clients_[fd] read through operator[]. */
  function Lookup(clients: map<int, Entry>, fd: int): Entry {
    if fd in clients then clients[fd] else DEFAULT_ENTRY
  }

  /** The map node `work` points to has not been erased. */
  predicate NodeAlive(clients: map<int, Entry>, work: Work) {
    work.fd in clients && clients[work.fd].socket == Socket(work.fd, work.conn)
  }

  /** EPOLL_CTL_DEL, which fails for a descriptor that is not in the interest list. */
  function PollDel(sh: Shared, socket: Socket): Shared {
    if socket.Socket? && socket.fd in sh.interest
    then sh.(interest := sh.interest - {socket.fd})
    else sh.(fault := true)
  }

  /** EPOLL_CTL_ADD, which fails for a closed descriptor and for one that is already in the list. */
  function PollAdd(sh: Shared, work: Work): Shared {
    if work.fd in sh.kernel && sh.kernel[work.fd] == work.conn && work.fd !in sh.interest
    then sh.(interest := sh.interest[work.fd := true])
    else sh.(fault := true)
  }

  /** The connection a socket pointer leads to; 0 stands in for a null pointer, which is a fault anyway. */
  function ConnOf(socket: Socket): nat {
    if socket.Socket? then socket.conn else 0
  }

  /** pushWork, both overloads. */
  function PushWork(sh: Shared, fd: int, state: SockState): Shared {
    var e := Lookup(sh.clients, fd);
    var pushed := sh.(
      clients := sh.clients[fd := e.(state := Or(e.state, state))],
      workload := sh.workload + [Work(fd, ConnOf(e.socket))],
      workQSize := sh.workQSize + 1,
      fault := sh.fault || fd !in sh.clients || e.socket.NoSocket?);
    if state.isNew then pushed else PollDel(pushed, e.socket)
  }

  /** popWork. */
  function PopWork(sh: Shared): (Shared, Option<Work>) {
    if sh.workload == [] then (sh, None)
    else (sh.(workload := sh.workload[1..], fault := sh.fault || !NodeAlive(sh.clients, sh.workload[0])),
          Some(sh.workload[0]))
  }

  /** The part of releaseWork that returns a connection to epoll. */
  function Rearm(sh: Shared, work: Work, done: SockState): Shared {
    var e := Lookup(sh.clients, work.fd);
    var added := PollAdd(sh, work);
    added.(clients := sh.clients[work.fd := e.(state := Xor(e.state, done))],
           fault := added.fault || work.fd !in sh.clients)
  }

  /** closeSocket up to and including clients_.erase. */
  function EraseClient(sh: Shared, work: Work): Shared {
    sh.(clients := sh.clients - {work.fd}, fault := sh.fault || !NodeAlive(sh.clients, work))
  }

  /** BaseSocket::close: the kernel also drops the descriptor from the interest list. */
  function CloseFd(sh: Shared, work: Work): Shared {
    sh.(kernel := sh.kernel - {work.fd}, interest := sh.interest - {work.fd},
        fault := sh.fault || work.fd !in sh.kernel || sh.kernel[work.fd] != work.conn)
  }

  /** The insertion of a freshly accepted socket into clients_. */
  function ListClient(sh: Shared, work: Work): Shared {
    sh.(clients := sh.clients[work.fd := Entry(Socket(work.fd, work.conn), NEW)],
        fault := sh.fault || work.fd in sh.clients)
  }
}
