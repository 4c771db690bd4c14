/** Every action of the listener thread keeps the ownership invariant. */
module ListenerTurns {
  import opened SockStates
  import opened Wrappers
  import opened ListenerShared
  import opened ListenerProtocol
  import opened ListenerInvariant
  import opened ListenerFrames
  import opened ListenerSteps

  /** Points of the loop at which the listener holds no connection. */
  predicate Empty(phase: Phase) {
    phase.Starting? || phase.Polling? || phase.Handling? || phase.Accepting? || phase.Draining?
  }

  lemma PhaseMove(p: Params, s: State, place: Places, phase': Phase, batch': seq<Event>)
    requires Inv(p, s, place) && Empty(s.phase) && Empty(phase')
    requires batch' == [] || (batch' == s.batch && !phase'.Draining?)
             || (s.batch != [] && batch' == s.batch[1..] && !phase'.Draining?)
    ensures Inv(p, s.(phase := phase', batch := batch'), place)
  {
  }

  lemma NewServerKeeps(p: Params, s: State, place: Places)
    requires Inv(p, s, place) && |s.workers| < PoolBound(p)
    requires !s.phase.Sweeping? && !s.phase.SweepErased? && !s.phase.Finished?
    ensures Inv(p, NewServer(s), place)
  {
    HeldIdle(s.sh.clients, s.workers, place, s.nextWorker, Waiting);
    ServingSame(s.workers, s.nextWorker, Waiting);
    OneMoreWorker(s.workers, s.nextWorker);
    CallsOtherWorker(s.sh.clients, s.conns, s.workers, place, s.nextWorker, Waiting);
  }

  lemma OneMoreWorker(m: Workers, w: nat)
    requires w !in m
    ensures |m[w := Waiting]| == |m| + 1
  {
    assert m[w := Waiting].Keys == m.Keys + {w};
    assert |m[w := Waiting].Keys| == |m[w := Waiting]| && |m.Keys| == |m|;
  }

  lemma CallsOtherWorker(c: Clients, conns: seq<Conn>, m: Workers, pl: Places, w: nat, k: Worker)
    requires CallsOk(c, conns, m, pl) && (w in m ==> !Holds(m[w]))
    ensures CallsOk(c, conns, m[w := k], pl)
  {
    forall g | g in c ensures g in pl && CallOk(c[g], pl[g], conns, m[w := k]) {
      assert CallOk(c[g], pl[g], conns, m);
    }
  }

  // ---- events ----

  lemma DeliverBatch(kernel: Kernel, c: Clients, interest: map<int, bool>, phase: Phase, batch: seq<Event>, e: Event)
    requires BatchOk(c, interest, phase, batch) && ClientsOk(kernel, c) && phase.Polling?
    requires e.Ready? && e.fd in interest && interest[e.fd] && e.fd in c && e.conn == kernel[e.fd]
    requires !e.flags.isNew && (e.flags.isRead || e.flags.isShut)
    ensures BatchOk(c, interest[e.fd := false], phase, batch + [e])
  {
    var interest', batch' := interest[e.fd := false], batch + [e];
    forall i | 0 <= i < |batch'| ensures EventOk(c, interest', batch'[i]) {
      if i < |batch| { assert EventOk(c, interest, batch[i]); }
    }
  }

  lemma DeliverKeeps(p: Params, s: State, place: Places, fd: int, flags: SockState)
    requires Inv(p, s, place) && ListenerStep(p, s, Deliver(fd, flags)).Some?
    ensures Inv(p, ListenerStep(p, s, Deliver(fd, flags)).value, place)
  {
    assert fd in place && fd in s.sh.clients && fd in s.sh.kernel;
    DeliverBatch(s.sh.kernel, s.sh.clients, s.sh.interest, s.phase, s.batch, Ready(fd, s.sh.kernel[fd], flags));
  }

  lemma IncomingKeeps(p: Params, s: State, place: Places)
    requires Inv(p, s, place) && s.phase.Polling?
    ensures Inv(p, s.(batch := s.batch + [Incoming]), place)
  {
  }

  // ---- pushing ----

  /** A registered client becomes queued work for the flags of its event. */
  lemma AfterEvent(e: Entry, conns: seq<Conn>, m: Workers, flags: SockState)
    requires CallOk(e, Registered, conns, m) && !flags.isNew
    ensures CallOk(e.(state := Or(e.state, flags)), Queued, conns, m)
  {
  }

  lemma TailBatch(c: Clients, c': Clients, interest: map<int, bool>, phase: Phase, batch: seq<Event>)
    requires BatchOk(c, interest, phase, batch) && batch != [] && batch[0].Ready?
    requires forall g :: g != batch[0].fd && g in c ==> g in c' && c'[g] == c[g]
    ensures BatchOk(c', interest - {batch[0].fd}, phase, batch[1..])
  {
    var interest' := interest - {batch[0].fd};
    forall i | 0 <= i < |batch[1..]| ensures EventOk(c', interest', batch[1..][i]) {
      assert EventOk(c, interest, batch[i + 1]);
      assert batch[i + 1].Ready? ==> batch[0].fd != batch[i + 1].fd;
    }
  }

  lemma PushEventPlaces(s: State, place: Places, fd: int, c': Clients)
    requires QueueOk(s.sh.clients, s.sh.workload, place) && HeldOk(s.sh.clients, s.workers, place)
    requires HandOk(s.phase, place) && InterestOk(s.sh.interest, place, s.phase)
    requires fd in s.sh.interest && fd in s.sh.clients && !s.phase.SweepErased?
    requires Elsewhere(s.sh.clients, place, c', place[fd := Queued], fd)
    requires fd in c' && c'[fd].socket.Socket? && c'[fd].socket.fd == fd
    ensures var pl' := place[fd := Queued];
            && QueueOk(c', s.sh.workload + [Work(fd, c'[fd].socket.conn)], pl')
            && HeldOk(c', s.workers, pl') && HandOk(s.phase, pl') && InterestOk(s.sh.interest - {fd}, pl', s.phase)
  {
    var c := s.sh.clients;
    var pl' := place[fd := Queued];
    QueuePush(c, place, c', Work(fd, c'[fd].socket.conn), s.sh.workload);
    HeldFrame(c, place, c', pl', fd, s.workers);
    HandFrame(c, place, c', pl', fd, s.phase);
    InterestRemove(s.sh.interest, place, fd, s.phase);
  }

  lemma PushEventKeeps(p: Params, s: State, place: Places)
    requires Inv(p, s, place) && s.phase.Handling? && s.batch != [] && s.batch[0].Ready?
    ensures Inv(p, s.(sh := PushWork(s.sh, s.batch[0].fd, s.batch[0].flags), batch := s.batch[1..]),
                place[s.batch[0].fd := Queued])
  {
    var fd, flags, c := s.batch[0].fd, s.batch[0].flags, s.sh.clients;
    assert EventOk(c, s.sh.interest, s.batch[0]);
    var st := Or(c[fd].state, flags);
    var c', pl' := c[fd := c[fd].(state := st)], place[fd := Queued];
    StateWord(s.sh.kernel, c, s.phase, s.lock, fd, st);
    ElsewhereUpdate(c, place, fd, c[fd].(state := st), Queued);
    PushEventPlaces(s, place, fd, c');
    assert BatchOk(c', s.sh.interest - {fd}, s.phase, s.batch[1..]) by {
      TailBatch(c, c', s.sh.interest, s.phase, s.batch);
    }
    assert CallsOk(c', s.conns, s.workers, pl') by {
      AfterEvent(c[fd], s.conns, s.workers, flags);
      CallsFrame(c, place, c', pl', fd, s.conns, s.conns, s.workers, s.workers);
    }
    PushEventIs(s.sh, fd, flags);
  }

  lemma PushEventIs(sh: Shared, fd: int, flags: SockState)
    requires fd in sh.clients && sh.clients[fd].socket.Socket? && sh.clients[fd].socket.fd == fd
    requires fd in sh.interest && !flags.isNew
    ensures PushWork(sh, fd, flags) ==
            sh.(clients := sh.clients[fd := sh.clients[fd].(state := Or(sh.clients[fd].state, flags))],
                workload := sh.workload + [Work(fd, sh.clients[fd].socket.conn)],
                workQSize := sh.workQSize + 1, interest := sh.interest - {fd})
  {
  }

  lemma PushNewPlaces(s: State, place: Places, c': Clients)
    requires s.phase.Listed? && HandOk(s.phase, place) && InterestOk(s.sh.interest, place, s.phase)
    requires QueueOk(s.sh.clients, s.sh.workload, place) && HeldOk(s.sh.clients, s.workers, place)
    requires BatchOk(s.sh.clients, s.sh.interest, s.phase, s.batch)
    requires Elsewhere(s.sh.clients, place, c', place[s.phase.sock.fd := Queued], s.phase.sock.fd)
    requires NodeAlive(c', s.phase.sock)
    ensures var fd, pl' := s.phase.sock.fd, place[s.phase.sock.fd := Queued];
            && QueueOk(c', s.sh.workload + [s.phase.sock], pl')
            && HeldOk(c', s.workers, pl') && HandOk(Accepting, pl') && InterestOk(s.sh.interest, pl', s.phase)
            && BatchOk(c', s.sh.interest, Accepting, s.batch)
  {
    var c, fd := s.sh.clients, s.phase.sock.fd;
    var pl' := place[fd := Queued];
    QueuePush(c, place, c', s.phase.sock, s.sh.workload);
    HeldFrame(c, place, c', pl', fd, s.workers);
    InterestFrame(c, place, c', pl', fd, s.sh.interest, s.phase);
    BatchFrame(c, c', s.sh.interest, s.sh.interest, fd, s.phase, s.batch);
  }

  lemma PushNewKeeps(p: Params, s: State, place: Places)
    requires Inv(p, s, place) && s.phase.Listed?
    ensures Inv(p, s.(sh := PushWork(s.sh, s.phase.sock.fd, NEW), phase := Accepting), place[s.phase.sock.fd := Queued])
  {
    var fd, c := s.phase.sock.fd, s.sh.clients;
    var st := Or(c[fd].state, NEW);
    var c', pl' := c[fd := c[fd].(state := st)], place[fd := Queued];
    StateWord(s.sh.kernel, c, s.phase, s.lock, fd, st);
    ElsewhereUpdate(c, place, fd, c[fd].(state := st), Queued);
    PushNewPlaces(s, place, c');
    assert CallsOk(c', s.conns, s.workers, pl') by {
      assert CallOk(c[fd], InHand, s.conns, s.workers);
      CallsFrame(c, place, c', pl', fd, s.conns, s.conns, s.workers, s.workers);
    }
  }

  // ---- accepting ----

  lemma AcceptConns(kernel: Kernel, conns: seq<Conn>, fd: int)
    requires ConnsOk(kernel, conns) && fd !in kernel
    ensures ConnsOk(kernel[fd := |conns|], conns + [Conn(fd, [], false, 0)])
  {
  }

  lemma AcceptKeeps(p: Params, s: State, place: Places, fd: int)
    requires Inv(p, s, place) && ListenerStep(p, s, Accept(fd)).Some?
    ensures Inv(p, ListenerStep(p, s, Accept(fd)).value, place)
  {
    var s' := ListenerStep(p, s, Accept(fd)).value;
    AcceptConns(s.sh.kernel, s.conns, fd);
    assert CallsOk(s.sh.clients, s'.conns, s.workers, place) by {
      forall g | g in s.sh.clients ensures g in place && CallOk(s.sh.clients[g], place[g], s'.conns, s.workers) {
        assert CallOk(s.sh.clients[g], place[g], s.conns, s.workers);
      }
    }
    assert ClientsOk(s'.sh.kernel, s.sh.clients);
    assert KernelOk(s'.sh.kernel, s.sh.clients, s'.phase, s.lock);
  }

  /** A connection beyond maxconnections is closed before it is listed. */
  lemma RejectKeeps(p: Params, s: State, place: Places, phase': Phase)
    requires Inv(p, s, place) && s.phase.Accepted? && (phase'.Accepting? || phase'.Handling?)
    ensures Inv(p, CloseConn(s, s.phase.sock).(phase := phase'), place)
  {
    var work := s.phase.sock;
    CloseConnIs(s, place, work);
    var s' := CloseState(s, work).(phase := phase');
    assert ConnsOk(s'.sh.kernel, s'.conns) by { CloseConnsOk(s.sh.kernel, s.conns, work); }
    assert HistoriesOk(s'.conns) by { CloseHistories(s.conns, work.conn); }
    assert ClientsOk(s'.sh.kernel, s'.sh.clients) by { CloseClientsOk(s.sh.kernel, s.sh.clients, work.fd); }
    assert CallsOk(s'.sh.clients, s'.conns, s'.workers, place) by {
      CloseCalls(s.sh.kernel, s.sh.clients, s.conns, s.workers, s.workers, place, work);
    }
    RejectTransit(s, place, phase');
  }

  /** The conjuncts about open descriptors that a rejected connection takes part in. */
  lemma RejectTransit(s: State, place: Places, phase': Phase)
    requires s.phase.Accepted? && (phase'.Accepting? || phase'.Handling?)
    requires KernelOk(s.sh.kernel, s.sh.clients, s.phase, s.lock)
    requires TransitOk(s.sh.kernel, s.sh.clients, s.phase, s.lock)
    requires InterestOk(s.sh.interest, place, s.phase) && place.Keys == s.sh.clients.Keys
    ensures var kernel := s.sh.kernel - {s.phase.sock.fd};
            && KernelOk(kernel, s.sh.clients, phase', s.lock) && TransitOk(kernel, s.sh.clients, phase', s.lock)
            && s.sh.interest - {s.phase.sock.fd} == s.sh.interest && InterestOk(s.sh.interest, place, phase')
  {
    assert s.phase.sock.fd !in s.sh.interest;
  }

  lemma AdmitKeeps(p: Params, s: State, place: Places)
    requires Inv(p, s, place) && s.phase.Accepted? && |s.sh.clients| < p.maxConnections
    ensures Inv(p, s.(phase := Admitted(s.phase.sock)), place)
  {
  }

  lemma ListPlaces(s: State, place: Places, c': Clients)
    requires s.phase.Admitted? && HandOk(s.phase, place) && InterestOk(s.sh.interest, place, s.phase)
    requires QueueOk(s.sh.clients, s.sh.workload, place) && HeldOk(s.sh.clients, s.workers, place)
    requires BatchOk(s.sh.clients, s.sh.interest, s.phase, s.batch)
    requires s.phase.sock.fd !in s.sh.clients && place.Keys == s.sh.clients.Keys
    requires Elsewhere(s.sh.clients, place, c', place[s.phase.sock.fd := InHand], s.phase.sock.fd)
    ensures var pl' := place[s.phase.sock.fd := InHand];
            && QueueOk(c', s.sh.workload, pl') && HeldOk(c', s.workers, pl')
            && HandOk(Listed(s.phase.sock), pl') && InterestOk(s.sh.interest, pl', s.phase)
            && BatchOk(c', s.sh.interest, Listed(s.phase.sock), s.batch)
  {
    var c, fd := s.sh.clients, s.phase.sock.fd;
    var pl' := place[fd := InHand];
    QueueFrame(c, place, c', pl', fd, s.sh.workload);
    HeldFrame(c, place, c', pl', fd, s.workers);
    InterestFrame(c, place, c', pl', fd, s.sh.interest, s.phase);
    BatchFrame(c, c', s.sh.interest, s.sh.interest, fd, s.phase, s.batch);
  }

  lemma ListKeeps(p: Params, s: State, place: Places)
    requires Inv(p, s, place) && s.phase.Admitted? && s.lock.Free?
    ensures Inv(p, s.(sh := ListClient(s.sh, s.phase.sock), phase := Listed(s.phase.sock)),
                place[s.phase.sock.fd := InHand])
  {
    var sock, fd, c := s.phase.sock, s.phase.sock.fd, s.sh.clients;
    var e := Entry(Socket(fd, sock.conn), NEW);
    var c', pl' := c[fd := e], place[fd := InHand];
    ElsewhereUpdate(c, place, fd, e, InHand);
    ListPlaces(s, place, c');
    LargerMap(c, fd, e);
    assert CallsOk(c', s.conns, s.workers, pl') by {
      CallsFrame(c, place, c', pl', fd, s.conns, s.conns, s.workers, s.workers);
    }
  }

  // ---- the pool ----

  lemma FewerWorkers(m: Workers, w: nat)
    requires w in m
    ensures |m - {w}| == |m| - 1
  {
    assert (m - {w}).Keys == m.Keys - {w};
    assert |(m - {w}).Keys| == |m - {w}| && |m.Keys| == |m|;
  }

  lemma RemoveStopped(p: Params, s: State, place: Places, w: nat)
    requires Inv(p, s, place) && HasWorker(s, w, Stopped)
    ensures Inv(p, s.(workers := s.workers - {w}), place)
    ensures |s.workers - {w}| < PoolBound(p)
  {
    var m' := s.workers - {w};
    FewerWorkers(s.workers, w);
    assert ServingSet(m') == ServingSet(s.workers);
    assert CallsOk(s.sh.clients, s.conns, m', place) by {
      forall g | g in s.sh.clients ensures g in place && CallOk(s.sh.clients[g], place[g], s.conns, m') {
        assert CallOk(s.sh.clients[g], place[g], s.conns, s.workers);
      }
    }
    assert HeldOk(s.sh.clients, m', place);
    assert LockOk(s.lock, s.phase, m');
  }

  lemma ReapKeeps(p: Params, s: State, place: Places, w: nat)
    requires Inv(p, s, place) && ListenerStep(p, s, Reap(w)).Some?
    ensures Inv(p, ListenerStep(p, s, Reap(w)).value, place)
  {
    var s1 := s.(workers := s.workers - {w});
    RemoveStopped(p, s, place, w);
    if w == s.initWorker {
      var s2 := s1.(initWorker := s.nextWorker);
      assert Inv(p, s2, place);
      NewServerKeeps(p, s2, place);
    }
  }

  // ---- winding down ----

  lemma DrainedKeeps(p: Params, s: State, place: Places)
    requires Inv(p, s, place) && s.phase.Draining? && s.sh.workQSize == 0
    ensures Inv(p, s.(phase := Joining, stopping := s.workers.Keys), place)
  {
  }

  lemma ListIsComplete(kernel: Kernel, c: Clients, sh: Shared, order: seq<int>)
    requires sh.clients == c && ClientsOk(kernel, c) && Enumerates(order, c.Keys)
    ensures SweepOk(c, Sweeping(ClientList(sh, order)))
  {
    var todo := ClientList(sh, order);
    forall fd | fd in c ensures exists i :: 0 <= i < |todo| && todo[i].fd == fd {
      assert fd in order;
      var i :| 0 <= i < |order| && order[i] == fd;
      assert todo[i].fd == fd;
    }
  }

  lemma JoinedKeeps(p: Params, s: State, place: Places, order: seq<int>)
    requires Inv(p, s, place) && ListenerStep(p, s, Joined(order)).Some?
    ensures Inv(p, ListenerStep(p, s, Joined(order)).value, place)
  {
    ListIsComplete(s.sh.kernel, s.sh.clients, s.sh, order);
    assert ServingSet(s.workers) == {};
    var none: Workers := map[];
    assert ServingSet(none) == {};
    assert CallsOk(s.sh.clients, s.conns, none, place) by {
      forall g | g in s.sh.clients ensures g in place && CallOk(s.sh.clients[g], place[g], s.conns, none) {
        assert CallOk(s.sh.clients[g], place[g], s.conns, s.workers);
      }
    }
  }

  lemma SweepTail(c: Clients, todo: seq<Work>)
    requires SweepOk(c, Sweeping(todo)) && todo != []
    ensures SweepOk(c - {todo[0].fd}, SweepErased(todo[0], todo[1..]))
  {
    var c' := c - {todo[0].fd};
    forall fd | fd in c' ensures exists i :: 0 <= i < |todo[1..]| && todo[1..][i].fd == fd {
      var i :| 0 <= i < |todo| && todo[i].fd == fd;
      assert todo[1..][i - 1].fd == fd;
    }
  }

  lemma SweepPlaces(c: Clients, workload: seq<Work>, pl: Places, fd: int, m: Workers, phase: Phase, phase': Phase)
    requires QueueOk(c, workload, pl) && HeldOk(c, m, pl) && HandOk(phase, pl)
    requires workload == [] && m == map[] && !phase.Listed? && !phase'.Listed?
    ensures QueueOk(c - {fd}, workload, pl - {fd}) && HeldOk(c - {fd}, m, pl - {fd}) && HandOk(phase', pl - {fd})
  {
  }

  lemma SweepEraseKeeps(p: Params, s: State, place: Places)
    requires Inv(p, s, place) && s.phase.Sweeping? && s.phase.todo != [] && s.lock.Free?
    ensures var work := s.phase.todo[0];
            Inv(p, s.(sh := EraseClient(s.sh, work), lock := Closing(work, None),
                      phase := SweepErased(work, s.phase.todo[1..])), place - {work.fd})
  {
    var work, c := s.phase.todo[0], s.sh.clients;
    var phase' := SweepErased(work, s.phase.todo[1..]);
    assert place[work.fd] == Registered;
    SweepTail(c, s.phase.todo);
    SweepPlaces(c, s.sh.workload, place, work.fd, s.workers, s.phase, phase');
    EraseClientsOk(s.sh.kernel, c, s.phase, phase', work, None);
    assert CallsOk(c - {work.fd}, s.conns, s.workers, place - {work.fd}) by {
      EraseCalls(c, s.conns, s.workers, s.workers, place, work.fd);
    }
    SmallerMap(c, work.fd);
    assert InterestOk(s.sh.interest, place - {work.fd}, phase');
  }

  lemma SweepCloseKeeps(p: Params, s: State, place: Places)
    requires Inv(p, s, place) && s.phase.SweepErased?
    ensures Inv(p, CloseConn(s, s.phase.sock).(lock := Free, phase := Sweeping(s.phase.todo)), place)
  {
    var work, phase' := s.phase.sock, Sweeping(s.phase.todo);
    CloseConnsOk(s.sh.kernel, s.conns, work);
    var s' := s.(sh := s.sh.(kernel := s.sh.kernel - {work.fd}, interest := s.sh.interest - {work.fd}),
                 conns := s.conns[work.conn := Closed(s.conns[work.conn])], lock := Free, phase := phase');
    assert CloseConn(s, work).(lock := Free, phase := phase') == s';
    assert HistoriesOk(s'.conns) by { CloseHistories(s.conns, work.conn); }
    assert ClientsOk(s'.sh.kernel, s'.sh.clients) by { CloseClientsOk(s.sh.kernel, s.sh.clients, work.fd); }
    CloseTransit(s.sh.kernel, s.sh.clients, s.phase, phase', s.lock);
    assert CallsOk(s'.sh.clients, s'.conns, s'.workers, place) by {
      CloseCalls(s.sh.kernel, s.sh.clients, s.conns, s.workers, s.workers, place, work);
    }
    SweepInterest(s.sh.interest, place, s.phase, phase');
  }

  lemma SweepInterest(interest: map<int, bool>, pl: Places, phase: Phase, phase': Phase)
    requires InterestOk(interest, pl, phase) && phase.SweepErased? && phase'.Sweeping? && phase.sock.fd !in pl
    ensures InterestOk(interest - {phase.sock.fd}, pl, phase')
  {
  }

  lemma FinishKeeps(p: Params, s: State, place: Places)
    requires Inv(p, s, place) && s.phase == Sweeping([])
    ensures Inv(p, s.(phase := Finished), place)
  {
    assert forall fd :: fd !in s.sh.clients;
    assert s.sh.clients.Keys == {};
  }

  // ---- all of them ----

  lemma LoopKeeps(p: Params, s: State, a: Action, place: Places)
    requires Inv(p, s, place) && ListenerStep(p, s, a).Some?
    requires a.Start? || a.AddServer? || a.EndPoll? || a.AcceptNone? || a.Raise? || a.EndLoop? || a.DeliverIncoming?
             || (a.Handle? && s.batch != [] && s.batch[0].Incoming?)
    ensures Inv(p, ListenerStep(p, s, a).value, place)
  {
    var s' := ListenerStep(p, s, a).value;
    if a.AddServer? || (a.Start? && |s.workers| < p.minServers) {
      NewServerKeeps(p, s, place);
    } else if a.DeliverIncoming? {
      IncomingKeeps(p, s, place);
    } else {
      PhaseMove(p, s, place, s'.phase, s'.batch);
      assert s' == s.(phase := s'.phase, batch := s'.batch);
    }
  }

  lemma HandleKeeps(p: Params, s: State, a: Action, place: Places)
    requires Inv(p, s, place) && a.Handle? && ListenerStep(p, s, a).Some? && s.batch[0].Ready?
    ensures Inv(p, ListenerStep(p, s, a).value, NextPlace(s, a, place))
  {
    PushEventKeeps(p, s, place);
  }

  lemma DecideKeeps(p: Params, s: State, a: Action, place: Places)
    requires Inv(p, s, place) && a.Admit? && ListenerStep(p, s, a).Some?
    ensures Inv(p, ListenerStep(p, s, a).value, place)
  {
    if |s.sh.clients| >= p.maxConnections {
      RejectKeeps(p, s, place, if a.more then Accepting else Handling);
    } else {
      AdmitKeeps(p, s, place);
    }
  }

  lemma EnterKeeps(p: Params, s: State, a: Action, place: Places)
    requires Inv(p, s, place) && (a.List? || a.PushNew?) && ListenerStep(p, s, a).Some?
    ensures Inv(p, ListenerStep(p, s, a).value, NextPlace(s, a, place))
  {
    if a.List? {
      ListKeeps(p, s, place);
    } else {
      PushNewKeeps(p, s, place);
    }
  }

  lemma RetireKeeps(p: Params, s: State, place: Places, w: nat)
    requires Inv(p, s, place)
    ensures Inv(p, s.(stopping := s.stopping + {w}), place)
  {
  }

  lemma ServersKeep(p: Params, s: State, a: Action, place: Places)
    requires Inv(p, s, place) && (a.Reap? || a.Retire? || a.Drained?) && ListenerStep(p, s, a).Some?
    ensures Inv(p, ListenerStep(p, s, a).value, place)
  {
    if a.Reap? {
      ReapKeeps(p, s, place, a.w);
    } else if a.Retire? {
      assert ListenerStep(p, s, a).value == s.(stopping := s.stopping + {a.w});
      RetireKeeps(p, s, place, a.w);
    } else {
      assert ListenerStep(p, s, a).value == s.(phase := Joining, stopping := s.workers.Keys);
      DrainedKeeps(p, s, place);
    }
  }

  lemma SweepKeeps(p: Params, s: State, a: Action, place: Places)
    requires Inv(p, s, place) && (a.SweepErase? || a.SweepClose? || a.Finish?) && ListenerStep(p, s, a).Some?
    ensures Inv(p, ListenerStep(p, s, a).value, NextPlace(s, a, place))
  {
    if a.SweepErase? {
      SweepEraseKeeps(p, s, place);
    } else if a.SweepClose? {
      SweepCloseKeeps(p, s, place);
    } else {
      FinishKeeps(p, s, place);
    }
  }

  /** Every action of the listener keeps the invariant. */
  lemma ListenerKeeps(p: Params, s: State, a: Action, place: Places)
    requires Inv(p, s, place) && ListenerStep(p, s, a).Some?
    ensures Inv(p, ListenerStep(p, s, a).value, NextPlace(s, a, place))
  {
    if a.Deliver? {
      DeliverKeeps(p, s, place, a.fd, a.flags);
    } else if a.Handle? && s.batch[0].Ready? {
      HandleKeeps(p, s, a, place);
    } else if a.Accept? {
      AcceptKeeps(p, s, place, a.fd);
    } else if a.Admit? {
      DecideKeeps(p, s, a, place);
    } else if a.List? || a.PushNew? {
      EnterKeeps(p, s, a, place);
    } else if a.Reap? || a.Retire? || a.Drained? {
      ServersKeep(p, s, a, place);
    } else if a.Joined? {
      JoinedKeeps(p, s, place, a.order);
    } else if a.SweepErase? || a.SweepClose? || a.Finish? {
      SweepKeeps(p, s, a, place);
    } else {
      LoopKeeps(p, s, a, place);
    }
  }

  /** Every action keeps the invariant. */
  lemma StepKeeps(p: Params, s: State, a: Action, place: Places)
    requires Inv(p, s, place) && Step(p, s, a).Some?
    ensures Inv(p, Step(p, s, a).value, NextPlace(s, a, place))
  {
    if a.Stop? {
    } else if ByWorker(a) {
      WorkerKeeps(p, s, a, place);
    } else {
      ListenerKeeps(p, s, a, place);
    }
  }
}
