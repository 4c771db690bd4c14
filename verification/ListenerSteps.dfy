/** Every action of the listener protocol keeps the ownership invariant. */
module ListenerSteps {
  import opened SockStates
  import opened Wrappers
  import opened ListenerShared
  import opened ListenerProtocol
  import opened ListenerInvariant
  import opened ListenerFrames

  /** How an action moves clients between places. */
  ghost function NextPlace(s: State, a: Action, place: Places): Places {
    match a
    case Pop(w) => if s.sh.workload == [] then place else place[s.sh.workload[0].fd := HeldBy(w)]
    case Arm(w) => if HoldsWork(s, w) then place[s.workers[w].work.fd := Registered] else place
    case Erase(w) => if HoldsWork(s, w) then place - {s.workers[w].work.fd} else place
    case Handle => if s.batch != [] && s.batch[0].Ready? then place[s.batch[0].fd := Queued] else place
    case List => if s.phase.Admitted? then place[s.phase.sock.fd := InHand] else place
    case PushNew => if s.phase.Listed? then place[s.phase.sock.fd := Queued] else place
    case SweepErase => if s.phase.Sweeping? && s.phase.todo != [] then place - {s.phase.todo[0].fd} else place
    case _ => place
  }

  ghost predicate HoldsWork(s: State, w: nat) {
    w in s.workers && Holds(s.workers[w])
  }

  /** A worker that moves between two states in which it owns nothing. */
  lemma IdleMove(p: Params, s: State, place: Places, w: nat, k: Worker)
    requires Inv(p, s, place)
    requires w in s.workers && !Holds(s.workers[w]) && !s.workers[w].Erased?
    requires !Holds(k) && !k.Erased?
    ensures Inv(p, SetWorker(s, w, k), place)
  {
    ServingSame(s.workers, w, k);
    SameWorkers(p, s.workers, w, k, s.nextWorker);
    HeldIdle(s.sh.clients, s.workers, place, w, k);
  }

  // ---- Pop ----

  ghost function PopState(s: State, w: nat): State
    requires s.sh.workload != []
  {
    SetWorker(s.(sh := s.sh.(workload := s.sh.workload[1..])), w, Serving(s.sh.workload[0], AtNew, NONE))
  }

  lemma PopKeeps(p: Params, s: State, w: nat, place: Places)
    requires Inv(p, s, place)
    requires w in s.workers && s.workers[w].Popping? && s.lock.Free? && s.sh.workload != []
    ensures Inv(p, PopState(s, w), place[s.sh.workload[0].fd := HeldBy(w)])
  {
    var s' := PopState(s, w);
    var place' := place[s.sh.workload[0].fd := HeldBy(w)];
    var k := Serving(s.sh.workload[0], AtNew, NONE);
    var fd := k.work.fd;
    InterestFrame(s.sh.clients, place, s.sh.clients, place', fd, s.sh.interest, s.phase);
    HandFrame(s.sh.clients, place, s.sh.clients, place', fd, s.phase);
    QueuePop(s.sh.clients, s.sh.workload, place, w);
    HeldTake(s.sh.clients, s.workers, place, w, k);
    CallsFrame(s.sh.clients, place, s.sh.clients, place', fd, s.conns, s.conns, s.workers, s'.workers);
    SameWorkers(p, s.workers, w, k, s.nextWorker);
    ServingMore(s.workers, w, k);
  }

  // ---- the callbacks ----

  /** A worker goes on to a later point of its inner loop, perhaps after a callback. */
  lemma OnwardKeeps(p: Params, s: State, place: Places, w: nat, k': Worker, c': Conn)
    requires Inv(p, s, place) && w in s.workers && s.workers[w].Serving?
    requires k'.Serving? && k'.work == s.workers[w].work
    requires k'.work.conn < |s.conns| && HistoryOk(c')
    requires c'.fd == s.conns[k'.work.conn].fd && c'.closes == s.conns[k'.work.conn].closes
    requires k'.work.fd in s.sh.clients && Busy(s.sh.clients[k'.work.fd].state, c', k')
    ensures Inv(p, SetWorker(s, w, k').(conns := s.conns[k'.work.conn := c']), place)
  {
    var fd := k'.work.fd;
    var s' := SetWorker(s, w, k').(conns := s.conns[k'.work.conn := c']);
    assert HeldOk(s.sh.clients, s'.workers, place) by { HeldOn(s.sh.clients, s.workers, place, w, k'); }
    assert CountOk(s.sh.workQSize, s.sh.workload, s'.workers) by { ServingSame(s.workers, w, k'); }
    assert PoolOk(p, s'.workers, s.nextWorker) by { SameWorkers(p, s.workers, w, k', s.nextWorker); }
    assert CallsOk(s.sh.clients, s'.conns, s'.workers, place) by {
      OnwardCalls(s.sh.kernel, s.sh.clients, s.conns, s.workers, place, w, k', c');
    }
    assert ConnsOk(s.sh.kernel, s'.conns);
    assert HistoriesOk(s'.conns);
  }

  lemma OnwardCalls(kernel: Kernel, c: Clients, conns: seq<Conn>, m: Workers, pl: Places, w: nat, k': Worker, c': Conn)
    requires ConnsOk(kernel, conns) && ClientsOk(kernel, c) && HeldOk(c, m, pl) && CallsOk(c, conns, m, pl)
    requires w in m && Holds(m[w]) && Holds(k') && k'.work == m[w].work
    requires k'.work.conn < |conns| && k'.work.fd in c && Busy(c[k'.work.fd].state, c', k')
    ensures CallsOk(c, conns[k'.work.conn := c'], m[w := k'], pl)
  {
    var fd := k'.work.fd;
    forall g | g in c && g != fd
      ensures c[g].socket.Socket? && c[g].socket.conn < |conns| && c[g].socket.conn != k'.work.conn
    {
      DistinctConns(kernel, conns, c, fd, g);
    }
    CallsFrame(c, pl, c, pl, fd, conns, conns[k'.work.conn := c'], m, m[w := k']);
  }

  lemma AfterHandShake(st: SockState, c: Conn, k: Worker, o: Outcome)
    requires k.Serving? && k.stage.AtNew? && Busy(st, c, k) && HistoryOk(c) && !o.ThrewBefore?
    ensures st.isNew ==> Busy(st, Called(c, HandShake, o), Serving(k.work, AtRead, Completion(k.done, NEW, o)))
    ensures st.isNew ==> HistoryOk(Called(c, HandShake, o))
    ensures !st.isNew ==> Busy(st, c, k.(stage := AtRead))
  {
  }

  lemma AfterReadSocket(st: SockState, c: Conn, k: Worker, o: Outcome)
    requires k.Serving? && k.stage.AtRead? && Busy(st, c, k) && HistoryOk(c)
    ensures st.isRead ==> Busy(st, Called(c, ReadSocket, o), Serving(k.work, AtShut, Completion(k.done, READ, o)))
    ensures st.isRead ==> HistoryOk(Called(c, ReadSocket, o))
    ensures !st.isRead ==> Busy(st, c, k.(stage := AtShut))
  {
  }

  lemma AfterShutDown(st: SockState, c: Conn, k: Worker, o: Outcome)
    requires k.Serving? && k.stage.AtShut? && Busy(st, c, k) && HistoryOk(c) && !o.ThrewBefore?
    ensures st.isShut ==> Busy(st, Called(c, ShutDown, o), Serving(k.work, AtRelease, Completion(k.done, SHUT, o)))
    ensures st.isShut ==> HistoryOk(Called(c, ShutDown, o))
    ensures !st.isShut ==> Busy(st, c, k.(stage := AtRelease))
  {
    var calls := c.calls + [ShutDown];
    assert calls[..|calls| - 1] == c.calls;
  }

  lemma CallbackKeeps(p: Params, s: State, a: Action, place: Places)
    requires Inv(p, s, place) && (a.OnNew? || a.OnRead? || a.OnShut?)
    requires a.w in s.workers && WorkerStep(s, a, a.w).Some?
    ensures Inv(p, WorkerStep(s, a, a.w).value, place)
  {
    var w, o := a.w, a.outcome;
    var k := s.workers[w];
    var c := s.conns[k.work.conn];
    var st := s.sh.clients[k.work.fd].state;
    assert Busy(st, c, k) && HistoryOk(c);
    var wanted, call, bit, next :=
      if a.OnNew? then st.isNew else if a.OnRead? then st.isRead else st.isShut,
      if a.OnNew? then HandShake else if a.OnRead? then ReadSocket else ShutDown,
      if a.OnNew? then NEW else if a.OnRead? then READ else SHUT,
      if a.OnNew? then AtRead else if a.OnRead? then AtShut else AtRelease;
    if a.OnNew? { AfterHandShake(st, c, k, o); }
    else if a.OnRead? { AfterReadSocket(st, c, k, o); }
    else { AfterShutDown(st, c, k, o); }
    if wanted {
      OnwardKeeps(p, s, place, w, Serving(k.work, next, Completion(k.done, bit, o)), Called(c, call, o));
    } else {
      OnwardKeeps(p, s, place, w, k.(stage := next), c);
      assert s.conns[k.work.conn := c] == s.conns;
    }
  }

  // ---- releasing ----

  lemma DecrementKeeps(p: Params, s: State, place: Places, w: nat)
    requires Inv(p, s, place) && w in s.workers && s.workers[w].Serving? && s.workers[w].stage.AtRelease?
    ensures var k := s.workers[w];
            Inv(p, SetWorker(s.(sh := s.sh.(workQSize := s.sh.workQSize - 1)), w, Releasing(k.work, k.done)), place)
  {
    var k := s.workers[w];
    var k' := Releasing(k.work, k.done);
    HeldOn(s.sh.clients, s.workers, place, w, k');
    ServingFewer(s.workers, w, k');
    SameWorkers(p, s.workers, w, k', s.nextWorker);
    assert w in ServingSet(s.workers);
    CallsFrame(s.sh.clients, place, s.sh.clients, place, k.work.fd, s.conns, s.conns, s.workers, s.workers[w := k']);
  }

  /** A client returns to epoll in the state its releasing worker leaves it in. */
  lemma AfterRelease(e: Entry, conns: seq<Conn>, m: Workers, w: nat)
    requires w in m && m[w].Releasing? && !m[w].done.isShut && CallOk(e, HeldBy(w), conns, m)
    ensures forall m' :: CallOk(e.(state := Xor(e.state, m[w].done)), Registered, conns, m')
  {
  }

  lemma ArmPlaces(s: State, place: Places, w: nat, c': Clients)
    requires QueueOk(s.sh.clients, s.sh.workload, place) && HeldOk(s.sh.clients, s.workers, place)
    requires HandOk(s.phase, place) && InterestOk(s.sh.interest, place, s.phase)
    requires BatchOk(s.sh.clients, s.sh.interest, s.phase, s.batch)
    requires w in s.workers && s.workers[w].Releasing? && !s.phase.SweepErased?
    requires Elsewhere(s.sh.clients, place, c', place[s.workers[w].work.fd := Registered], s.workers[w].work.fd)
    ensures var fd := s.workers[w].work.fd;
            var pl', m' := place[fd := Registered], s.workers[w := Popping];
            && QueueOk(c', s.sh.workload, pl') && HeldOk(c', m', pl') && HandOk(s.phase, pl')
            && InterestOk(s.sh.interest[fd := true], pl', s.phase)
            && BatchOk(c', s.sh.interest[fd := true], s.phase, s.batch)
  {
    var fd, c := s.workers[w].work.fd, s.sh.clients;
    var pl' := place[fd := Registered];
    QueueFrame(c, place, c', pl', fd, s.sh.workload);
    HeldGive(c, place, c', pl', s.workers, w, Popping);
    HandFrame(c, place, c', pl', fd, s.phase);
    InterestAdd(s.sh.interest, place, fd, s.phase);
    BatchFrame(c, c', s.sh.interest, s.sh.interest[fd := true], fd, s.phase, s.batch);
  }

  lemma ArmCalls(s: State, place: Places, w: nat, c': Clients)
    requires w in s.workers && s.workers[w].Releasing? && !s.workers[w].done.isShut
    requires place.Keys == s.sh.clients.Keys && s.workers[w].work.fd in s.sh.clients
    requires HeldOk(s.sh.clients, s.workers, place) && CallsOk(s.sh.clients, s.conns, s.workers, place)
    requires var e := s.sh.clients[s.workers[w].work.fd];
             c' == s.sh.clients[s.workers[w].work.fd := e.(state := Xor(e.state, s.workers[w].done))]
    ensures CallsOk(c', s.conns, s.workers[w := Popping], place[s.workers[w].work.fd := Registered])
  {
    var fd, c := s.workers[w].work.fd, s.sh.clients;
    ElsewhereUpdate(c, place, fd, c'[fd], Registered);
    AfterRelease(c[fd], s.conns, s.workers, w);
    CallsFrame(c, place, c', place[fd := Registered], fd, s.conns, s.conns, s.workers, s.workers[w := Popping]);
  }

  /** What does not depend on where the clients are. */
  lemma ArmRest(p: Params, s: State, w: nat, c': Clients)
    requires w in s.workers && s.workers[w].Releasing? && s.lock.Free? && LockOk(s.lock, s.phase, s.workers)
    requires CountOk(s.sh.workQSize, s.sh.workload, s.workers) && SizeOk(p, s.sh.clients, s.phase)
    requires PoolOk(p, s.workers, s.nextWorker) && StopOk(s.phase, s.sh.workQSize, s.workers)
    requires SweepOk(s.sh.clients, s.phase) && s.workers[w].work.fd in s.sh.clients
    requires var e := s.sh.clients[s.workers[w].work.fd];
             c' == s.sh.clients[s.workers[w].work.fd := e.(state := Xor(e.state, s.workers[w].done))]
    requires |c'| == |s.sh.clients|
    ensures var m' := s.workers[w := Popping];
            && LockOk(s.lock, s.phase, m') && CountOk(s.sh.workQSize, s.sh.workload, m') && SizeOk(p, c', s.phase)
            && PoolOk(p, m', s.nextWorker) && StopOk(s.phase, s.sh.workQSize, m') && SweepOk(c', s.phase)
  {
    ServingSame(s.workers, w, Popping);
    SameWorkers(p, s.workers, w, Popping, s.nextWorker);
  }

  lemma ArmReady(p: Params, s: State, place: Places, w: nat)
    requires Inv(p, s, place) && w in s.workers && s.workers[w].Releasing?
    ensures var work := s.workers[w].work;
            && NodeAlive(s.sh.clients, work) && work.fd !in s.sh.interest && !s.phase.SweepErased?
            && work.fd in s.sh.kernel && s.sh.kernel[work.fd] == work.conn
  {
  }

  lemma ArmKeeps(p: Params, s: State, place: Places, w: nat)
    requires Inv(p, s, place) && s.lock.Free?
    requires w in s.workers && s.workers[w].Releasing? && !s.workers[w].done.isShut
    ensures var k := s.workers[w];
            Inv(p, SetWorker(s.(sh := Rearm(s.sh, k.work, k.done)), w, Popping), place[k.work.fd := Registered])
  {
    var k := s.workers[w];
    ArmReady(p, s, place, w);
    var fd, c := k.work.fd, s.sh.clients;
    var st := Xor(c[fd].state, k.done);
    var c' := c[fd := c[fd].(state := st)];
    StateWord(s.sh.kernel, c, s.phase, s.lock, fd, st);
    ElsewhereUpdate(c, place, fd, c[fd].(state := st), Registered);
    ArmPlaces(s, place, w, c');
    ArmRest(p, s, w, c');
    ArmCalls(s, place, w, c');
    RearmIs(s.sh, k.work, k.done);
  }

  lemma RearmIs(sh: Shared, work: Work, done: SockState)
    requires NodeAlive(sh.clients, work) && work.fd !in sh.interest
    requires work.fd in sh.kernel && sh.kernel[work.fd] == work.conn
    ensures var e := sh.clients[work.fd];
      Rearm(sh, work, done) ==
      sh.(clients := sh.clients[work.fd := e.(state := Xor(e.state, done))], interest := sh.interest[work.fd := true])
  {
  }

  lemma ErasePlaces(s: State, place: Places, w: nat)
    requires QueueOk(s.sh.clients, s.sh.workload, place) && HeldOk(s.sh.clients, s.workers, place)
    requires HandOk(s.phase, place) && InterestOk(s.sh.interest, place, s.phase)
    requires BatchOk(s.sh.clients, s.sh.interest, s.phase, s.batch)
    requires w in s.workers && s.workers[w].Releasing?
    ensures var work := s.workers[w].work;
            var c', pl', m' := s.sh.clients - {work.fd}, place - {work.fd}, s.workers[w := Erased(work)];
            && QueueOk(c', s.sh.workload, pl') && HeldOk(c', m', pl') && HandOk(s.phase, pl')
            && InterestOk(s.sh.interest, pl', s.phase)
            && BatchOk(c', s.sh.interest, s.phase, s.batch)
  {
    var fd, c := s.workers[w].work.fd, s.sh.clients;
    var c', pl' := c - {fd}, place - {fd};
    QueueFrame(c, place, c', pl', fd, s.sh.workload);
    HeldGive(c, place, c', pl', s.workers, w, Erased(s.workers[w].work));
    HandFrame(c, place, c', pl', fd, s.phase);
    InterestFrame(c, place, c', pl', fd, s.sh.interest, s.phase);
    BatchFrame(c, c', s.sh.interest, s.sh.interest, fd, s.phase, s.batch);
  }

  lemma EraseKeeps(p: Params, s: State, place: Places, w: nat)
    requires Inv(p, s, place) && s.lock.Free?
    requires w in s.workers && s.workers[w].Releasing?
    ensures var work := s.workers[w].work;
            Inv(p, SetWorker(s.(sh := EraseClient(s.sh, work), lock := Closing(work, Some(w))), w, Erased(work)),
                place - {work.fd})
  {
    var work := s.workers[w].work;
    var m' := s.workers[w := Erased(work)];
    ErasePlaces(s, place, w);
    EraseClientsOk(s.sh.kernel, s.sh.clients, s.phase, s.phase, work, Some(w));
    EraseCalls(s.sh.clients, s.conns, s.workers, m', place, work.fd);
    SmallerMap(s.sh.clients, work.fd);
    ServingSame(s.workers, w, Erased(work));
    SameWorkers(p, s.workers, w, Erased(work), s.nextWorker);
  }

  /** Closing an unlisted descriptor only removes it from the kernel and counts the close. */
  ghost function CloseState(s: State, work: Work): State
    requires work.conn < |s.conns|
  {
    s.(sh := s.sh.(kernel := s.sh.kernel - {work.fd}), conns := s.conns[work.conn := Closed(s.conns[work.conn])])
  }

  lemma CloseConnIs(s: State, place: Places, work: Work)
    requires ConnsOk(s.sh.kernel, s.conns) && InterestOk(s.sh.interest, place, s.phase)
    requires Unlisted(s.sh.kernel, s.sh.clients, work) && place.Keys == s.sh.clients.Keys && !s.sh.fault
    requires !s.phase.SweepErased?
    ensures work.conn < |s.conns| && CloseConn(s, work) == CloseState(s, work)
  {
    assert s.sh.interest - {work.fd} == s.sh.interest;
  }

  lemma CloseKeeps(p: Params, s: State, place: Places, w: nat)
    requires Inv(p, s, place)
    requires w in s.workers && s.workers[w].Erased?
    ensures Inv(p, SetWorker(CloseConn(s, s.workers[w].work).(lock := Free), w, Popping), place)
  {
    var work := s.workers[w].work;
    var m' := s.workers[w := Popping];
    CloseConnIs(s, place, work);
    var s' := SetWorker(CloseState(s, work).(lock := Free), w, Popping);
    assert ConnsOk(s'.sh.kernel, s'.conns) by { CloseConnsOk(s.sh.kernel, s.conns, work); }
    assert HistoriesOk(s'.conns) by { CloseHistories(s.conns, work.conn); }
    assert ClientsOk(s'.sh.kernel, s'.sh.clients) by { CloseClientsOk(s.sh.kernel, s.sh.clients, work.fd); }
    CloseTransit(s.sh.kernel, s.sh.clients, s.phase, s.phase, s.lock);
    assert CallsOk(s'.sh.clients, s'.conns, s'.workers, place) by {
      CloseCalls(s.sh.kernel, s.sh.clients, s.conns, s.workers, m', place, work);
    }
    assert HeldOk(s'.sh.clients, s'.workers, place) by { HeldIdle(s.sh.clients, s.workers, place, w, Popping); }
    ServingSame(s.workers, w, Popping);
    SameWorkers(p, s.workers, w, Popping, s.nextWorker);
    assert Inv(p, s', place);
  }

  lemma MoveKeeps(p: Params, s: State, a: Action, place: Places)
    requires Inv(p, s, place) && (a.Wake? || a.TimeOut? || a.CheckStop? || (a.Pop? && s.sh.workload == []))
    requires a.w in s.workers && WorkerStep(s, a, a.w).Some?
    ensures Inv(p, WorkerStep(s, a, a.w).value, place)
  {
    var w := a.w;
    var k := if a.Wake? then Popping else if a.CheckStop? && w !in s.stopping then Waiting
             else if a.CheckStop? then Stopped else Checking;
    IdleMove(p, s, place, w, k);
    assert WorkerStep(s, a, w).value == SetWorker(s, w, k);
  }

  lemma PopActs(p: Params, s: State, a: Action, place: Places)
    requires Inv(p, s, place) && a.Pop? && s.sh.workload != [] && a.w in s.workers && WorkerStep(s, a, a.w).Some?
    ensures Inv(p, WorkerStep(s, a, a.w).value, NextPlace(s, a, place))
  {
    assert WorkerStep(s, a, a.w).value == PopState(s, a.w);
    PopKeeps(p, s, a.w, place);
  }

  lemma ReleaseActs(p: Params, s: State, a: Action, place: Places)
    requires Inv(p, s, place) && (a.Decrement? || a.Arm?) && a.w in s.workers && WorkerStep(s, a, a.w).Some?
    ensures Inv(p, WorkerStep(s, a, a.w).value, NextPlace(s, a, place))
  {
    if a.Decrement? {
      DecrementKeeps(p, s, place, a.w);
    } else {
      ArmKeeps(p, s, place, a.w);
    }
  }

  lemma CloseActs(p: Params, s: State, a: Action, place: Places)
    requires Inv(p, s, place) && (a.Erase? || a.Close?) && a.w in s.workers && WorkerStep(s, a, a.w).Some?
    ensures Inv(p, WorkerStep(s, a, a.w).value, NextPlace(s, a, place))
  {
    if a.Erase? {
      EraseKeeps(p, s, place, a.w);
    } else {
      CloseKeeps(p, s, place, a.w);
    }
  }

  /** Every action of a worker keeps the invariant. */
  lemma WorkerKeeps(p: Params, s: State, a: Action, place: Places)
    requires Inv(p, s, place) && ByWorker(a) && a.w in s.workers && WorkerStep(s, a, a.w).Some?
    ensures Inv(p, WorkerStep(s, a, a.w).value, NextPlace(s, a, place))
  {
    if a.OnNew? || a.OnRead? || a.OnShut? {
      CallbackKeeps(p, s, a, place);
    } else if a.Pop? && s.sh.workload != [] {
      PopActs(p, s, a, place);
    } else if a.Decrement? || a.Arm? {
      ReleaseActs(p, s, a, place);
    } else if a.Erase? || a.Close? {
      CloseActs(p, s, a, place);
    } else {
      MoveKeeps(p, s, a, place);
    }
  }
}
