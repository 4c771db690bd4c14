/** What holds in every run of the listener protocol. */
module ListenerTheorems {
  import opened SockStates
  import opened Wrappers
  import opened ListenerShared
  import opened ListenerProtocol
  import opened ListenerInvariant
  import opened ListenerSteps
  import opened ListenerTurns

  lemma {:induction false} RunInv(p: Params, actions: seq<Action>) returns (place: Places)
    requires Run(p, actions).Some?
    ensures Inv(p, Run(p, actions).value, place)
  {
    if actions == [] {
      place := map[];
      InitInv(p);
    } else {
      var before := actions[..|actions| - 1];
      place := RunInv(p, before);
      StepKeeps(p, Run(p, before).value, actions[|actions| - 1], place);
      place := NextPlace(Run(p, before).value, actions[|actions| - 1], place);
    }
  }

  /** The last action of a longer run. */
  lemma RunLast(p: Params, actions: seq<Action>, more: seq<Action>)
    requires more != [] && Run(p, actions + more).Some?
    ensures var n := |more| - 1; var before := Run(p, actions + more[..n]);
            before.Some? && Run(p, actions + more) == Step(p, before.value, more[n])
  {
    var all := actions + more;
    assert all[..|all| - 1] == actions + more[..|more| - 1] && all[|all| - 1] == more[|more| - 1];
  }

  // ---- no stale references ----

  /** The connection `work` refers to is open, under the descriptor `work` has. */
  predicate Open(s: State, work: Work) {
    && work.conn < |s.conns| && s.conns[work.conn].fd == work.fd && s.conns[work.conn].closes == 0
    && work.fd in s.sh.kernel && s.sh.kernel[work.fd] == work.conn
  }

  /** No run follows a dangling pointer, creates a client entry by looking one up, closes a descriptor twice
      or makes an epoll_ctl call that fails. */
  lemma NoFault(p: Params, actions: seq<Action>)
    requires Run(p, actions).Some?
    ensures !Run(p, actions).value.sh.fault
  {
    var _ := RunInv(p, actions);
  }

  /** Although the system reuses descriptors, no queued item, no item in a worker's hands and no event received
      from epoll ever refers to a closed connection, or to a later one with the same descriptor. */
  lemma NoStaleReference(p: Params, actions: seq<Action>)
    requires Run(p, actions).Some?
    ensures var s := Run(p, actions).value;
            && (forall i :: 0 <= i < |s.sh.workload| ==> Open(s, s.sh.workload[i]))
            && (forall w :: w in s.workers && (Holds(s.workers[w]) || s.workers[w].Erased?) ==>
                  Open(s, s.workers[w].work))
            && (forall i :: 0 <= i < |s.batch| && s.batch[i].Ready? ==> Open(s, Work(s.batch[i].fd, s.batch[i].conn)))
  {
    var s := Run(p, actions).value;
    var place := RunInv(p, actions);
    forall i | 0 <= i < |s.batch| && s.batch[i].Ready? ensures Open(s, Work(s.batch[i].fd, s.batch[i].conn)) {
      assert EventOk(s.sh.clients, s.sh.interest, s.batch[i]);
    }
  }

  // ---- every open connection is in exactly one place ----

  datatype Spot = InListener | QueueSlot(i: nat) | AtWorker(w: nat) | InEpoll | InSweep

  /** The structure of the program through which `work` can be reached at `spot`. */
  ghost predicate IsAt(s: State, work: Work, spot: Spot) {
    match spot
    case InListener => (s.phase.Accepted? || s.phase.Admitted? || s.phase.Listed?) && s.phase.sock == work
    case QueueSlot(i) => i < |s.sh.workload| && s.sh.workload[i] == work
    case AtWorker(w) => w in s.workers && (Holds(s.workers[w]) || s.workers[w].Erased?) && s.workers[w].work == work
    case InEpoll => work.fd in s.sh.interest && NodeAlive(s.sh.clients, work)
    case InSweep => s.phase.SweepErased? && s.phase.sock == work
  }

  /** Where the invariant's witness puts an open descriptor. */
  lemma SomeSpot(p: Params, s: State, place: Places, fd: int) returns (spot: Spot)
    requires Inv(p, s, place) && fd in s.sh.kernel
    ensures IsAt(s, Work(fd, s.sh.kernel[fd]), spot)
  {
    if fd !in s.sh.clients {
      assert InTransit(s.phase, s.lock, fd);
      if s.lock.Closing? && s.lock.work.fd == fd {
        spot := if s.lock.owner.Some? then AtWorker(s.lock.owner.value) else InSweep;
      } else {
        spot := InListener;
      }
    } else if place[fd] == Queued {
      var i :| 0 <= i < |s.sh.workload| && s.sh.workload[i].fd == fd;
      assert NodeAlive(s.sh.clients, s.sh.workload[i]);
      spot := QueueSlot(i);
    } else {
      spot := if place[fd] == InHand then InListener
              else if place[fd] == Registered then InEpoll
              else AtWorker(place[fd].w);
    }
  }

  lemma SpotIsUnique(p: Params, s: State, place: Places, work: Work, x: Spot, y: Spot)
    requires Inv(p, s, place) && IsAt(s, work, x) && IsAt(s, work, y)
    ensures x == y
  {
    assert x.QueueSlot? ==> work.fd in place && place[work.fd] == Queued;
    assert y.QueueSlot? ==> work.fd in place && place[work.fd] == Queued;
    assert x.InEpoll? ==> work.fd in place && place[work.fd] == Registered;
    assert y.InEpoll? ==> work.fd in place && place[work.fd] == Registered;
  }

  /** Each open connection is reachable from exactly one place: the listener's hand, one slot of the queue, one
      worker, the epoll interest list or the final sweep. None is lost and none is in two places. */
  lemma ExactlyOnePlace(p: Params, actions: seq<Action>, fd: int)
    requires Run(p, actions).Some? && fd in Run(p, actions).value.sh.kernel
    ensures var s := Run(p, actions).value;
            exists spot :: IsAt(s, Work(fd, s.sh.kernel[fd]), spot) &&
              forall other :: IsAt(s, Work(fd, s.sh.kernel[fd]), other) ==> other == spot
  {
    var s := Run(p, actions).value;
    var work := Work(fd, s.sh.kernel[fd]);
    var place := RunInv(p, actions);
    var spot := SomeSpot(p, s, place, fd);
    forall other | IsAt(s, work, other) ensures other == spot {
      SpotIsUnique(p, s, place, work, other, spot);
    }
  }

  // ---- a worker's unlocked reads ----

  /** A worker's step changes no entry but that of the client it holds. */
  lemma WorkerTouches(s: State, a: Action, fd: int)
    requires ByWorker(a) && a.w in s.workers && WorkerStep(s, a, a.w).Some?
    requires fd in s.sh.clients && (Holds(s.workers[a.w]) ==> s.workers[a.w].work.fd != fd)
    ensures var c := WorkerStep(s, a, a.w).value.sh.clients; fd in c && c[fd] == s.sh.clients[fd]
  {
  }

  lemma WorkerSpares(s: State, a: Action, w: nat)
    requires ByWorker(a) && a.w != w && a.w in s.workers && WorkerStep(s, a, a.w).Some? && w in s.workers
    ensures var m := WorkerStep(s, a, a.w).value.workers; w in m && m[w] == s.workers[w]
  {
  }

  lemma OtherWorkerLeaves(p: Params, s: State, place: Places, a: Action, w: nat)
    requires Inv(p, s, place) && w in s.workers && Holds(s.workers[w])
    requires ByWorker(a) && a.w != w && a.w in s.workers && WorkerStep(s, a, a.w).Some?
    ensures var s' := WorkerStep(s, a, a.w).value;
            var fd := s.workers[w].work.fd;
            && fd in s.sh.clients && fd in s'.sh.clients && s'.sh.clients[fd] == s.sh.clients[fd]
            && w in s'.workers && s'.workers[w] == s.workers[w]
  {
    var fd := s.workers[w].work.fd;
    assert fd in s.sh.clients && (Holds(s.workers[a.w]) ==> s.workers[a.w].work.fd != fd);
    WorkerTouches(s, a, fd);
    WorkerSpares(s, a, w);
  }

  /** A step of the listener changes no entry but those of the event or the socket in its hand. */
  lemma ListenerTouches(p: Params, s: State, a: Action, fd: int)
    requires ListenerStep(p, s, a).Some?
    requires fd in s.sh.clients && !s.phase.Sweeping? && !s.phase.SweepErased?
    requires s.phase.Handling? && s.batch != [] && s.batch[0].Ready? ==> s.batch[0].fd != fd
    requires s.phase.Admitted? || s.phase.Listed? ==> s.phase.sock.fd != fd
    ensures var c := ListenerStep(p, s, a).value.sh.clients; fd in c && c[fd] == s.sh.clients[fd]
  {
    if a.Handle? {
      if s.batch[0].Ready? { PushTouches(s.sh, s.batch[0].fd, s.batch[0].flags, fd); }
    } else if a.PushNew? {
      PushTouches(s.sh, s.phase.sock.fd, NEW, fd);
    } else if a.Admit? {
      ShedShares(p, s, a);
    }
  }

  lemma PushTouches(sh: Shared, fd: int, flags: SockState, other: int)
    requires other in sh.clients && other != fd
    ensures var c := PushWork(sh, fd, flags).clients; other in c && c[other] == sh.clients[other]
  {
  }

  /** A server that has not stopped stays what it is while the listener takes a step. */
  lemma ListenerSpares(p: Params, s: State, a: Action, w: nat)
    requires ListenerStep(p, s, a).Some? && w in s.workers && !s.workers[w].Stopped? && w < s.nextWorker
    ensures var m := ListenerStep(p, s, a).value.workers; w in m && m[w] == s.workers[w]
  {
  }

  lemma ListenerLeaves(p: Params, s: State, place: Places, a: Action, w: nat)
    requires Inv(p, s, place) && w in s.workers && Holds(s.workers[w])
    requires ListenerStep(p, s, a).Some?
    ensures var s' := ListenerStep(p, s, a).value;
            var fd := s.workers[w].work.fd;
            && fd in s.sh.clients && fd in s'.sh.clients && s'.sh.clients[fd] == s.sh.clients[fd]
            && w in s'.workers && s'.workers[w] == s.workers[w]
  {
    var fd := s.workers[w].work.fd;
    HeldIsApart(p, s, place, w);
    ListenerTouches(p, s, a, fd);
    ListenerSpares(p, s, a, w);
  }

  /** What the listener has in hand is not what a worker holds. */
  lemma HeldIsApart(p: Params, s: State, place: Places, w: nat)
    requires Inv(p, s, place) && w in s.workers && Holds(s.workers[w])
    ensures var fd := s.workers[w].work.fd;
            && fd in s.sh.clients && !s.phase.Sweeping? && !s.phase.SweepErased? && w < s.nextWorker
            && (s.batch != [] && s.batch[0].Ready? ==> s.batch[0].fd != fd)
            && (s.phase.Admitted? || s.phase.Listed? ==> s.phase.sock.fd != fd)
  {
    var fd := s.workers[w].work.fd;
    assert fd in place && place[fd] == HeldBy(w);
    if s.batch != [] && s.batch[0].Ready? {
      assert EventOk(s.sh.clients, s.sh.interest, s.batch[0]);
    }
  }

  /** While a worker serves or releases a client it reads the client's entry without the mutex. No step of
      another thread changes or erases that entry. */
  lemma UnlockedReadsAreStable(p: Params, actions: seq<Action>, a: Action, w: nat)
    requires Run(p, actions + [a]).Some? && !(ByWorker(a) && a.w == w)
    requires Run(p, actions).Some?
    requires var s := Run(p, actions).value; w in s.workers && Holds(s.workers[w])
    ensures var s, s' := Run(p, actions).value, Run(p, actions + [a]).value;
            var fd := s.workers[w].work.fd;
            && fd in s.sh.clients && fd in s'.sh.clients && s'.sh.clients[fd] == s.sh.clients[fd]
            && w in s'.workers && s'.workers[w] == s.workers[w]
  {
    var s := Run(p, actions).value;
    assert (actions + [a])[..|actions|] == actions;
    var place := RunInv(p, actions);
    if a.Stop? {
      assert s.workers[w].work.fd in place;
    } else if ByWorker(a) {
      OtherWorkerLeaves(p, s, place, a, w);
    } else {
      ListenerLeaves(p, s, place, a, w);
    }
  }

  // ---- what a worker leaves behind ----

  lemma WorkerKeepsFds(s: State, a: Action)
    requires ByWorker(a) && a.w in s.workers && WorkerStep(s, a, a.w).Some?
    ensures var s' := WorkerStep(s, a, a.w).value;
            |s'.conns| == |s.conns| && forall c :: 0 <= c < |s.conns| ==> s'.conns[c].fd == s.conns[c].fd
  {
  }

  lemma ListenerKeepsFds(p: Params, s: State, a: Action, c: nat)
    requires ListenerStep(p, s, a).Some? && c < |s.conns|
    ensures var s' := ListenerStep(p, s, a).value; c < |s'.conns| && s'.conns[c].fd == s.conns[c].fd
  {
  }

  lemma StepKeepsFds(p: Params, s: State, a: Action, c: nat)
    requires Step(p, s, a).Some? && c < |s.conns|
    ensures var s' := Step(p, s, a).value; c < |s'.conns| && s'.conns[c].fd == s.conns[c].fd
  {
    if a.Stop? {
    } else if ByWorker(a) {
      WorkerKeepsFds(s, a);
    } else {
      ListenerKeepsFds(p, s, a, c);
    }
  }

  /** A connection keeps its number and its descriptor. */
  lemma {:induction false} ConnStays(p: Params, actions: seq<Action>, more: seq<Action>, c: nat)
    requires Run(p, actions).Some? && Run(p, actions + more).Some? && c < |Run(p, actions).value.conns|
    ensures c < |Run(p, actions + more).value.conns|
    ensures Run(p, actions + more).value.conns[c].fd == Run(p, actions).value.conns[c].fd
    decreases |more|
  {
    if more == [] {
      assert actions + more == actions;
    } else {
      var n := |more| - 1;
      RunLast(p, actions, more);
      ConnStays(p, actions, more[..n], c);
      StepKeepsFds(p, Run(p, actions + more[..n]).value, more[n], c);
    }
  }

  /** An accepted connection is closed, or it is at one spot. */
  lemma ClosedOrSomewhere(p: Params, actions: seq<Action>, c: nat) returns (spot: Option<Spot>)
    requires Run(p, actions).Some? && c < |Run(p, actions).value.conns|
    ensures var s := Run(p, actions).value;
            var work := Work(s.conns[c].fd, c);
            if spot.None? then s.conns[c].closes == 1
            else s.conns[c].closes == 0 && IsAt(s, work, spot.value) &&
                 forall other :: IsAt(s, work, other) ==> other == spot.value
  {
    var s := Run(p, actions).value;
    var place := RunInv(p, actions);
    var work := Work(s.conns[c].fd, c);
    if s.conns[c].closes == 0 {
      assert work.fd in s.sh.kernel && s.sh.kernel[work.fd] == c;
      var at := SomeSpot(p, s, place, work.fd);
      forall other | IsAt(s, work, other) ensures other == at {
        SpotIsUnique(p, s, place, work, other, at);
      }
      spot := Some(at);
    } else {
      spot := None;
    }
  }

  /** A worker that has stopped, or is gone, has lost nothing: every connection it ever held is closed by now, or it is
      at exactly one spot, which is not that worker. */
  lemma StoppedWorkerLosesNothing(p: Params, actions: seq<Action>, more: seq<Action>, w: nat)
    returns (spot: Option<Spot>)
    requires Run(p, actions).Some? && Run(p, actions + more).Some?
    requires var s := Run(p, actions).value; w in s.workers && Holds(s.workers[w])
    requires var s' := Run(p, actions + more).value; w in s'.workers ==> s'.workers[w].Stopped?
    ensures var s' := Run(p, actions + more).value;
            var work := Run(p, actions).value.workers[w].work;
            && work.conn < |s'.conns|
            && if spot.None? then s'.conns[work.conn].closes == 1
               else spot.value != AtWorker(w) && IsAt(s', work, spot.value) &&
                    forall other :: IsAt(s', work, other) ==> other == spot.value
  {
    var work := Run(p, actions).value.workers[w].work;
    HeldIsOpen(p, actions, w);
    ConnStays(p, actions, more, work.conn);
    spot := ClosedOrSomewhere(p, actions + more, work.conn);
  }

  lemma HeldIsOpen(p: Params, actions: seq<Action>, w: nat)
    requires Run(p, actions).Some?
    requires var s := Run(p, actions).value; w in s.workers && Holds(s.workers[w])
    ensures var s := Run(p, actions).value; Open(s, s.workers[w].work)
  {
    NoStaleReference(p, actions);
  }

  // ---- callbacks ----

  /** Whatever its callbacks throw, the first one called on a connection is handShake; and if none of them throws,
      the calls are a prefix of handShake, readSocket*, shutDown. */
  lemma CallbackOrder(p: Params, actions: seq<Action>, c: nat)
    requires Run(p, actions).Some? && c < |Run(p, actions).value.conns|
    ensures var conn := Run(p, actions).value.conns[c];
            && (conn.calls != [] ==> conn.calls[0] == HandShake)
            && (!conn.threw ==> InOrder(conn.calls))
  {
    var _ := RunInv(p, actions);
    assert HistoryOk(Run(p, actions).value.conns[c]);
  }

  lemma WorkerHistories(s: State, a: Action, c: nat)
    requires ByWorker(a) && a.w in s.workers && WorkerStep(s, a, a.w).Some? && c < |s.conns|
    requires Holds(s.workers[a.w]) || s.workers[a.w].Erased? ==> s.workers[a.w].work.conn != c
    ensures var s' := WorkerStep(s, a, a.w).value; |s'.conns| == |s.conns| && s'.conns[c] == s.conns[c]
  {
  }

  lemma ListenerHistories(p: Params, s: State, a: Action, c: nat)
    requires ListenerStep(p, s, a).Some? && c < |s.conns|
    requires s.phase.Accepted? || s.phase.SweepErased? ==> s.phase.sock.conn != c
    ensures var s' := ListenerStep(p, s, a).value; |s'.conns| >= |s.conns| && s'.conns[c] == s.conns[c]
  {
  }

  /** What a worker holds is open, so it is no closed connection. */
  lemma HeldIsNotClosed(p: Params, s: State, place: Places, w: nat, c: nat)
    requires Inv(p, s, place) && w in s.workers && c < |s.conns| && s.conns[c].closes == 1
    ensures Holds(s.workers[w]) || s.workers[w].Erased? ==> s.workers[w].work.conn != c
  {
    if Holds(s.workers[w]) || s.workers[w].Erased? {
      var work := s.workers[w].work;
      assert work.fd in s.sh.kernel && s.sh.kernel[work.fd] == work.conn;
    }
  }

  lemma TransitIsNotClosed(p: Params, s: State, place: Places, c: nat)
    requires Inv(p, s, place) && c < |s.conns| && s.conns[c].closes == 1
    ensures s.phase.Accepted? || s.phase.SweepErased? ==> s.phase.sock.conn != c
  {
  }

  lemma ClosedStays(p: Params, s: State, place: Places, a: Action, c: nat)
    requires Inv(p, s, place) && Step(p, s, a).Some? && c < |s.conns| && s.conns[c].closes == 1
    ensures var s' := Step(p, s, a).value; c < |s'.conns| && s'.conns[c] == s.conns[c]
  {
    if ByWorker(a) {
      HeldIsNotClosed(p, s, place, a.w, c);
      WorkerHistories(s, a, c);
    } else if !a.Stop? {
      TransitIsNotClosed(p, s, place, c);
      ListenerHistories(p, s, a, c);
    }
  }

  /** Nothing is called on a connection after it was closed, and it is not closed again. */
  lemma {:induction false} ClosedIsFinal(p: Params, actions: seq<Action>, more: seq<Action>, c: nat)
    requires Run(p, actions).Some? && Run(p, actions + more).Some?
    requires c < |Run(p, actions).value.conns| && Run(p, actions).value.conns[c].closes == 1
    ensures c < |Run(p, actions + more).value.conns|
    ensures Run(p, actions + more).value.conns[c] == Run(p, actions).value.conns[c]
  {
    if more == [] {
      assert actions + more == actions;
    } else {
      var n := |more| - 1;
      RunLast(p, actions, more);
      ClosedIsFinal(p, actions, more[..n], c);
      var place := RunInv(p, actions + more[..n]);
      ClosedStays(p, Run(p, actions + more[..n]).value, place, more[n], c);
    }
  }

  lemma ArmClears(p: Params, s: State, place: Places, w: nat)
    requires Inv(p, s, place) && w in s.workers && WorkerStep(s, Arm(w), w).Some?
    ensures var s' := WorkerStep(s, Arm(w), w).value;
            && Holds(s.workers[w])
            && var fd := s.workers[w].work.fd;
               && fd in s.sh.clients && fd in s'.sh.clients
               && Within(s'.sh.clients[fd].state, s.sh.clients[fd].state)
               && Or(s'.sh.clients[fd].state, s.workers[w].done) == s.sh.clients[fd].state
  {
    var k := s.workers[w];
    var fd := k.work.fd;
    assert CallOk(s.sh.clients[fd], HeldBy(w), s.conns, s.workers);
    XorOnlyClears(s.sh.clients[fd].state, k.done);
  }

  /** releaseWork's ^= clears flags and never sets one. */
  lemma ReleaseOnlyClears(p: Params, actions: seq<Action>, w: nat)
    requires Run(p, actions).Some? && Run(p, actions + [Arm(w)]).Some?
    ensures var s, s' := Run(p, actions).value, Run(p, actions + [Arm(w)]).value;
            && w in s.workers && Holds(s.workers[w])
            && var fd := s.workers[w].work.fd;
               && fd in s.sh.clients && fd in s'.sh.clients
               && Within(s'.sh.clients[fd].state, s.sh.clients[fd].state)
               && Or(s'.sh.clients[fd].state, s.workers[w].done) == s.sh.clients[fd].state
  {
    assert actions + [Arm(w)][..0] == actions;
    RunLast(p, actions, [Arm(w)]);
    var place := RunInv(p, actions);
    ArmClears(p, Run(p, actions).value, place, w);
  }

  // ---- counters, bounds, the end ----

  /** work_q_sz_ is the number of queued items plus the number of items popped whose release has not begun, so it
      is never negative, and it is at least one whenever a worker is about to decrement it. */
  lemma CounterIsExact(p: Params, actions: seq<Action>)
    requires Run(p, actions).Some?
    ensures var s := Run(p, actions).value;
            && s.sh.workQSize == |s.sh.workload| + |ServingSet(s.workers)| >= 0
            && forall w :: w in s.workers && s.workers[w].Serving? ==> s.sh.workQSize >= 1
  {
    var s := Run(p, actions).value;
    var _ := RunInv(p, actions);
    forall w | w in s.workers && s.workers[w].Serving? ensures s.sh.workQSize >= 1 {
      assert w in ServingSet(s.workers);
    }
  }

  /** The client map respects maxconnections although its size is tested outside the mutex, and the pool never
      outgrows the larger of one, minservers and maxservers. */
  lemma BoundsHold(p: Params, actions: seq<Action>)
    requires Run(p, actions).Some?
    ensures |Run(p, actions).value.sh.clients| <= p.maxConnections
    ensures |Run(p, actions).value.workers| <= PoolBound(p)
  {
    var _ := RunInv(p, actions);
  }

  /** When the listener has finished, nothing is queued, registered or listed, no descriptor is open and every
      connection ever accepted was closed exactly once. */
  lemma ShutdownIsClean(p: Params, actions: seq<Action>)
    requires Run(p, actions).Some? && Run(p, actions).value.phase.Finished?
    ensures var s := Run(p, actions).value;
            && s.sh.clients == map[] && s.sh.workload == [] && s.sh.interest == map[] && s.sh.kernel == map[]
            && s.workers == map[]
            && forall c :: 0 <= c < |s.conns| ==> s.conns[c].closes == 1
  {
    var s := Run(p, actions).value;
    var place := RunInv(p, actions);
    assert forall fd :: fd !in s.sh.kernel;
    assert s.sh.kernel.Keys == {};
    assert forall fd :: fd !in s.sh.interest;
    assert s.sh.interest.Keys == {};
  }

  // ---- no connection goes deaf ----

  /** While the listener is in its loop, a registered client is armed or its event is waiting to be handled. */
  ghost predicate Audible(s: State) {
    !Winding(s.phase) ==>
      forall fd :: fd in s.sh.interest ==>
        s.sh.interest[fd] || exists i :: 0 <= i < |s.batch| && s.batch[i].Ready? && s.batch[i].fd == fd
  }

  /** A worker's step disarms nothing. */
  lemma WorkerInterest(s: State, a: Action)
    requires ByWorker(a) && a.w in s.workers && WorkerStep(s, a, a.w).Some?
    ensures var s' := WorkerStep(s, a, a.w).value;
            && s'.batch == s.batch && s'.phase == s.phase
            && forall fd :: fd in s'.sh.interest ==> s'.sh.interest[fd] || (fd in s.sh.interest && !s.sh.interest[fd])
  {
  }

  lemma WorkerAudible(s: State, a: Action)
    requires Audible(s) && ByWorker(a) && a.w in s.workers && WorkerStep(s, a, a.w).Some?
    ensures Audible(WorkerStep(s, a, a.w).value)
  {
    WorkerInterest(s, a);
  }

  lemma DeliverAudible(p: Params, s: State, a: Action)
    requires Audible(s) && a.Deliver? && ListenerStep(p, s, a).Some?
    ensures Audible(ListenerStep(p, s, a).value)
  {
    var s' := ListenerStep(p, s, a).value;
    assert s'.batch[|s.batch|].Ready? && s'.batch[|s.batch|].fd == a.fd;
    assert forall i :: 0 <= i < |s.batch| ==> s'.batch[i] == s.batch[i];
  }

  lemma HandleAudible(p: Params, s: State, a: Action)
    requires Audible(s) && a.Handle? && ListenerStep(p, s, a).Some? && s.batch != []
    requires EventOk(s.sh.clients, s.sh.interest, s.batch[0])
    ensures Audible(ListenerStep(p, s, a).value)
  {
    var s' := ListenerStep(p, s, a).value;
    assert s'.batch == s.batch[1..];
    forall fd | fd in s'.sh.interest
      ensures s'.sh.interest[fd] || exists i :: 0 <= i < |s'.batch| && s'.batch[i].Ready? && s'.batch[i].fd == fd
    {
      assert fd in s.sh.interest && s'.sh.interest[fd] == s.sh.interest[fd];
      assert s.batch[0].Ready? ==> s.batch[0].fd != fd;
      if !s'.sh.interest[fd] {
        var i :| 0 <= i < |s.batch| && s.batch[i].Ready? && s.batch[i].fd == fd;
        assert s'.batch[i - 1] == s.batch[i];
      }
    }
  }

  /** Any other step of the listener's loop removes no event. */
  lemma OtherBatch(p: Params, s: State, a: Action)
    requires ListenerStep(p, s, a).Some? && !a.Deliver? && !a.Handle?
    ensures var s' := ListenerStep(p, s, a).value;
            !Winding(s'.phase) ==> !Winding(s.phase) && |s'.batch| >= |s.batch| && s'.batch[..|s.batch|] == s.batch
  {
  }

  /** Closing a connection registers and disarms nothing. */
  lemma CloseInterest(s: State, work: Work, fd: int)
    requires fd in CloseConn(s, work).sh.interest
    ensures fd in s.sh.interest && CloseConn(s, work).sh.interest[fd] == s.sh.interest[fd]
  {
  }

  lemma SameInterest(p: Params, s: State, a: Action)
    requires ListenerStep(p, s, a).Some? && !a.Deliver? && !a.Handle? && !a.Admit? && !a.SweepClose?
    ensures ListenerStep(p, s, a).value.sh.interest == s.sh.interest
  {
    match a
    case PushNew =>
    case List =>
    case SweepErase =>
    case Reap(_) =>
    case _ =>
  }

  /** Admit and SweepClose close the socket they hold, or leave everything shared as it was. */
  lemma ShedShares(p: Params, s: State, a: Action)
    requires ListenerStep(p, s, a).Some? && (a.Admit? || a.SweepClose?)
    ensures s.phase.Accepted? || s.phase.SweepErased?
    ensures var closes := a.SweepClose? || |s.sh.clients| >= p.maxConnections;
            ListenerStep(p, s, a).value.sh == if closes then CloseConn(s, s.phase.sock).sh else s.sh
  {
  }

  /** And it registers and disarms nothing. */
  lemma OtherInterest(p: Params, s: State, a: Action, fd: int)
    requires ListenerStep(p, s, a).Some? && !a.Deliver? && !a.Handle?
    requires fd in ListenerStep(p, s, a).value.sh.interest
    ensures fd in s.sh.interest && ListenerStep(p, s, a).value.sh.interest[fd] == s.sh.interest[fd]
  {
    if a.Admit? || a.SweepClose? {
      ShedShares(p, s, a);
      if fd in CloseConn(s, s.phase.sock).sh.interest { CloseInterest(s, s.phase.sock, fd); }
    } else {
      SameInterest(p, s, a);
    }
  }

  lemma OtherAudible(p: Params, s: State, a: Action)
    requires Audible(s) && ListenerStep(p, s, a).Some? && !a.Deliver? && !a.Handle?
    ensures Audible(ListenerStep(p, s, a).value)
  {
    var s' := ListenerStep(p, s, a).value;
    OtherBatch(p, s, a);
    if !Winding(s'.phase) {
      forall fd | fd in s'.sh.interest
        ensures s'.sh.interest[fd] || exists i :: 0 <= i < |s'.batch| && s'.batch[i].Ready? && s'.batch[i].fd == fd
      {
        OtherInterest(p, s, a, fd);
        if !s'.sh.interest[fd] {
          var i :| 0 <= i < |s.batch| && s.batch[i].Ready? && s.batch[i].fd == fd;
          assert s'.batch[..|s.batch|][i] == s.batch[i];
        }
      }
    }
  }

  lemma ListenerAudible(p: Params, s: State, place: Places, a: Action)
    requires Inv(p, s, place) && Audible(s) && ListenerStep(p, s, a).Some?
    ensures Audible(ListenerStep(p, s, a).value)
  {
    if a.Deliver? {
      DeliverAudible(p, s, a);
    } else if a.Handle? {
      assert EventOk(s.sh.clients, s.sh.interest, s.batch[0]);
      HandleAudible(p, s, a);
    } else {
      OtherAudible(p, s, a);
    }
  }

  /** No connection that waits in epoll is deaf: as long as the listener loops, its one-shot registration is armed or
      the event that disarmed it is still to be handled. */
  lemma {:induction false} NoDeafConnection(p: Params, actions: seq<Action>)
    requires Run(p, actions).Some?
    ensures Audible(Run(p, actions).value)
  {
    if actions != [] {
      var before, a := actions[..|actions| - 1], actions[|actions| - 1];
      NoDeafConnection(p, before);
      var s := Run(p, before).value;
      var place := RunInv(p, before);
      if a.Stop? {
        assert Step(p, s, a).value.batch == s.batch;
      } else if ByWorker(a) {
        WorkerAudible(s, a);
      } else {
        ListenerAudible(p, s, place, a);
      }
    }
  }
}
