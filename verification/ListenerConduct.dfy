/** When the listener stops, refuses a connection or changes its pool, and what wakes its workers. */
module ListenerConduct {
  import opened SockStates
  import opened Wrappers
  import opened ListenerShared
  import opened ListenerProtocol
  import opened ListenerInvariant
  import opened ListenerTheorems

  lemma RunThen(p: Params, actions: seq<Action>, a: Action)
    requires Run(p, actions).Some?
    ensures Run(p, actions + [a]) == Step(p, Run(p, actions).value, a)
  {
    assert (actions + [a])[..|actions|] == actions;
  }

  // ---- stopping ----

  predicate AsksToStop(a: Action) { a.Stop? || a.Raise? }

  /** A worker's step is none of the listener's business. */
  lemma WorkerStays(s: State, a: Action)
    requires ByWorker(a) && a.w in s.workers && WorkerStep(s, a, a.w).Some?
    ensures var s' := WorkerStep(s, a, a.w).value;
            && s'.phase == s.phase && s'.stopServer == s.stopServer && s'.stopping == s.stopping
            && s'.nextWorker == s.nextWorker
  {
  }

  lemma ListenerWinds(p: Params, s: State, a: Action)
    requires ListenerStep(p, s, a).Some? && !a.Raise?
    ensures var s' := ListenerStep(p, s, a).value;
            s'.stopServer == s.stopServer && (Winding(s'.phase) ==> Winding(s.phase) || s.stopServer)
  {
  }

  lemma WindsOnlyOnRequest(p: Params, s: State, a: Action)
    requires Step(p, s, a).Some? && !AsksToStop(a)
    ensures var s' := Step(p, s, a).value;
            s'.stopServer == s.stopServer && (Winding(s'.phase) ==> Winding(s.phase) || s.stopServer)
  {
    if ByWorker(a) {
      WorkerStays(s, a);
    } else {
      ListenerWinds(p, s, a);
    }
  }

  /** The listener leaves its loop only after stop was called, or an exception came out of epoll_wait or accept. */
  lemma {:induction false} StopsOnlyWhenAsked(p: Params, actions: seq<Action>)
    requires Run(p, actions).Some?
    ensures var s := Run(p, actions).value;
            s.stopServer || Winding(s.phase) ==> exists i :: 0 <= i < |actions| && AsksToStop(actions[i])
  {
    if actions != [] {
      var before, a := actions[..|actions| - 1], actions[|actions| - 1];
      StopsOnlyWhenAsked(p, before);
      if AsksToStop(a) {
        assert AsksToStop(actions[|actions| - 1]);
      } else {
        WindsOnlyOnRequest(p, Run(p, before).value, a);
        assert forall i :: 0 <= i < |before| ==> before[i] == actions[i];
      }
    }
  }

  /** A request to stop is seen at the end of a round of the loop, and without one the next round begins. */
  lemma LoopGoesOn(p: Params, actions: seq<Action>)
    requires Run(p, actions).Some?
    requires Run(p, actions).value.phase.Handling? && Run(p, actions).value.batch == []
    ensures var s, next := Run(p, actions).value, Run(p, actions + [EndLoop]);
            next.Some? && if s.stopServer then next.value.phase == Draining else next.value == s.(phase := Polling)
  {
    RunThen(p, actions, EndLoop);
  }

  // ---- refusing ----

  /** An accepted connection is closed at once exactly when maxconnections are listed, and is then never called. */
  lemma RefusesExactlyWhenFull(p: Params, actions: seq<Action>, more: bool)
    requires Run(p, actions).Some? && Run(p, actions).value.phase.Accepted?
    ensures var s, next := Run(p, actions).value, Run(p, actions + [Admit(more)]);
            var c := s.phase.sock.conn;
            && next.Some? && c < |next.value.conns| && next.value.conns[c].calls == []
            && if |s.sh.clients| < p.maxConnections
               then next.value.phase == Admitted(s.phase.sock) && next.value.conns[c].closes == 0
               else && |s.sh.clients| == p.maxConnections && next.value.conns[c].closes == 1
                    && next.value.phase == if more then Accepting else Handling
  {
    RunThen(p, actions, Admit(more));
    var place := RunInv(p, actions);
    AcceptedIsFresh(p, Run(p, actions).value, place);
    AdmitIs(p, Run(p, actions).value, more);
  }

  lemma AcceptedIsFresh(p: Params, s: State, place: Places)
    requires Inv(p, s, place) && s.phase.Accepted?
    ensures var c := s.phase.sock.conn;
            && c < |s.conns| && s.conns[c].calls == [] && s.conns[c].closes == 0
            && |s.sh.clients| <= p.maxConnections
  {
  }

  lemma AdmitIs(p: Params, s: State, more: bool)
    requires s.phase.Accepted? && s.phase.sock.conn < |s.conns| && s.conns[s.phase.sock.conn].closes == 0
    ensures var next, c := Step(p, s, Admit(more)), s.phase.sock.conn;
            && next.Some? && |next.value.conns| == |s.conns| && next.value.conns[c].calls == s.conns[c].calls
            && if |s.sh.clients| < p.maxConnections
               then next.value.phase == Admitted(s.phase.sock) && next.value.conns[c].closes == 0
               else next.value.conns[c].closes == 1 && next.value.phase == if more then Accepting else Handling
  {
  }

  // ---- the pool ----

  /** A server is added only while there are fewer than minservers, or between polls when more work is waiting than
      there are servers and they are fewer than maxservers, or in place of the first one. */
  lemma GrowsOnlyUnderLoad(p: Params, actions: seq<Action>, a: Action)
    requires Run(p, actions).Some? && Run(p, actions + [a]).Some?
    requires Run(p, actions + [a]).value.nextWorker != Run(p, actions).value.nextWorker
    ensures var s, s' := Run(p, actions).value, Run(p, actions + [a]).value;
            && s'.nextWorker == s.nextWorker + 1 && HasWorker(s', s.nextWorker, Waiting)
            && (|| (s.phase.Starting? && |s.workers| < p.minServers)
                || (s.phase.Polling? && s.batch == [] && |s.workers| < s.sh.workQSize && |s.workers| < p.maxServers)
                || (HasWorker(s, s.initWorker, Stopped) && s'.initWorker == s.nextWorker))
  {
    RunThen(p, actions, a);
    var s := Run(p, actions).value;
    if ByWorker(a) {
      WorkerStays(s, a);
    } else if !a.Stop? {
      ListenerGrows(p, s, a);
    }
  }

  lemma ListenerGrows(p: Params, s: State, a: Action)
    requires ListenerStep(p, s, a).Some? && ListenerStep(p, s, a).value.nextWorker != s.nextWorker
    ensures var s' := ListenerStep(p, s, a).value;
            && s'.nextWorker == s.nextWorker + 1 && HasWorker(s', s.nextWorker, Waiting)
            && (|| (s.phase.Starting? && |s.workers| < p.minServers)
                || (s.phase.Polling? && s.batch == [] && |s.workers| < s.sh.workQSize && |s.workers| < p.maxServers)
                || (HasWorker(s, s.initWorker, Stopped) && s'.initWorker == s.nextWorker))
  {
  }

  /** And then it can be. */
  lemma GrowsUnderLoad(p: Params, actions: seq<Action>)
    requires Run(p, actions).Some?
    ensures var s := Run(p, actions).value;
            Run(p, actions + [AddServer]).Some? <==>
              s.phase.Polling? && s.batch == [] && |s.workers| < s.sh.workQSize && |s.workers| < p.maxServers
  {
    RunThen(p, actions, AddServer);
  }

  /** A server is asked to stop only while there are more than minservers and it is not the first one, or when the
      listener is leaving and the queue is empty. */
  lemma ShrinksOnlyAboveMinimum(p: Params, actions: seq<Action>, a: Action, w: nat)
    requires Run(p, actions).Some? && Run(p, actions + [a]).Some?
    requires w !in Run(p, actions).value.stopping && w in Run(p, actions + [a]).value.stopping
    ensures var s := Run(p, actions).value;
            && w in s.workers
            && (|| (s.phase.Handling? && |s.workers| > p.minServers && w != s.initWorker)
                || (s.phase.Draining? && s.sh.workQSize == 0))
  {
    RunThen(p, actions, a);
    var s := Run(p, actions).value;
    if ByWorker(a) {
      WorkerStays(s, a);
    } else if !a.Stop? {
      ListenerAsks(p, s, a, w);
    }
  }

  lemma ListenerAsks(p: Params, s: State, a: Action, w: nat)
    requires ListenerStep(p, s, a).Some? && w !in s.stopping && w in ListenerStep(p, s, a).value.stopping
    ensures && w in s.workers
            && (|| (s.phase.Handling? && |s.workers| > p.minServers && w != s.initWorker)
                || (s.phase.Draining? && s.sh.workQSize == 0))
  {
  }

  lemma ShrinksAboveMinimum(p: Params, actions: seq<Action>, w: nat)
    requires Run(p, actions).Some?
    requires var s := Run(p, actions).value; s.phase.Handling? && s.batch == [] && w in s.workers
    ensures var s, next := Run(p, actions).value, Run(p, actions + [Retire(w)]);
            && (next.Some? <==> |s.workers| > p.minServers && w != s.initWorker)
            && (next.Some? ==> w in next.value.stopping)
  {
    RunThen(p, actions, Retire(w));
    RetireIs(p, Run(p, actions).value, w);
  }

  lemma RetireIs(p: Params, s: State, w: nat)
    requires s.phase.Handling? && s.batch == [] && w in s.workers
    ensures Step(p, s, Retire(w)) ==
            if |s.workers| > p.minServers && w != s.initWorker then Some(s.(stopping := s.stopping + {w})) else None
  {
  }

  // ---- waiting ----

  /** No wake-up is lost: a waiting server goes for work exactly when there is some or it was asked to stop, and
      otherwise it comes round to look whether it was asked. */
  lemma NoLostWakeUp(p: Params, actions: seq<Action>, w: nat)
    requires Run(p, actions).Some? && HasWorker(Run(p, actions).value, w, Waiting)
    ensures var s := Run(p, actions).value;
            && (Run(p, actions + [Wake(w)]).Some? <==> s.sh.workQSize != 0 || w in s.stopping)
            && (Run(p, actions + [TimeOut(w)]).Some? <==> s.sh.workQSize == 0 && w !in s.stopping)
  {
    RunThen(p, actions, Wake(w));
    RunThen(p, actions, TimeOut(w));
  }

  /** Data, a hang-up or both may be reported for any armed registration. */
  lemma AnyEventMayCome(p: Params, actions: seq<Action>, fd: int, flags: SockState)
    requires Run(p, actions).Some?
    requires var s := Run(p, actions).value;
             s.phase.Polling? && |s.batch| < p.pollBatch && fd in s.sh.interest && s.sh.interest[fd]
    ensures var s, next := Run(p, actions).value, Run(p, actions + [Deliver(fd, flags)]);
            && (next.Some? <==> flags == READ || flags == SHUT || flags == Or(READ, SHUT))
            && (next.Some? ==> fd in s.sh.kernel && next.value.batch == s.batch + [Ready(fd, s.sh.kernel[fd], flags)])
  {
    RunThen(p, actions, Deliver(fd, flags));
    var place := RunInv(p, actions);
    assert fd in place;
  }

  /** As long as the batch has room, new connections may be reported; and epoll_wait and accept, but nothing else of the
      loop, may throw, which drops the events not yet handled. */
  lemma AnythingMayCome(p: Params, actions: seq<Action>)
    requires Run(p, actions).Some?
    ensures var s, incoming, raised := Run(p, actions).value, Run(p, actions + [DeliverIncoming]),
                                       Run(p, actions + [Raise]);
            && (incoming.Some? <==> s.phase.Polling? && |s.batch| < p.pollBatch)
            && (incoming.Some? ==> incoming.value.batch == s.batch + [Incoming])
            && (raised.Some? <==> s.phase.Polling? || s.phase.Accepting?)
            && (raised.Some? ==> raised.value == s.(phase := Draining, batch := []))
  {
    RunThen(p, actions, DeliverIncoming);
    RunThen(p, actions, Raise);
  }
}
