/** A run in which the operating system gives the descriptor of a closed connection to the next one. */
module ListenerReuse {
  import opened SockStates
  import opened Wrappers
  import opened ListenerShared
  import opened ListenerProtocol

  /** A set of states that holds the first one and is closed under the steps of the protocol. */
  ghost predicate Closed(p: Params, r: State -> bool) {
    && r(Init())
    && forall s: State, a: Action {:trigger Step(p, s, a)} :: r(s) && Step(p, s, a).Some? ==> r(Step(p, s, a).value)
  }

  lemma Then(p: Params, r: State -> bool, s: State, a: Action, s': State)
    requires Closed(p, r) && r(s) && Step(p, s, a) == Some(s')
    ensures r(s')
  {
  }

  /** n servers, all waiting. */
  function Crew(n: nat): (crew: map<nat, Worker>)
    ensures |crew| == n && forall w :: w in crew ==> w < n && crew[w] == Waiting
    ensures n > 0 ==> 0 in crew
  {
    if n == 0 then map[] else Crew(n - 1)[n - 1 := Waiting]
  }

  /** A state with n servers, of which only the first does anything, and nothing registered in epoll. */
  function Scene(n: nat, clients: map<int, Entry>, workload: seq<Work>, size: int, kernel: map<int, nat>,
                 phase: Phase, batch: seq<Event>, worker: Worker, conns: seq<Conn>): State {
    State(Shared(clients, workload, size, kernel, map[], false), Free, phase, batch,
          Crew(n)[0 := worker], {}, 0, n, false, conns)
  }

  // --- The listener comes to accept, and takes a connection

  function Idle(n: nat, phase: Phase, batch: seq<Event>): State {
    Scene(n, map[], [], 0, map[], phase, batch, Waiting, [])
  }

  /** The start, with k of the servers running. */
  function Begun(k: nat): State { Init().(workers := Crew(k), nextWorker := k) }

  lemma StartStep(p: Params, k: nat)
    requires 1 <= k < p.minServers
    ensures ListenerStep(p, Begun(k), Start) == Some(Begun(k + 1))
  {
    assert Crew(k + 1) == Crew(k)[k := Waiting];
  }

  lemma Begins(p: Params, r: State -> bool)
    requires Closed(p, r)
    ensures r(Begun(1))
  {
    assert Crew(1) == Crew(0)[0 := Waiting] == map[0 := Waiting];
  }

  lemma {:induction false} StartsServers(p: Params, r: State -> bool, k: nat)
    requires Closed(p, r) && 1 <= k && (k == 1 || k <= p.minServers)
    ensures r(Begun(k))
  {
    if k == 1 {
      Begins(p, r);
    } else {
      StartsServers(p, r, k - 1);
      StartsOne(p, r, k - 1);
    }
  }

  lemma StartsOne(p: Params, r: State -> bool, k: nat)
    requires 1 <= k < p.minServers && Closed(p, r) && r(Begun(k))
    ensures r(Begun(k + 1))
  {
    StartStep(p, k);
    Then(p, r, Begun(k), Start, Begun(k + 1));
  }

  lemma Starts(n: nat, p: Params, r: State -> bool)
    requires Closed(p, r) && n == if p.minServers > 1 then p.minServers else 1
    ensures r(Idle(n, Polling, []))
  {
    StartsServers(p, r, n);
    assert Crew(n)[0 := Waiting] == Crew(n);
    Then(p, r, Begun(n), Start, Idle(n, Polling, []));
  }

  lemma Hears(n: nat, p: Params, r: State -> bool)
    requires p.pollBatch >= 1 && Closed(p, r) && r(Idle(n, Polling, []))
    ensures r(Idle(n, Polling, [Incoming]))
  {
    assert Idle(n, Polling, []).batch + [Incoming] == [Incoming];
    Then(p, r, Idle(n, Polling, []), DeliverIncoming, Idle(n, Polling, [Incoming]));
  }

  lemma Handles(n: nat, p: Params, r: State -> bool)
    requires Closed(p, r) && r(Idle(n, Polling, [Incoming]))
    ensures r(Idle(n, Accepting, []))
  {
    Then(p, r, Idle(n, Polling, [Incoming]), EndPoll, Idle(n, Handling, [Incoming]));
    assert Idle(n, Handling, [Incoming]).batch[1..] == [];
    Then(p, r, Idle(n, Handling, [Incoming]), Handle, Idle(n, Accepting, []));
  }

  function Fresh(n: nat, fd: int, phase: Phase): State {
    Scene(n, map[], [], 0, map[fd := 0], phase, [], Waiting, [Conn(fd, [], false, 0)])
  }

  lemma AcceptStep(n: nat, p: Params, fd: int)
    ensures ListenerStep(p, Idle(n, Accepting, []), Accept(fd)) == Some(Fresh(n, fd, Accepted(Work(fd, 0))))
  {
    var s := Idle(n, Accepting, []);
    assert s.conns + [Conn(fd, [], false, 0)] == [Conn(fd, [], false, 0)];
    assert s.sh.kernel[fd := 0] == map[fd := 0];
  }

  lemma Accepts(n: nat, p: Params, r: State -> bool, fd: int)
    requires Closed(p, r) && r(Idle(n, Accepting, []))
    ensures r(Fresh(n, fd, Accepted(Work(fd, 0))))
  {
    AcceptStep(n, p, fd);
    Then(p, r, Idle(n, Accepting, []), Accept(fd), Fresh(n, fd, Accepted(Work(fd, 0))));
  }

  function Clients(fd: int): map<int, Entry> { map[fd := Entry(Socket(fd, 0), NEW)] }

  function Kept(n: nat, fd: int, workload: seq<Work>, size: int, phase: Phase, worker: Worker, calls: seq<Callback>)
    : State
  {
    Scene(n, Clients(fd), workload, size, map[fd := 0], phase, [], worker, [Conn(fd, calls, false, 0)])
  }

  lemma AdmitStep(n: nat, p: Params, fd: int)
    requires p.maxConnections >= 1
    ensures ListenerStep(p, Fresh(n, fd, Accepted(Work(fd, 0))), Admit(false)) ==
            Some(Fresh(n, fd, Admitted(Work(fd, 0))))
  {
    assert |Fresh(n, fd, Accepted(Work(fd, 0))).sh.clients| == 0;
  }

  lemma Admits(n: nat, p: Params, r: State -> bool, fd: int)
    requires p.maxConnections >= 1 && Closed(p, r) && r(Fresh(n, fd, Accepted(Work(fd, 0))))
    ensures r(Fresh(n, fd, Admitted(Work(fd, 0))))
  {
    AdmitStep(n, p, fd);
    Then(p, r, Fresh(n, fd, Accepted(Work(fd, 0))), Admit(false), Fresh(n, fd, Admitted(Work(fd, 0))));
  }

  lemma Lists(n: nat, p: Params, r: State -> bool, fd: int)
    requires Closed(p, r) && r(Fresh(n, fd, Admitted(Work(fd, 0))))
    ensures r(Kept(n, fd, [], 0, Listed(Work(fd, 0)), Waiting, []))
  {
    var s := Fresh(n, fd, Admitted(Work(fd, 0)));
    assert s.sh.clients[fd := Entry(Socket(fd, 0), NEW)] == Clients(fd);
    Then(p, r, s, List, Kept(n, fd, [], 0, Listed(Work(fd, 0)), Waiting, []));
  }

  lemma Pushes(n: nat, p: Params, r: State -> bool, fd: int)
    requires Closed(p, r) && r(Kept(n, fd, [], 0, Listed(Work(fd, 0)), Waiting, []))
    ensures r(Kept(n, fd, [Work(fd, 0)], 1, Accepting, Waiting, []))
  {
    var s := Kept(n, fd, [], 0, Listed(Work(fd, 0)), Waiting, []);
    assert s.sh.workload + [Work(fd, 0)] == [Work(fd, 0)];
    assert s.sh.clients[fd := Entry(Socket(fd, 0), Or(NEW, NEW))] == Clients(fd);
    Then(p, r, s, PushNew, Kept(n, fd, [Work(fd, 0)], 1, Accepting, Waiting, []));
  }

  // --- The worker takes it, its handshake fails, and the connection is closed

  const DONE: SockState := Or(NEW, SHUT)

  function Served(n: nat, fd: int, stage: Stage, done: SockState, calls: seq<Callback>): State {
    Kept(n, fd, [], 1, Accepting, Serving(Work(fd, 0), stage, done), calls)
  }

  lemma WakeStep(n: nat, fd: int)
    ensures WorkerStep(Kept(n, fd, [Work(fd, 0)], 1, Accepting, Waiting, []), Wake(0), 0) ==
            Some(Kept(n, fd, [Work(fd, 0)], 1, Accepting, Popping, []))
  {
    assert Crew(n)[0 := Waiting][0 := Popping] == Crew(n)[0 := Popping];
  }

  lemma PopStep(n: nat, fd: int)
    ensures WorkerStep(Kept(n, fd, [Work(fd, 0)], 1, Accepting, Popping, []), Pop(0), 0) ==
            Some(Served(n, fd, AtNew, NONE, []))
  {
    var k := Serving(Work(fd, 0), AtNew, NONE);
    assert Crew(n)[0 := Popping][0 := k] == Crew(n)[0 := k] && [Work(fd, 0)][1..] == [];
  }

  lemma Pops(n: nat, p: Params, r: State -> bool, fd: int)
    requires Closed(p, r) && r(Kept(n, fd, [Work(fd, 0)], 1, Accepting, Waiting, []))
    ensures r(Served(n, fd, AtNew, NONE, []))
  {
    var s := Kept(n, fd, [Work(fd, 0)], 1, Accepting, Popping, []);
    WakeStep(n, fd);
    Then(p, r, Kept(n, fd, [Work(fd, 0)], 1, Accepting, Waiting, []), Wake(0), s);
    PopStep(n, fd);
    Then(p, r, s, Pop(0), Served(n, fd, AtNew, NONE, []));
  }

  lemma RefuseStep(n: nat, fd: int)
    ensures WorkerStep(Served(n, fd, AtNew, NONE, []), OnNew(0, Returned(false)), 0) ==
            Some(Served(n, fd, AtRead, DONE, [HandShake]))
  {
    var s, k := Served(n, fd, AtNew, NONE, []), Serving(Work(fd, 0), AtRead, DONE);
    assert s.workers[0 := k] == Crew(n)[0 := k];
    assert Called(Conn(fd, [], false, 0), HandShake, Returned(false)) == Conn(fd, [HandShake], false, 0);
    assert s.conns[0 := Conn(fd, [HandShake], false, 0)] == [Conn(fd, [HandShake], false, 0)];
  }

  lemma Refuses(n: nat, p: Params, r: State -> bool, fd: int)
    requires Closed(p, r) && r(Served(n, fd, AtNew, NONE, []))
    ensures r(Served(n, fd, AtRead, DONE, [HandShake]))
  {
    RefuseStep(n, fd);
    Then(p, r, Served(n, fd, AtNew, NONE, []), OnNew(0, Returned(false)), Served(n, fd, AtRead, DONE, [HandShake]));
  }

  lemma SkipSteps(n: nat, fd: int)
    ensures WorkerStep(Served(n, fd, AtRead, DONE, [HandShake]), OnRead(0, Returned(true)), 0) ==
            Some(Served(n, fd, AtShut, DONE, [HandShake]))
    ensures WorkerStep(Served(n, fd, AtShut, DONE, [HandShake]), OnShut(0, Returned(true)), 0) ==
            Some(Served(n, fd, AtRelease, DONE, [HandShake]))
  {
    var s, k := Served(n, fd, AtRead, DONE, [HandShake]), Serving(Work(fd, 0), AtShut, DONE);
    var k' := Serving(Work(fd, 0), AtRelease, DONE);
    assert s.workers[0 := k] == Crew(n)[0 := k] && Crew(n)[0 := k][0 := k'] == Crew(n)[0 := k'];
  }

  lemma Skips(n: nat, p: Params, r: State -> bool, fd: int)
    requires Closed(p, r) && r(Served(n, fd, AtRead, DONE, [HandShake]))
    ensures r(Served(n, fd, AtRelease, DONE, [HandShake]))
  {
    SkipSteps(n, fd);
    Then(p, r, Served(n, fd, AtRead, DONE, [HandShake]), OnRead(0, Returned(true)),
         Served(n, fd, AtShut, DONE, [HandShake]));
    Then(p, r, Served(n, fd, AtShut, DONE, [HandShake]), OnShut(0, Returned(true)),
         Served(n, fd, AtRelease, DONE, [HandShake]));
  }

  function Released(n: nat, fd: int): State { Kept(n, fd, [], 0, Accepting, Releasing(Work(fd, 0), DONE), [HandShake]) }

  lemma ReleaseStep(n: nat, fd: int)
    ensures WorkerStep(Served(n, fd, AtRelease, DONE, [HandShake]), Decrement(0), 0) == Some(Released(n, fd))
  {
    var k, k' := Serving(Work(fd, 0), AtRelease, DONE), Releasing(Work(fd, 0), DONE);
    assert Crew(n)[0 := k][0 := k'] == Crew(n)[0 := k'];
  }

  lemma Releases(n: nat, p: Params, r: State -> bool, fd: int)
    requires Closed(p, r) && r(Served(n, fd, AtRelease, DONE, [HandShake]))
    ensures r(Released(n, fd))
  {
    ReleaseStep(n, fd);
    Then(p, r, Served(n, fd, AtRelease, DONE, [HandShake]), Decrement(0), Released(n, fd));
  }

  function Unlisted(n: nat, fd: int): State {
    Scene(n, map[], [], 0, map[fd := 0], Accepting, [], Erased(Work(fd, 0)), [Conn(fd, [HandShake], false, 0)])
    .(lock := Closing(Work(fd, 0), Some(0)))
  }

  lemma EraseStep(n: nat, fd: int)
    ensures WorkerStep(Released(n, fd), Erase(0), 0) == Some(Unlisted(n, fd))
  {
    var s, k := Released(n, fd), Erased(Work(fd, 0));
    assert s.workers[0 := k] == Crew(n)[0 := k] && s.sh.clients - {fd} == map[];
  }

  lemma Erases(n: nat, p: Params, r: State -> bool, fd: int)
    requires Closed(p, r) && r(Released(n, fd))
    ensures r(Unlisted(n, fd))
  {
    EraseStep(n, fd);
    Then(p, r, Released(n, fd), Erase(0), Unlisted(n, fd));
  }

  function Shut(n: nat, fd: int): State {
    Scene(n, map[], [], 0, map[], Accepting, [], Popping, [Conn(fd, [HandShake], false, 1)])
  }

  lemma CloseStep(n: nat, fd: int)
    ensures WorkerStep(Unlisted(n, fd), Close(0), 0) == Some(Shut(n, fd))
  {
    var s := Unlisted(n, fd);
    assert s.workers[0 := Popping] == Crew(n)[0 := Popping];
    assert s.sh.kernel - {fd} == map[] && s.sh.interest - {fd} == map[];
    assert s.conns[0 := Conn(fd, [HandShake], false, 1)] == [Conn(fd, [HandShake], false, 1)];
  }

  lemma Closes(n: nat, p: Params, r: State -> bool, fd: int)
    requires Closed(p, r) && r(Unlisted(n, fd))
    ensures r(Shut(n, fd))
  {
    CloseStep(n, fd);
    Then(p, r, Unlisted(n, fd), Close(0), Shut(n, fd));
  }

  // --- The descriptor comes back

  function Reused(n: nat, fd: int): State {
    Scene(n, map[], [], 0, map[fd := 1], Accepted(Work(fd, 1)), [], Popping,
          [Conn(fd, [HandShake], false, 1), Conn(fd, [], false, 0)])
  }

  lemma AcceptsAgain(n: nat, p: Params, r: State -> bool, fd: int)
    requires Closed(p, r) && r(Shut(n, fd))
    ensures r(Reused(n, fd))
  {
    var s := Shut(n, fd);
    assert s.conns + [Conn(fd, [], false, 0)] == Reused(n, fd).conns && s.sh.kernel[fd := 1] == map[fd := 1];
    Then(p, r, s, Accept(fd), Reused(n, fd));
  }

  lemma ReuseIn(p: Params, r: State -> bool, fd: int, n: nat)
    requires Closed(p, r) && p.pollBatch >= 1 && p.maxConnections >= 1
    requires n == if p.minServers > 1 then p.minServers else 1
    ensures r(Reused(n, fd))
  {
    Starts(n, p, r);
    Hears(n, p, r);
    Handles(n, p, r);
    Accepts(n, p, r, fd);
    Admits(n, p, r, fd);
    Lists(n, p, r, fd);
    Pushes(n, p, r, fd);
    Pops(n, p, r, fd);
    Refuses(n, p, r, fd);
    Skips(n, p, r, fd);
    Releases(n, p, r, fd);
    Erases(n, p, r, fd);
    Closes(n, p, r, fd);
    AcceptsAgain(n, p, r, fd);
  }

  /** Some run ends in the state. */
  ghost predicate Reachable(p: Params, s: State) { exists run :: Run(p, run) == Some(s) }

  lemma ReachOne(p: Params, s: State, a: Action)
    requires Reachable(p, s) && Step(p, s, a).Some?
    ensures Reachable(p, Step(p, s, a).value)
  {
    var run :| Run(p, run) == Some(s);
    assert (run + [a])[..|run|] == run;
    assert Run(p, run + [a]) == Step(p, s, a);
  }

  lemma ReachableIsClosed(p: Params, r: State -> bool)
    requires forall s :: r(s) <==> Reachable(p, s)
    ensures Closed(p, r)
  {
    assert Run(p, []) == Some(Init());
    forall s: State, a: Action | r(s) && Step(p, s, a).Some?
      ensures r(Step(p, s, a).value)
    {
      ReachOne(p, s, a);
    }
  }

  /** Reuse happens, so the claims about every run speak of it: for any configuration that lets a connection in, and for
      any descriptor, there is a run that serves a connection on it, closes it, and accepts the next connection on the
      same descriptor. */
  lemma ReuseHappens(p: Params, fd: int)
    requires p.pollBatch >= 1 && p.maxConnections >= 1
    ensures Reachable(p, Reused(if p.minServers > 1 then p.minServers else 1, fd))
  {
    var r := (s: State) => Reachable(p, s);
    ReachableIsClosed(p, r);
    ReuseIn(p, r, fd, if p.minServers > 1 then p.minServers else 1);
  }
}
