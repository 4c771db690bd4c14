/** Shutdown can always complete: from every state of every run the threads, left alone, can bring the listener to its
    end. */
module ListenerProgress {
  import opened SockStates
  import opened Wrappers
  import opened ListenerShared
  import opened ListenerProtocol
  import opened ListenerInvariant
  import opened ListenerSteps
  import opened ListenerTurns
  import opened ListenerTheorems

  // ---- the server that does not stop early ----

  /** The listener has asked all its servers to stop. */
  predicate Leaving(phase: Phase) {
    phase.Joining? || phase.Sweeping? || phase.SweepErased? || phase.Finished?
  }

  /** Until the queue is drained the first server is there and not asked to stop; after that, all are. */
  predicate Lively(s: State) {
    && (!Leaving(s.phase) ==>
          s.initWorker in s.workers && s.initWorker !in s.stopping && !s.workers[s.initWorker].Stopped?)
    && (s.phase.Joining? ==> s.workers.Keys <= s.stopping)
  }

  /** A worker's step changes its own place only, and stops it only if it was asked to stop. */
  lemma WorkerMoves(s: State, a: Action)
    requires ByWorker(a) && a.w in s.workers && WorkerStep(s, a, a.w).Some?
    ensures var s' := WorkerStep(s, a, a.w).value;
      && s'.phase == s.phase && s'.stopping == s.stopping && s'.initWorker == s.initWorker
      && a.w in s'.workers && s'.workers == s.workers[a.w := s'.workers[a.w]]
      && (s'.workers[a.w].Stopped? ==> a.w in s.stopping)
  {
  }

  lemma WorkerLively(s: State, a: Action)
    requires Lively(s) && ByWorker(a) && a.w in s.workers && WorkerStep(s, a, a.w).Some?
    ensures Lively(WorkerStep(s, a, a.w).value)
  {
    WorkerMoves(s, a);
  }

  lemma ListenerLively(p: Params, s: State, a: Action)
    requires Lively(s) && ListenerStep(p, s, a).Some?
    ensures Lively(ListenerStep(p, s, a).value)
  {
  }

  lemma StepLively(p: Params, s: State, a: Action)
    requires Lively(s) && Step(p, s, a).Some?
    ensures Lively(Step(p, s, a).value)
  {
    if a.Stop? {
    } else if ByWorker(a) {
      WorkerLively(s, a);
    } else {
      ListenerLively(p, s, a);
    }
  }

  lemma {:induction false} RunLively(p: Params, run: seq<Action>)
    requires Run(p, run).Some?
    ensures Lively(Run(p, run).value)
  {
    if run != [] {
      RunLively(p, run[..|run| - 1]);
      StepLively(p, Run(p, run[..|run| - 1]).value, run[|run| - 1]);
    }
  }

  // ---- continuations ----

  /** The state after some more actions. */
  function After(p: Params, s: State, more: seq<Action>): Option<State>
    decreases |more|
  {
    if more == [] then Some(s)
    else
      var next := Step(p, s, more[0]);
      if next.None? then None else After(p, next.value, more[1..])
  }

  lemma RunOne(p: Params, run: seq<Action>, a: Action)
    requires Run(p, run).Some?
    ensures Run(p, run + [a]) == Step(p, Run(p, run).value, a)
  {
    assert (run + [a])[..|run|] == run;
  }

  lemma {:induction false} RunAfter(p: Params, run: seq<Action>, more: seq<Action>)
    requires Run(p, run).Some? && After(p, Run(p, run).value, more).Some?
    ensures Run(p, run + more) == After(p, Run(p, run).value, more)
    decreases |more|
  {
    if more == [] {
      assert run + more == run;
    } else {
      RunOne(p, run, more[0]);
      RunAfter(p, run + [more[0]], more[1..]);
      assert run + [more[0]] + more[1..] == run + more;
    }
  }

  /** Nothing comes from outside: no event, no connection, no exception, no new server. */
  predicate Quiet(a: Action) {
    !a.Deliver? && !a.DeliverIncoming? && !a.Accept? && !a.Raise? && !a.AddServer?
  }

  // ---- a measure of what is left to do ----

  function Rank(k: Worker): nat {
    match k
    case Stopped => 0
    case Waiting => 1
    case Checking => 2
    case Popping => 3
    case Erased(_) => 4
    case Releasing(_, _) => 5
    case Serving(_, stage, _) =>
      match stage
      case AtRelease => 6
      case AtShut => 7
      case AtRead => 8
      case AtNew => 9
  }

  /** The ranks of the workers with numbers below n. */
  function Ranks(workers: Workers, n: nat): nat {
    if n == 0 then 0 else Ranks(workers, n - 1) + if n - 1 in workers then Rank(workers[n - 1]) else 0
  }

  lemma {:induction false} RanksSet(workers: Workers, n: nat, w: nat, k: Worker)
    requires w in workers
    ensures Ranks(workers[w := k], n) == Ranks(workers, n) + if w < n then Rank(k) - Rank(workers[w]) else 0
  {
    if n > 0 { RanksSet(workers, n - 1, w, k); }
  }

  /** A queued item weighs more than a worker that serves one. */
  function Load(s: State): nat { 10 * |s.sh.workload| + Ranks(s.workers, s.nextWorker) }

  function PhaseRank(phase: Phase): nat {
    match phase
    case Starting => 12
    case Polling => 11
    case Accepted(_) => 10
    case Admitted(_) => 9
    case Listed(_) => 8
    case Accepting => 7
    case Handling => 6
    case Draining => 5
    case Joining => 4
    case Sweeping(_) => 3
    case SweepErased(_, _) => 3
    case Finished => 0
  }

  function Todo(phase: Phase): nat {
    match phase
    case Sweeping(todo) => 2 * |todo|
    case SweepErased(_, todo) => 2 * |todo| + 1
    case _ => 0
  }

  /** The servers that are still to be started. */
  function Missing(p: Params, s: State): nat {
    if s.phase.Starting? && |s.workers| < p.minServers then p.minServers - |s.workers| else 0
  }

  /** s' has less left to do than s. */
  predicate Nearer(p: Params, s': State, s: State) {
    || |s'.batch| < |s.batch|
    || (|s'.batch| == |s.batch| &&
        (|| PhaseRank(s'.phase) < PhaseRank(s.phase)
         || (PhaseRank(s'.phase) == PhaseRank(s.phase) &&
             (|| Todo(s'.phase) < Todo(s.phase)
              || (Todo(s'.phase) == Todo(s.phase) &&
                  (|| Missing(p, s') < Missing(p, s)
                   || (Missing(p, s') == Missing(p, s) && Load(s') < Load(s))))))))
  }

  // ---- there is always a step that brings the end nearer ----

  /** A worker's step that leaves the listener alone and lowers the load. */
  lemma WorkerNearer(p: Params, s: State, s': State, w: nat, k: Worker)
    requires w in s.workers && w < s.nextWorker
    requires s'.batch == s.batch && s'.phase == s.phase
    requires s'.nextWorker == s.nextWorker && s'.workers == s.workers[w := k]
    requires 10 * |s'.sh.workload| + Rank(k) < 10 * |s.sh.workload| + Rank(s.workers[w])
    ensures Nearer(p, s', s)
  {
    RanksSet(s.workers, s.nextWorker, w, k);
    assert s'.workers.Keys == s.workers.Keys;
    assert |s'.workers| == |s.workers|;
  }

  /** What worker w does next, if it is neither waiting nor stopped. */
  function NextOf(k: Worker, w: nat): Action {
    match k
    case Checking => CheckStop(w)
    case Popping => Pop(w)
    case Erased(_) => Close(w)
    case Releasing(_, done) => if done.isShut then Erase(w) else Arm(w)
    case Serving(_, stage, _) =>
      (match stage
       case AtNew => OnNew(w, Returned(true))
       case AtRead => OnRead(w, Returned(true))
       case AtShut => OnShut(w, Returned(true))
       case AtRelease => Decrement(w))
    case _ => Wake(w)
  }

  /** That step, which is always possible when the mutex is free, lowers the load. */
  lemma WorkerStepIs(s: State, w: nat) returns (s': State)
    requires w in s.workers && !s.workers[w].Waiting? && !s.workers[w].Stopped?
    requires s.lock.Free? || s.workers[w].Erased?
    requires s.workers[w].Serving? ==> NodeAlive(s.sh.clients, s.workers[w].work) && s.workers[w].work.conn < |s.conns|
    ensures WorkerStep(s, NextOf(s.workers[w], w), w) == Some(s')
    ensures s'.batch == s.batch && s'.phase == s.phase && s'.nextWorker == s.nextWorker && s'.stopServer == s.stopServer
    ensures w in s'.workers && s'.workers == s.workers[w := s'.workers[w]]
    ensures 10 * |s'.sh.workload| + Rank(s'.workers[w]) < 10 * |s.sh.workload| + Rank(s.workers[w])
  {
    s' := WorkerStep(s, NextOf(s.workers[w], w), w).value;
  }

  /** A continuation that brings the end nearer. */
  ghost predicate Helps(p: Params, s: State, more: seq<Action>) {
    && (forall i :: 0 <= i < |more| ==> Quiet(more[i]))
    && After(p, s, more).Some?
    && Nearer(p, After(p, s, more).value, s) && After(p, s, more).value.stopServer == s.stopServer
  }

  lemma OneHelps(p: Params, s: State, a: Action, s': State)
    requires Quiet(a) && Step(p, s, a) == Some(s') && Nearer(p, s', s) && s'.stopServer == s.stopServer
    ensures Helps(p, s, [a])
  {
    assert [a][1..] == [];
    assert After(p, s, [a]) == After(p, s', [a][1..]) == Some(s');
  }

  lemma TwoAfter(p: Params, s: State, a: Action, s1: State, b: Action, s2: State)
    requires Step(p, s, a) == Some(s1) && Step(p, s1, b) == Some(s2)
    ensures After(p, s, [a, b]) == Some(s2)
  {
    assert [a, b][1..] == [b] && [b][1..] == [];
    assert After(p, s1, [b]) == After(p, s2, [b][1..]);
    assert After(p, s, [a, b]) == After(p, s1, [a, b][1..]);
  }

  lemma ThreeAfter(p: Params, s: State, a: Action, s1: State, b: Action, s2: State, c: Action, s3: State)
    requires Step(p, s, a) == Some(s1) && Step(p, s1, b) == Some(s2) && Step(p, s2, c) == Some(s3)
    ensures After(p, s, [a, b, c]) == Some(s3)
  {
    TwoAfter(p, s1, b, s2, c, s3);
    assert [a, b, c][1..] == [b, c];
    assert After(p, s, [a, b, c]) == After(p, s1, [a, b, c][1..]);
  }

  lemma BusyHelps(p: Params, s: State, place: Places, w: nat) returns (more: seq<Action>)
    requires Inv(p, s, place) && w in s.workers && !s.workers[w].Waiting? && !s.workers[w].Stopped?
    requires s.lock.Free? || s.workers[w].Erased?
    ensures Helps(p, s, more)
  {
    var k := s.workers[w];
    assert k.Serving? ==> NodeAlive(s.sh.clients, k.work) && k.work.conn < |s.conns|;
    var s' := WorkerStepIs(s, w);
    WorkerNearer(p, s, s', w, s'.workers[w]);
    more := [NextOf(k, w)];
    OneHelps(p, s, NextOf(k, w), s');
  }

  /** A queued item is taken by a waiting worker. */
  lemma TakeHelps(p: Params, s: State, w: nat) returns (more: seq<Action>)
    requires w in s.workers && w < s.nextWorker && s.workers[w].Waiting? && s.lock.Free?
    requires s.sh.workload != [] && s.sh.workQSize != 0
    ensures Helps(p, s, more)
  {
    var s1 := SetWorker(s, w, Popping);
    var s2 := WorkerStep(s1, Pop(w), w).value;
    more := [Wake(w), Pop(w)];
    TwoAfter(p, s, Wake(w), s1, Pop(w), s2);
    assert s2.workers == s.workers[w := s2.workers[w]];
    WorkerNearer(p, s, s2, w, s2.workers[w]);
  }

  /** A waiting worker that was asked to stop, with nothing queued, stops. */
  lemma StopHelps(p: Params, s: State, w: nat) returns (more: seq<Action>)
    requires w in s.workers && w < s.nextWorker && s.workers[w].Waiting? && s.lock.Free?
    requires s.sh.workload == [] && w in s.stopping
    ensures Helps(p, s, more)
  {
    var s1 := SetWorker(s, w, Popping);
    var s2 := SetWorker(s1, w, Checking);
    var s3 := SetWorker(s2, w, Stopped);
    more := [Wake(w), Pop(w), CheckStop(w)];
    ThreeAfter(p, s, Wake(w), s1, Pop(w), s2, CheckStop(w), s3);
    assert s3.workers == s.workers[w := Stopped];
    WorkerNearer(p, s, s3, w, Stopped);
  }

  // ---- the listener ----

  /** In its loop the listener can always go on by itself. */
  function LoopNext(s: State): Action {
    match s.phase
    case Starting => Start
    case Polling => EndPoll
    case Handling => if s.batch != [] then Handle else EndLoop
    case Accepting => AcceptNone
    case Accepted(_) => Admit(false)
    case Admitted(_) => List
    case _ => PushNew
  }

  lemma LoopStep(p: Params, s: State) returns (s': State)
    requires s.lock.Free? && s.stopServer && !s.phase.Draining? && !Leaving(s.phase)
    requires s.phase.Starting? ==> |s.workers| >= p.minServers
    ensures ListenerStep(p, s, LoopNext(s)) == Some(s') && s'.stopServer
    ensures |s'.batch| < |s.batch| || (|s'.batch| == |s.batch| && PhaseRank(s'.phase) < PhaseRank(s.phase))
  {
    s' := ListenerStep(p, s, LoopNext(s)).value;
  }

  lemma LoopHelps(p: Params, s: State) returns (more: seq<Action>)
    requires s.lock.Free? && s.stopServer && !s.phase.Draining? && !Leaving(s.phase) && s.nextWorker !in s.workers
    ensures Helps(p, s, more)
  {
    var a := LoopNext(s);
    more := [a];
    var s';
    if s.phase.Starting? && |s.workers| < p.minServers {
      s' := NewServer(s);
      StartNearer(p, s);
    } else {
      s' := LoopStep(p, s);
    }
    OneHelps(p, s, a, s');
  }

  lemma StartNearer(p: Params, s: State)
    requires s.phase.Starting? && |s.workers| < p.minServers && s.nextWorker !in s.workers
    ensures Nearer(p, NewServer(s), s)
  {
    assert |NewServer(s).workers| == |s.workers| + 1;
  }

  lemma NoServing(workers: Workers)
    requires forall w :: w in workers ==> !workers[w].Serving?
    ensures ServingSet(workers) == {}
  {
  }

  lemma DrainHelps(p: Params, s: State, place: Places) returns (more: seq<Action>)
    requires Inv(p, s, place) && Lively(s) && s.lock.Free? && s.phase.Draining?
    ensures Helps(p, s, more)
  {
    if w :| w in s.workers && !s.workers[w].Waiting? && !s.workers[w].Stopped? {
      more := BusyHelps(p, s, place, w);
    } else {
      NoServing(s.workers);
      if s.sh.workload != [] {
        more := TakeHelps(p, s, s.initWorker);
      } else {
        more := [Drained];
        OneHelps(p, s, Drained, s.(phase := Joining, stopping := s.workers.Keys));
      }
    }
  }

  lemma {:induction false} Listing(keys: set<int>) returns (order: seq<int>)
    ensures Enumerates(order, keys)
    decreases |keys|
  {
    if k :| k in keys {
      var rest := Listing(keys - {k});
      order := [k] + rest;
    } else {
      order := [];
    }
  }

  lemma JoinHelps(p: Params, s: State, place: Places) returns (more: seq<Action>)
    requires Inv(p, s, place) && Lively(s) && s.lock.Free? && s.phase.Joining?
    ensures Helps(p, s, more)
  {
    assert s.sh.workload == [];
    if w :| w in s.workers && s.workers[w].Waiting? {
      more := StopHelps(p, s, w);
    } else if w :| w in s.workers && !s.workers[w].Stopped? {
      more := BusyHelps(p, s, place, w);
    } else {
      var order := Listing(s.sh.clients.Keys);
      more := [Joined(order)];
      OneHelps(p, s, Joined(order), s.(phase := Sweeping(ClientList(s.sh, order)), workers := map[]));
    }
  }

  lemma SweepCloseStep(p: Params, s: State)
    requires s.phase.SweepErased?
    ensures ListenerStep(p, s, SweepClose).Some?
    ensures var s' := ListenerStep(p, s, SweepClose).value;
      s'.phase == Sweeping(s.phase.todo) && s'.batch == s.batch && s'.stopServer == s.stopServer
  {
  }

  lemma SweepEraseStep(p: Params, s: State)
    requires s.phase.Sweeping? && s.lock.Free? && s.phase.todo != []
    ensures ListenerStep(p, s, SweepErase).Some?
    ensures var s' := ListenerStep(p, s, SweepErase).value;
      && s'.phase == SweepErased(s.phase.todo[0], s.phase.todo[1..])
      && s'.batch == s.batch && s'.stopServer == s.stopServer
  {
  }

  lemma SweepLater(sock: Work, todo: seq<Work>)
    ensures Later(Sweeping(todo), SweepErased(sock, todo)) && Later(Finished, Sweeping(todo))
    ensures todo != [] ==> Later(SweepErased(todo[0], todo[1..]), Sweeping(todo))
  {
  }

  lemma FinishStep(p: Params, s: State)
    requires s.phase == Sweeping([])
    ensures ListenerStep(p, s, Finish) == Some(s.(phase := Finished))
  {
  }

  /** The phase s' has less to do than the phase s. */
  predicate Later(s': Phase, s: Phase) {
    PhaseRank(s') < PhaseRank(s) || (PhaseRank(s') == PhaseRank(s) && Todo(s') < Todo(s))
  }

  /** A step of the listener to a phase with less to do. */
  lemma PhaseHelps(p: Params, s: State, a: Action)
    requires !ByWorker(a) && !a.Stop? && Quiet(a) && ListenerStep(p, s, a).Some?
    requires var s' := ListenerStep(p, s, a).value;
      s'.batch == s.batch && s'.stopServer == s.stopServer && Later(s'.phase, s.phase)
    ensures Helps(p, s, [a])
  {
    OneHelps(p, s, a, ListenerStep(p, s, a).value);
  }

  lemma SweepCloseHelps(p: Params, s: State)
    requires s.phase.SweepErased?
    ensures Helps(p, s, [SweepClose])
  {
    SweepCloseStep(p, s);
    SweepLater(s.phase.sock, s.phase.todo);
    PhaseHelps(p, s, SweepClose);
  }

  lemma SweepEraseHelps(p: Params, s: State)
    requires s.phase.Sweeping? && s.lock.Free? && s.phase.todo != []
    ensures Helps(p, s, [SweepErase])
  {
    SweepEraseStep(p, s);
    SweepLater(s.phase.todo[0], s.phase.todo);
    PhaseHelps(p, s, SweepErase);
  }

  lemma FinishHelps(p: Params, s: State)
    requires s.phase == Sweeping([])
    ensures Helps(p, s, [Finish])
  {
    FinishStep(p, s);
    PhaseHelps(p, s, Finish);
  }

  lemma SweepHelps(p: Params, s: State) returns (more: seq<Action>)
    requires s.phase.Sweeping? && s.lock.Free?
    ensures Helps(p, s, more)
  {
    if s.phase.todo == [] {
      more := [Finish];
      FinishHelps(p, s);
    } else {
      more := [SweepErase];
      SweepEraseHelps(p, s);
    }
  }

  /** Who holds the mutex can close and release it. */
  lemma UnlockHelps(p: Params, s: State, place: Places) returns (more: seq<Action>)
    requires Inv(p, s, place) && s.lock.Closing?
    ensures Helps(p, s, more)
  {
    if s.lock.owner.Some? {
      more := BusyHelps(p, s, place, s.lock.owner.value);
    } else {
      more := [SweepClose];
      SweepCloseHelps(p, s);
    }
  }

  /** No state is stuck. */
  lemma SomethingHelps(p: Params, s: State, place: Places) returns (more: seq<Action>)
    requires Inv(p, s, place) && Lively(s) && s.stopServer && !s.phase.Finished?
    ensures Helps(p, s, more)
  {
    if s.lock.Closing? {
      more := UnlockHelps(p, s, place);
    } else if s.phase.Draining? {
      more := DrainHelps(p, s, place);
    } else if s.phase.Joining? {
      more := JoinHelps(p, s, place);
    } else if s.phase.Sweeping? {
      more := SweepHelps(p, s);
    } else {
      more := LoopHelps(p, s);
    }
  }

  // ---- the theorem ----

  lemma {:induction false} AfterKeeps(p: Params, s: State, more: seq<Action>, place: Places) returns (place': Places)
    requires Inv(p, s, place) && Lively(s) && After(p, s, more).Some?
    ensures Inv(p, After(p, s, more).value, place') && Lively(After(p, s, more).value)
    decreases |more|
  {
    if more == [] {
      place' := place;
    } else {
      var a := more[0];
      StepKeeps(p, s, a, place);
      StepLively(p, s, a);
      place' := AfterKeeps(p, Step(p, s, a).value, more[1..], NextPlace(s, a, place));
    }
  }

  lemma {:induction false} AfterBoth(p: Params, s: State, first: seq<Action>, rest: seq<Action>)
    requires After(p, s, first).Some?
    ensures After(p, s, first + rest) == After(p, After(p, s, first).value, rest)
    decreases |first|
  {
    if first == [] {
      assert first + rest == rest;
    } else {
      assert (first + rest)[1..] == first[1..] + rest;
      AfterBoth(p, Step(p, s, first[0]).value, first[1..], rest);
    }
  }

  /** The continuation ends with the listener finished, and nothing in it comes from outside. */
  ghost predicate Finishes(p: Params, s: State, more: seq<Action>) {
    && (forall i :: 0 <= i < |more| ==> Quiet(more[i]))
    && After(p, s, more).Some? && After(p, s, more).value.phase.Finished?
  }

  lemma FinishesBoth(p: Params, s: State, first: seq<Action>, s': State, rest: seq<Action>)
    requires (forall i :: 0 <= i < |first| ==> Quiet(first[i]))
    requires After(p, s, first) == Some(s') && Finishes(p, s', rest)
    ensures Finishes(p, s, first + rest)
  {
    AfterBoth(p, s, first, rest);
  }

  lemma {:induction false} StoppedFinishes(p: Params, s: State, place: Places) returns (more: seq<Action>)
    requires Inv(p, s, place) && Lively(s) && s.stopServer
    ensures Finishes(p, s, more)
    decreases |s.batch|, PhaseRank(s.phase), Todo(s.phase), Missing(p, s), Load(s)
  {
    if s.phase.Finished? {
      more := [];
    } else {
      var first := SomethingHelps(p, s, place);
      var s' := After(p, s, first).value;
      var place' := AfterKeeps(p, s, first, place);
      var rest := StoppedFinishes(p, s', place');
      more := first + rest;
      FinishesBoth(p, s, first, s', rest);
    }
  }

  lemma StopThenFinishes(p: Params, s: State, place: Places) returns (more: seq<Action>)
    requires Inv(p, s, place) && Lively(s)
    ensures Finishes(p, s, more)
  {
    var s' := s.(stopServer := true);
    var rest := StoppedFinishes(p, s', place);
    more := [Stop] + rest;
    assert [Stop][1..] == [];
    assert After(p, s, [Stop]) == After(p, s', [Stop][1..]) == Some(s');
    FinishesBoth(p, s, [Stop], s', rest);
  }

  /** From every state of every run, once a stop is requested and whatever the threads were doing, some continuation in
      which nothing comes from outside ends with the listener finished. No thread is stuck, no lock is held for good. */
  lemma ShutdownCompletes(p: Params, run: seq<Action>) returns (more: seq<Action>)
    requires Run(p, run).Some?
    ensures Run(p, run + more).Some? && Run(p, run + more).value.phase.Finished?
    ensures forall i :: 0 <= i < |more| ==> Quiet(more[i])
  {
    var place := RunInv(p, run);
    RunLively(p, run);
    more := StopThenFinishes(p, Run(p, run).value, place);
    RunAfter(p, run, more);
  }
}
