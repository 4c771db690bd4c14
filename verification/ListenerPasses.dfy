/** What a worker's pass over an item leaves behind, told from the actions of the run, and in what order items are
    taken. */
module ListenerPasses {
  import opened SockStates
  import opened Wrappers
  import opened ListenerShared
  import opened ListenerProtocol
  import opened ListenerInvariant
  import opened ListenerSteps
  import opened ListenerTheorems

  // ---- the pass ----

  predicate IsCallback(a: Action) { a.OnNew? || a.OnRead? || a.OnShut? }

  /** How the tests of worker w's present pass ended, in the order of the run: handShake, readSocket, shutDown. */
  function Pass(actions: seq<Action>, w: nat): seq<Outcome> {
    if actions == [] then []
    else
      var before, a := Pass(actions[..|actions| - 1], w), actions[|actions| - 1];
      if a == Pop(w) then []
      else if IsCallback(a) && a.w == w then before + [a.outcome]
      else before
  }

  function Tests(k: Worker): nat
    requires Holds(k)
  {
    if k.Releasing? then 3
    else match k.stage
      case AtNew => 0
      case AtRead => 1
      case AtShut => 2
      case AtRelease => 3
  }

  /** completion_state after the first tests of a pass over a client in state st: a flag is complete when its callback
      returned, and the connection is to be closed when a callback failed or shutDown returned. */
  predicate Completes(done: SockState, st: SockState, os: seq<Outcome>) {
    && done.isNew == (|os| > 0 && st.isNew && os[0].Returned?)
    && done.isRead == (|os| > 1 && st.isRead && os[1].Returned?)
    && done.isShut == (|| (|os| > 0 && st.isNew && os[0] == Returned(false))
                       || (|os| > 1 && st.isRead && os[1] == Returned(false))
                       || (|os| > 2 && st.isShut && os[2].Returned?))
  }

  /** Worker w has made so many tests of a client, and its completion_state says how they ended. */
  predicate PassSo(s: State, w: nat, os: seq<Outcome>)
    requires w in s.workers && Holds(s.workers[w])
  {
    var k := s.workers[w];
    && k.work.fd in s.sh.clients
    && |os| == Tests(k)
    && Completes(k.done, s.sh.clients[k.work.fd].state, os)
  }

  lemma PassPops(s: State, w: nat)
    requires w in s.workers && WorkerStep(s, Pop(w), w).Some?
    requires forall i :: 0 <= i < |s.sh.workload| ==> s.sh.workload[i].fd in s.sh.clients
    ensures var s' := WorkerStep(s, Pop(w), w).value;
            w in s'.workers && (Holds(s'.workers[w]) ==> PassSo(s', w, []))
  {
  }

  /** One more test, of the flag of `bit`. */
  lemma CompletesMore(done: SockState, st: SockState, os: seq<Outcome>, o: Outcome, bit: SockState, wanted: bool)
    requires Completes(done, st, os)
    requires || (|os|, bit, wanted) == (0, NEW, st.isNew)
             || (|os|, bit, wanted) == (1, READ, st.isRead)
             || (|os|, bit, wanted) == (2, SHUT, st.isShut)
    ensures Completes(if wanted then Completion(done, bit, o) else done, st, os + [o])
  {
    assert forall i :: 0 <= i < |os| ==> (os + [o])[i] == os[i];
  }

  /** What one test of the worker's loop leaves, if its pointer is good. */
  predicate Tested(s: State, s': State, w: nat, stage: Stage, bit: SockState, wanted: bool, o: Outcome)
    requires w in s.workers && Holds(s.workers[w])
  {
    var k := s.workers[w];
    s'.sh == s.sh && HasWorker(s', w, Serving(k.work, stage, if wanted then Completion(k.done, bit, o) else k.done))
  }

  lemma CallStep(s: State, a: Action)
    requires IsCallback(a) && a.w in s.workers && WorkerStep(s, a, a.w).Some?
    requires Holds(s.workers[a.w]) && !WorkerStep(s, a, a.w).value.sh.fault
    ensures var k, s' := s.workers[a.w], WorkerStep(s, a, a.w).value;
            && k.Serving? && k.work.fd in s.sh.clients
            && var st := s.sh.clients[k.work.fd].state;
               match a
               case OnNew(w, o) => k.stage.AtNew? && Tested(s, s', w, AtRead, NEW, st.isNew, o)
               case OnRead(w, o) => k.stage.AtRead? && Tested(s, s', w, AtShut, READ, st.isRead, o)
               case OnShut(w, o) => k.stage.AtShut? && Tested(s, s', w, AtRelease, SHUT, st.isShut, o)
  {
  }

  lemma PassCalls(s: State, a: Action, os: seq<Outcome>)
    requires IsCallback(a) && a.w in s.workers && WorkerStep(s, a, a.w).Some?
    requires Holds(s.workers[a.w]) && PassSo(s, a.w, os) && !WorkerStep(s, a, a.w).value.sh.fault
    ensures var s' := WorkerStep(s, a, a.w).value;
            && a.w in s'.workers && Holds(s'.workers[a.w]) && s'.workers[a.w].work == s.workers[a.w].work
            && PassSo(s', a.w, os + [a.outcome])
  {
    CallStep(s, a);
    TestedSo(s, WorkerStep(s, a, a.w).value, a, os);
  }

  lemma TestedSo(s: State, s': State, a: Action, os: seq<Outcome>)
    requires IsCallback(a) && a.w in s.workers && s.workers[a.w].Serving? && PassSo(s, a.w, os)
    requires var k := s.workers[a.w];
             var st := s.sh.clients[k.work.fd].state;
             match a
             case OnNew(w, o) => k.stage.AtNew? && Tested(s, s', w, AtRead, NEW, st.isNew, o)
             case OnRead(w, o) => k.stage.AtRead? && Tested(s, s', w, AtShut, READ, st.isRead, o)
             case OnShut(w, o) => k.stage.AtShut? && Tested(s, s', w, AtRelease, SHUT, st.isShut, o)
    ensures a.w in s'.workers && Holds(s'.workers[a.w]) && s'.workers[a.w].work == s.workers[a.w].work
    ensures PassSo(s', a.w, os + [a.outcome])
  {
    var k := s.workers[a.w];
    var st := s.sh.clients[k.work.fd].state;
    match a
    case OnNew(_, o) => CompletesMore(k.done, st, os, o, NEW, st.isNew);
    case OnRead(_, o) => CompletesMore(k.done, st, os, o, READ, st.isRead);
    case OnShut(_, o) => CompletesMore(k.done, st, os, o, SHUT, st.isShut);
  }

  /** Any other action of worker w gives up the item, or only begins its release. */
  lemma PassReleases(s: State, a: Action, os: seq<Outcome>)
    requires ByWorker(a) && !IsCallback(a) && !a.Pop? && a.w in s.workers && WorkerStep(s, a, a.w).Some?
    requires Holds(s.workers[a.w]) ==> PassSo(s, a.w, os)
    ensures var s' := WorkerStep(s, a, a.w).value;
            && a.w in s'.workers
            && (Holds(s'.workers[a.w]) ==>
                  && Holds(s.workers[a.w]) && s'.workers[a.w].work == s.workers[a.w].work
                  && PassSo(s', a.w, os))
  {
  }

  /** Another thread gives worker w nothing. */
  lemma NotGiven(p: Params, s: State, a: Action, w: nat)
    requires Step(p, s, a).Some? && !(ByWorker(a) && a.w == w)
    requires w in Step(p, s, a).value.workers && Holds(Step(p, s, a).value.workers[w])
    ensures w in s.workers && s.workers[w] == Step(p, s, a).value.workers[w]
  {
    if ByWorker(a) {
      WorkerGivesNothing(s, a, w);
    } else if !a.Stop? {
      ListenerGivesNothing(p, s, a, w);
    }
  }

  lemma WorkerGivesNothing(s: State, a: Action, w: nat)
    requires ByWorker(a) && a.w in s.workers && a.w != w && WorkerStep(s, a, a.w).Some?
    requires w in WorkerStep(s, a, a.w).value.workers
    ensures w in s.workers && s.workers[w] == WorkerStep(s, a, a.w).value.workers[w]
  {
  }

  lemma ListenerGivesNothing(p: Params, s: State, a: Action, w: nat)
    requires ListenerStep(p, s, a).Some?
    requires w in ListenerStep(p, s, a).value.workers && Holds(ListenerStep(p, s, a).value.workers[w])
    ensures w in s.workers && s.workers[w] == ListenerStep(p, s, a).value.workers[w]
  {
    if !a.Start? && !a.AddServer? && !a.Reap? && !a.Joined? { SameServers(p, s, a); }
  }

  lemma SameServers(p: Params, s: State, a: Action)
    requires ListenerStep(p, s, a).Some? && !a.Start? && !a.AddServer? && !a.Reap? && !a.Joined?
    ensures ListenerStep(p, s, a).value.workers == s.workers
  {
  }

  lemma OthersKeepPass(p: Params, actions: seq<Action>, a: Action, w: nat, os: seq<Outcome>)
    requires Run(p, actions).Some? && Run(p, actions + [a]).Some? && !(ByWorker(a) && a.w == w)
    requires var s := Run(p, actions).value; w in s.workers && Holds(s.workers[w]) && PassSo(s, w, os)
    ensures var s' := Run(p, actions + [a]).value; w in s'.workers && Holds(s'.workers[w]) && PassSo(s', w, os)
  {
    UnlockedReadsAreStable(p, actions, a, w);
  }

  lemma PassStep(p: Params, actions: seq<Action>, a: Action, w: nat, os: seq<Outcome>)
    requires Run(p, actions).Some? && Run(p, actions + [a]).Some? && ByWorker(a) && a.w == w
    requires var s := Run(p, actions).value; w in s.workers && (Holds(s.workers[w]) ==> PassSo(s, w, os))
    requires var s' := Run(p, actions + [a]).value; w in s'.workers && Holds(s'.workers[w])
    ensures PassSo(Run(p, actions + [a]).value, w,
                   if a.Pop? then [] else if IsCallback(a) then os + [a.outcome] else os)
  {
    var s := Run(p, actions).value;
    assert (actions + [a])[..|actions|] == actions;
    NoFault(p, actions + [a]);
    if a.Pop? {
      QueuedAreListed(p, actions);
      PassPops(s, w);
    } else if IsCallback(a) {
      PassCalls(s, a, os);
    } else {
      PassReleases(s, a, os);
    }
  }

  lemma QueuedAreListed(p: Params, actions: seq<Action>)
    requires Run(p, actions).Some?
    ensures var sh := Run(p, actions).value.sh; forall i :: 0 <= i < |sh.workload| ==> sh.workload[i].fd in sh.clients
  {
    var _ := RunInv(p, actions);
  }

  /** In every run, whatever the other threads do meanwhile: the completion_state of a worker that serves or releases a
      client says exactly how the callbacks of its pass ended. */
  lemma {:induction false} PassIsExact(p: Params, actions: seq<Action>, w: nat)
    requires Run(p, actions).Some?
    requires var s := Run(p, actions).value; w in s.workers && Holds(s.workers[w])
    ensures PassSo(Run(p, actions).value, w, Pass(actions, w))
    decreases |actions|
  {
    var n := |actions| - 1;
    var before, a := actions[..n], actions[n];
    assert before + [a] == actions;
    var s := Run(p, before).value;
    if ByWorker(a) && a.w == w {
      if Holds(s.workers[w]) { PassIsExact(p, before, w); }
      PassStep(p, before, a, w, Pass(before, w));
    } else {
      NotGiven(p, s, a, w);
      PassIsExact(p, before, w);
      OthersKeepPass(p, before, a, w, Pass(before, w));
    }
  }

  /** A client goes back to epoll with the flags whose callbacks did not return, and only if none failed. */
  lemma RearmedWith(p: Params, actions: seq<Action>, w: nat)
    requires Run(p, actions).Some? && Run(p, actions + [Arm(w)]).Some?
    ensures var s, s', os := Run(p, actions).value, Run(p, actions + [Arm(w)]).value, Pass(actions, w);
            && w in s.workers && s.workers[w].Releasing? && |os| == 3
            && var fd := s.workers[w].work.fd;
               && fd in s.sh.clients && fd in s'.sh.clients && fd in s'.sh.interest && s'.sh.interest[fd]
               && var st, st' := s.sh.clients[fd].state, s'.sh.clients[fd].state;
                  && !(st.isNew && os[0] == Returned(false)) && !(st.isRead && os[1] == Returned(false))
                  && !(st.isShut && os[2].Returned?)
                  && st' == SockState(st.isNew && !os[0].Returned?, st.isRead && !os[1].Returned?, st.isShut)
  {
    var s := Run(p, actions).value;
    assert (actions + [Arm(w)])[..|actions|] == actions;
    NoFault(p, actions + [Arm(w)]);
    PassIsExact(p, actions, w);
  }

  // ---- a connection whose callback failed ----

  /** The action is a call of a callback that failed, or of shutDown that returned, by the worker that serves `work`. */
  predicate Dooms(s: State, a: Action, work: Work) {
    && IsCallback(a) && a.w in s.workers && s.workers[a.w].Serving? && s.workers[a.w].work == work
    && work.fd in s.sh.clients
    && var st := s.sh.clients[work.fd].state;
       match a
       case OnNew(_, o) => st.isNew && o == Returned(false)
       case OnRead(_, o) => st.isRead && o == Returned(false)
       case OnShut(_, o) => st.isShut && o.Returned?
       case _ => false
  }

  /** The connection is closed, or worker w is on the way to closing it. */
  predicate Doomed(s: State, w: nat, work: Work) {
    && work.conn < |s.conns|
    && (|| s.conns[work.conn].closes == 1
        || (w in s.workers && Holds(s.workers[w]) && s.workers[w].work == work && s.workers[w].done.isShut)
        || HasWorker(s, w, Erased(work)))
  }

  lemma CallDooms(p: Params, s: State, place: Places, a: Action, work: Work)
    requires Inv(p, s, place) && Step(p, s, a).Some? && Dooms(s, a, work)
    ensures Doomed(Step(p, s, a).value, a.w, work)
  {
  }

  /** The worker that holds the item goes on to its release, and then erases the entry. */
  lemma DoomedIsErased(s: State, a: Action, w: nat)
    requires ByWorker(a) && a.w == w && w in s.workers && WorkerStep(s, a, w).Some?
    requires Holds(s.workers[w]) && s.workers[w].done.isShut
    ensures var s', work := WorkerStep(s, a, w).value, s.workers[w].work;
            && w in s'.workers && |s'.conns| == |s.conns|
            && (|| s'.workers[w] == Erased(work)
                || (Holds(s'.workers[w]) && s'.workers[w].work == work && s'.workers[w].done.isShut))
  {
  }

  lemma ErasedIsClosed(s: State, a: Action, w: nat, work: Work)
    requires ByWorker(a) && a.w == w && w in s.workers && WorkerStep(s, a, w).Some?
    requires s.workers[w] == Erased(work) && work.conn < |s.conns| && s.conns[work.conn].closes == 0
    ensures var s' := WorkerStep(s, a, w).value; |s'.conns| == |s.conns| && s'.conns[work.conn].closes == 1
  {
  }

  /** The steps of the worker that is to close the connection. */
  lemma DoomedGoesOn(s: State, a: Action, w: nat, work: Work)
    requires ByWorker(a) && a.w == w && w in s.workers && WorkerStep(s, a, w).Some?
    requires Doomed(s, w, work) && s.conns[work.conn].closes == 0
    ensures Doomed(WorkerStep(s, a, w).value, w, work)
  {
    if Holds(s.workers[w]) {
      DoomedIsErased(s, a, w);
    } else {
      ErasedIsClosed(s, a, w, work);
    }
  }

  lemma DoomedWaits(p: Params, s: State, place: Places, a: Action, w: nat, work: Work)
    requires Inv(p, s, place) && Step(p, s, a).Some? && !(ByWorker(a) && a.w == w)
    requires Doomed(s, w, work) && s.conns[work.conn].closes == 0
    ensures Doomed(Step(p, s, a).value, w, work)
  {
    StepKeepsFds(p, s, a, work.conn);
    if ByWorker(a) {
      WorkerSpares(s, a, w);
    } else if !a.Stop? {
      ListenerSpares(p, s, a, w);
    }
  }

  lemma {:induction false} DoomedStays(p: Params, actions: seq<Action>, more: seq<Action>, w: nat, work: Work)
    requires Run(p, actions).Some? && Run(p, actions + more).Some? && Doomed(Run(p, actions).value, w, work)
    ensures Doomed(Run(p, actions + more).value, w, work)
    decreases |more|
  {
    if more == [] {
      assert actions + more == actions;
    } else {
      var n := |more| - 1;
      RunLast(p, actions, more);
      DoomedStays(p, actions, more[..n], w, work);
      var s, a := Run(p, actions + more[..n]).value, more[n];
      var place := RunInv(p, actions + more[..n]);
      if s.conns[work.conn].closes == 1 {
        ClosedStays(p, s, place, a, work.conn);
      } else if ByWorker(a) && a.w == w {
        DoomedGoesOn(s, a, w, work);
      } else {
        DoomedWaits(p, s, place, a, w, work);
      }
    }
  }

  /** After a callback failed, or shutDown returned, the connection is never in epoll or in the queue again, in any
      continuation: it is closed, or still with the worker that will close it and cannot re-arm it. */
  lemma FailureCloses(p: Params, actions: seq<Action>, a: Action, more: seq<Action>, work: Work)
    requires Run(p, actions).Some? && Run(p, actions + [a] + more).Some? && Dooms(Run(p, actions).value, a, work)
    ensures var s := Run(p, actions + [a] + more).value;
            && work.conn < |s.conns|
            && (s.conns[work.conn].closes == 1 || IsAt(s, work, AtWorker(a.w)))
            && (forall spot :: IsAt(s, work, spot) ==> spot == AtWorker(a.w))
            && (IsAt(s, work, AtWorker(a.w)) ==> Run(p, actions + [a] + more + [Arm(a.w)]).None?)
  {
    var s := Run(p, actions).value;
    var place := RunInv(p, actions);
    RunPrefix(p, actions + [a], more);
    assert (actions + [a])[..|actions|] == actions;
    CallDooms(p, s, place, a, work);
    DoomedStays(p, actions + [a], more, a.w, work);
    DoomedSpots(p, actions + [a] + more, a.w, work);
  }

  lemma {:induction false} RunPrefix(p: Params, actions: seq<Action>, more: seq<Action>)
    requires Run(p, actions + more).Some?
    ensures Run(p, actions).Some?
    decreases |more|
  {
    if more == [] {
      assert actions + more == actions;
    } else {
      RunLast(p, actions, more);
      RunPrefix(p, actions, more[..|more| - 1]);
    }
  }

  lemma DoomedSpots(p: Params, actions: seq<Action>, w: nat, work: Work)
    requires Run(p, actions).Some? && Doomed(Run(p, actions).value, w, work)
    ensures var s := Run(p, actions).value;
            && (s.conns[work.conn].closes == 1 || IsAt(s, work, AtWorker(w)))
            && (forall spot :: IsAt(s, work, spot) ==> spot == AtWorker(w))
            && (IsAt(s, work, AtWorker(w)) ==> Run(p, actions + [Arm(w)]).None?)
  {
    var s := Run(p, actions).value;
    var place := RunInv(p, actions);
    assert (actions + [Arm(w)])[..|actions|] == actions;
    forall spot | IsAt(s, work, spot) ensures spot == AtWorker(w) {
      DoomedSpot(p, s, place, w, work, spot);
    }
    if IsAt(s, work, AtWorker(w)) {
      DoomedNotArmed(p, s, place, w, work);
    }
  }

  lemma DoomedSpot(p: Params, s: State, place: Places, w: nat, work: Work, spot: Spot)
    requires Inv(p, s, place) && Doomed(s, w, work) && IsAt(s, work, spot)
    ensures spot == AtWorker(w)
  {
    SpotIsOpen(p, s, place, work, spot);
    SpotIsUnique(p, s, place, work, spot, AtWorker(w));
  }

  lemma DoomedNotArmed(p: Params, s: State, place: Places, w: nat, work: Work)
    requires Inv(p, s, place) && Doomed(s, w, work) && IsAt(s, work, AtWorker(w))
    ensures Step(p, s, Arm(w)).None?
  {
    SpotIsOpen(p, s, place, work, AtWorker(w));
  }

  /** What is somewhere is open. */
  lemma SpotIsOpen(p: Params, s: State, place: Places, work: Work, spot: Spot)
    requires Inv(p, s, place) && IsAt(s, work, spot)
    ensures work.conn < |s.conns| && s.conns[work.conn].closes == 0
  {
    assert work.fd in s.sh.kernel && s.sh.kernel[work.fd] == work.conn;
  }

  // ---- work is taken in the order in which it was pushed ----

  /** What the action pushes: a freshly listed socket, or the client of an event. */
  function PushedBy(s: State, a: Action): seq<Work> {
    if a.PushNew? && s.phase.Listed? then [s.phase.sock]
    else if a.Handle? && s.batch != [] && s.batch[0].Ready? then [Work(s.batch[0].fd, s.batch[0].conn)]
    else []
  }

  /** All that was pushed in a run, in order. */
  function Pushed(p: Params, actions: seq<Action>): seq<Work> {
    if actions == [] then []
    else
      var before, a := actions[..|actions| - 1], actions[|actions| - 1];
      Pushed(p, before) + if Run(p, before).Some? then PushedBy(Run(p, before).value, a) else []
  }

  /** All that workers took, in order: what each serves after its Pop. */
  function Taken(p: Params, actions: seq<Action>): seq<Work> {
    if actions == [] then []
    else
      var before, a := actions[..|actions| - 1], actions[|actions| - 1];
      Taken(p, before) + if a.Pop? && Run(p, actions).Some? then TakenBy(Run(p, actions).value, a.w) else []
  }

  function TakenBy(s: State, w: nat): seq<Work> {
    if w in s.workers && s.workers[w].Serving? then [s.workers[w].work] else []
  }

  /** What is about to be pushed is a live entry. */
  predicate PushReady(s: State) {
    && (s.phase.Handling? && s.batch != [] ==> EventOk(s.sh.clients, s.sh.interest, s.batch[0]))
    && (s.phase.Listed? ==> NodeAlive(s.sh.clients, s.phase.sock))
  }

  lemma PushIsReady(p: Params, s: State, place: Places)
    requires Inv(p, s, place)
    ensures PushReady(s)
  {
  }

  lemma QueueStep(p: Params, s: State, a: Action)
    requires PushReady(s) && Step(p, s, a).Some?
    ensures var s' := Step(p, s, a).value;
            if a.Pop? then s.sh.workload == TakenBy(s', a.w) + s'.sh.workload && PushedBy(s, a) == []
            else s'.sh.workload == s.sh.workload + PushedBy(s, a)
  {
    if a.Handle? {
      HandlePushes(p, s);
    } else if a.PushNew? {
      NewPushes(p, s);
    } else if a.Pop? {
      PopTakes(s, a.w);
    } else if ByWorker(a) {
      WorkerLeavesQueue(s, a);
    } else if !a.Stop? {
      ListenerLeavesQueue(p, s, a);
    }
  }

  lemma HandlePushes(p: Params, s: State)
    requires ListenerStep(p, s, Handle).Some? && s.batch != [] && EventOk(s.sh.clients, s.sh.interest, s.batch[0])
    ensures ListenerStep(p, s, Handle).value.sh.workload == s.sh.workload + PushedBy(s, Handle)
  {
  }

  lemma NewPushes(p: Params, s: State)
    requires ListenerStep(p, s, PushNew).Some? && s.phase.Listed? && NodeAlive(s.sh.clients, s.phase.sock)
    ensures ListenerStep(p, s, PushNew).value.sh.workload == s.sh.workload + PushedBy(s, PushNew)
  {
  }

  lemma PopTakes(s: State, w: nat)
    requires w in s.workers && WorkerStep(s, Pop(w), w).Some?
    ensures var s' := WorkerStep(s, Pop(w), w).value; s.sh.workload == TakenBy(s', w) + s'.sh.workload
  {
  }

  lemma WorkerLeavesQueue(s: State, a: Action)
    requires ByWorker(a) && !a.Pop? && a.w in s.workers && WorkerStep(s, a, a.w).Some?
    ensures WorkerStep(s, a, a.w).value.sh.workload == s.sh.workload
  {
  }

  lemma ListenerLeavesQueue(p: Params, s: State, a: Action)
    requires ListenerStep(p, s, a).Some? && !a.Handle? && !a.PushNew?
    ensures ListenerStep(p, s, a).value.sh.workload == s.sh.workload
  {
  }

  /** First in, first out: what was pushed in a run is what workers took, followed by what is still queued. */
  lemma {:induction false} FirstInFirstOut(p: Params, actions: seq<Action>)
    requires Run(p, actions).Some?
    ensures Pushed(p, actions) == Taken(p, actions) + Run(p, actions).value.sh.workload
  {
    if actions != [] {
      var before, a := actions[..|actions| - 1], actions[|actions| - 1];
      FirstInFirstOut(p, before);
      var s, s' := Run(p, before).value, Run(p, actions).value;
      var place := RunInv(p, before);
      PushIsReady(p, s, place);
      QueueStep(p, s, a);
      Rejoins(Pushed(p, before), Taken(p, before), s.sh.workload, PushedBy(s, a),
              if a.Pop? then TakenBy(s', a.w) else [], s'.sh.workload);
    }
  }

  /** Something more is pushed, or an item is taken off the front. */
  lemma Rejoins(pushed: seq<Work>, taken: seq<Work>, queue: seq<Work>,
                more: seq<Work>, item: seq<Work>, rest: seq<Work>)
    requires pushed == taken + queue
    requires (item == [] && rest == queue + more) || (more == [] && queue == item + rest)
    ensures pushed + more == taken + item + rest
  {
    if more == [] && queue == item + rest {
      assert taken + item + rest == taken + (item + rest);
    }
  }
}
