/** The TCPListener methods as updates of an object's fields, each proved to be the atomic step the protocol uses. */
module ListenerObject {
  import opened SockStates
  import opened Wrappers
  import opened ListenerShared
  import opened ListenerProtocol

  class TCPListener {
    var clients: map<int, Entry>
    var workload: seq<Work>
    var workQSize: int
    var kernel: map<int, nat>
    var interest: map<int, bool>
    var fault: bool

    function View(): Shared
      reads this
    {
      Shared(clients, workload, workQSize, kernel, interest, fault)
    }

    constructor ()
      ensures View() == Init().sh
    {
      clients, workload, workQSize := map[], [], 0;
      kernel, interest, fault := map[], map[], false;
    }

    /** clients_[fd], which inserts a default entry when there is none. */
    method At(fd: int) returns (e: Entry)
      modifies this
      ensures e == Lookup(old(clients), fd)
      ensures View() == old(View()).(clients := old(clients)[fd := e], fault := old(fault) || fd !in old(clients))
    {
      if fd !in clients {
        clients := clients[fd := DEFAULT_ENTRY];
        fault := true;
      }
      e := clients[fd];
      assert clients == old(clients)[fd := e];
    }

    method DelPoll(socket: Socket)
      modifies this
      ensures View() == PollDel(old(View()), socket)
    {
      if socket.Socket? && socket.fd in interest {
        interest := interest - {socket.fd};
      } else {
        fault := true;
      }
    }

    method AddPoll(work: Work)
      modifies this
      ensures View() == PollAdd(old(View()), work)
    {
      if work.fd in kernel && kernel[work.fd] == work.conn && work.fd !in interest {
        interest := interest[work.fd := true];
      } else {
        fault := true;
      }
    }

    method Push(fd: int, state: SockState)
      modifies this
      ensures View() == PushWork(old(View()), fd, state)
    {
      var e := At(fd);
      clients := clients[fd := e.(state := Or(e.state, state))];
      assert clients == old(clients)[fd := e.(state := Or(e.state, state))];
      if e.socket.NoSocket? {
        fault := true;
      }
      workload := workload + [Work(fd, ConnOf(e.socket))];
      workQSize := workQSize + 1;
      if !state.isNew {
        DelPoll(e.socket);
      }
    }

    method Pop() returns (item: Option<Work>)
      modifies this
      ensures (View(), item) == PopWork(old(View()))
    {
      item := None;
      if |workload| > 0 {
        item := Some(workload[0]);
        workload := workload[1..];
        if !NodeAlive(clients, item.value) {
          fault := true;
        }
      }
    }

    method CloseSocket(work: Work)
      modifies this
      ensures View() == CloseFd(EraseClient(old(View()), work), work)
    {
      if !NodeAlive(clients, work) {
        fault := true;
      }
      clients := clients - {work.fd};
      if work.fd !in kernel || kernel[work.fd] != work.conn {
        fault := true;
      }
      kernel := kernel - {work.fd};
      interest := interest - {work.fd};
    }

    /** Run without interference: the protocol splits it after the decrement and, for a close, after the erase. */
    method Release(work: Work, done: SockState)
      modifies this
      ensures var sh := old(View()).(workQSize := old(workQSize) - 1);
              View() == if done.isShut then CloseFd(EraseClient(sh, work), work) else Rearm(sh, work, done)
    {
      workQSize := workQSize - 1;
      if done.isShut {
        CloseSocket(work);
      } else {
        AddPoll(work);
        var e := At(work.fd);
        clients := clients[work.fd := e.(state := Xor(e.state, done))];
        assert clients == old(clients)[work.fd := e.(state := Xor(e.state, done))];
      }
    }
  }

  // ---- the worker's inner loop body ----

  /** completion_state and the callbacks made, after `calls`, for a client in state `st` whose callbacks end with
      o1, o2 and o3. */
  function Serve(st: SockState, calls: seq<Callback>, o1: Outcome, o2: Outcome, o3: Outcome)
    : (SockState, seq<Callback>)
  {
    var d1 := if st.isNew then Completion(NONE, NEW, o1) else NONE;
    var d2 := if st.isRead then Completion(d1, READ, o2) else d1;
    var d3 := if st.isShut then Completion(d2, SHUT, o3) else d2;
    var c1 := if st.isNew then calls + [HandShake] else calls;
    var c2 := if st.isRead && !o2.ThrewBefore? then c1 + [ReadSocket] else c1;
    var c3 := if st.isShut then c2 + [ShutDown] else c2;
    (d3, c3)
  }

  /** One pass of TCPServer::run over an item, up to the call of releaseWork. */
  method ServeItem(listener: TCPListener, work: Work, o1: Outcome, o2: Outcome, o3: Outcome)
    returns (done: SockState, calls: seq<Callback>)
    requires NodeAlive(listener.clients, work)
    ensures (done, calls) == Serve(listener.clients[work.fd].state, [], o1, o2, o3)
    ensures var st := listener.clients[work.fd].state;
            && done.isNew == (st.isNew && o1.Returned?)
            && done.isRead == (st.isRead && o2.Returned?)
            && done.isShut == (|| (st.isNew && o1 == Returned(false)) || (st.isRead && o2 == Returned(false))
                               || (st.isShut && o3.Returned?))
            && calls == (if st.isNew then [HandShake] else [])
                        + (if st.isRead && !o2.ThrewBefore? then [ReadSocket] else [])
                        + (if st.isShut then [ShutDown] else [])
  {
    done, calls := NONE, [];
    if listener.clients[work.fd].state.isNew {
      calls := calls + [HandShake];
      if o1.Returned? {
        done := Or(done, NEW);
        if !o1.ok { done := Or(done, SHUT); }
      }
    }
    if listener.clients[work.fd].state.isRead {
      if !o2.ThrewBefore? {
        calls := calls + [ReadSocket];
      }
      if o2.Returned? {
        done := Or(done, READ);
        if !o2.ok { done := Or(done, SHUT); }
      }
    }
    if listener.clients[work.fd].state.isShut {
      calls := calls + [ShutDown];
      if o3.Returned? {
        done := Or(done, SHUT);
      }
    }
  }

  /** Worker w serves `work` and is at `stage`. */
  predicate ServingAt(s: State, w: nat, work: Work, stage: Stage, done: SockState) {
    && HasWorker(s, w, Serving(work, stage, done))
    && NodeAlive(s.sh.clients, work) && work.conn < |s.conns|
  }

  /** The effect of one callback action. */
  lemma CallbackEffect(s: State, w: nat, work: Work, stage: Stage, done: SockState, o: Outcome, a: Action,
                       wanted: bool, call: Callback, bit: SockState, next: Stage) returns (s': State)
    requires ServingAt(s, w, work, stage, done)
    requires var st := s.sh.clients[work.fd].state;
             || (stage, a, wanted, call, bit, next) == (AtNew, OnNew(w, o), st.isNew, HandShake, NEW, AtRead)
             || (stage, a, wanted, call, bit, next) == (AtRead, OnRead(w, o), st.isRead, ReadSocket, READ, AtShut)
             || (stage, a, wanted, call, bit, next) == (AtShut, OnShut(w, o), st.isShut, ShutDown, SHUT, AtRelease)
    requires o.ThrewBefore? ==> a.OnRead?
    ensures WorkerStep(s, a, w) == Some(s') && s'.sh == s.sh
    ensures ServingAt(s', w, work, next, if wanted then Completion(done, bit, o) else done)
    ensures s'.conns[work.conn].calls ==
              if wanted && !o.ThrewBefore? then s.conns[work.conn].calls + [call] else s.conns[work.conn].calls
  {
    s' := RunStage(s, w, wanted, call, bit, o, next);
  }

  /** The pass over an item is what the protocol's three callback steps amount to when nothing comes between them. */
  lemma ServeIsThreeSteps(s: State, w: nat, work: Work, o1: Outcome, o2: Outcome, o3: Outcome)
    returns (s1: State, s2: State, s3: State)
    requires ServingAt(s, w, work, AtNew, NONE)
    requires !o1.ThrewBefore? && !o3.ThrewBefore?
    ensures WorkerStep(s, OnNew(w, o1), w) == Some(s1)
    ensures w in s1.workers && WorkerStep(s1, OnRead(w, o2), w) == Some(s2)
    ensures w in s2.workers && WorkerStep(s2, OnShut(w, o3), w) == Some(s3)
    ensures var (done, calls) := Serve(s.sh.clients[work.fd].state, s.conns[work.conn].calls, o1, o2, o3);
            s3.sh == s.sh && ServingAt(s3, w, work, AtRelease, done) && s3.conns[work.conn].calls == calls
  {
    var st := s.sh.clients[work.fd].state;
    var d1 := if st.isNew then Completion(NONE, NEW, o1) else NONE;
    var d2 := if st.isRead then Completion(d1, READ, o2) else d1;
    s1 := CallbackEffect(s, w, work, AtNew, NONE, o1, OnNew(w, o1), st.isNew, HandShake, NEW, AtRead);
    s2 := CallbackEffect(s1, w, work, AtRead, d1, o2, OnRead(w, o2), st.isRead, ReadSocket, READ, AtShut);
    s3 := CallbackEffect(s2, w, work, AtShut, d2, o3, OnShut(w, o3), st.isShut, ShutDown, SHUT, AtRelease);
  }

  // ---- throttle ----

  const UINT32 := 0x1_0000_0000

  /** How often the throttle loop sleeps when its successive loads of work_q_sz_ are `loads`; c is its unsigned int. */
  function Sleeps(pending: nat, limit: nat, c: nat, loads: seq<nat>): nat
    requires c < UINT32
    decreases |loads|
  {
    if loads == [] || loads[0] < pending || c >= limit then 0
    else 1 + Sleeps(pending, limit, (c + 1) % UINT32, loads[1..])
  }

  method Throttle(maxQDepth: nat, limit: nat, first: nat, pending: nat, loads: seq<nat>) returns (sleeps: nat)
    ensures sleeps == if first > maxQDepth then Sleeps(pending, limit, 0, loads) else 0
  {
    sleeps := 0;
    if first > maxQDepth {
      var c, i := 0, 0;
      while i < |loads| && loads[i] >= pending && c < limit
        invariant 0 <= i <= |loads| && 0 <= c < UINT32
        invariant sleeps + Sleeps(pending, limit, c, loads[i..]) == Sleeps(pending, limit, 0, loads)
      {
        assert loads[i..][1..] == loads[i + 1..];
        c := (c + 1) % UINT32;
        sleeps := sleeps + 1;
        i := i + 1;
      }
    }
  }

  /** The loop sleeps once for each load from the first on that is at least `pending`, until one is below or the limit
      is reached; a limit that the unsigned int cannot hold is never reached. */
  lemma {:induction false} SleepsExactly(pending: nat, limit: nat, c: nat, loads: seq<nat>)
    requires c < UINT32 && c <= limit
    ensures var n := Sleeps(pending, limit, c, loads);
            && n <= |loads| && (forall i :: 0 <= i < n ==> loads[i] >= pending) && (limit < UINT32 ==> n <= limit - c)
            && (n == |loads| || loads[n] < pending || (limit < UINT32 && n == limit - c))
    decreases |loads|
  {
    if loads != [] && loads[0] >= pending && c < limit {
      SleepsExactly(pending, limit, (c + 1) % UINT32, loads[1..]);
      var n := Sleeps(pending, limit, c, loads);
      assert forall i :: 0 < i < n ==> loads[i] == loads[1..][i - 1];
    }
  }

  /** Whatever the workers do to work_q_sz_, the listener sleeps at most cycle_max_throttles times in one cycle,
      if and only if that limit fits the loop's unsigned int. */
  lemma ThrottleBound(limit: nat)
    ensures limit < UINT32 <==> forall pending: nat, loads: seq<nat> :: Sleeps(pending, limit, 0, loads) <= limit
  {
    if limit < UINT32 {
      forall pending: nat, loads: seq<nat> ensures Sleeps(pending, limit, 0, loads) <= limit {
        SleepsExactly(pending, limit, 0, loads);
      }
    } else {
      SleepsExactly(0, limit, 0, seq(limit + 1, _ => 0));
      assert Sleeps(0, limit, 0, seq(limit + 1, _ => 0)) > limit;
    }
  }
}
