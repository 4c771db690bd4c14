/** What each conjunct of the ownership invariant survives: lemmas about one component at a time. */
module ListenerFrames {
  import opened SockStates
  import opened Wrappers
  import opened ListenerShared
  import opened ListenerProtocol
  import opened ListenerInvariant

  // ---- workers and the number of those serving ----

  lemma ServingSame(m: Workers, w: nat, k: Worker)
    requires w in m ==> m[w].Serving? == k.Serving?
    requires w !in m ==> !k.Serving?
    ensures ServingSet(m[w := k]) == ServingSet(m)
  {
  }

  lemma ServingMore(m: Workers, w: nat, k: Worker)
    requires w in m && !m[w].Serving? && k.Serving?
    ensures |ServingSet(m[w := k])| == |ServingSet(m)| + 1
  {
    assert ServingSet(m[w := k]) == ServingSet(m) + {w};
  }

  lemma ServingFewer(m: Workers, w: nat, k: Worker)
    requires w in m && m[w].Serving? && !k.Serving?
    ensures |ServingSet(m[w := k])| == |ServingSet(m)| - 1
  {
    assert ServingSet(m[w := k]) == ServingSet(m) - {w};
  }

  lemma SameWorkers(p: Params, m: Workers, w: nat, k: Worker, next: nat)
    requires PoolOk(p, m, next) && w in m
    ensures PoolOk(p, m[w := k], next)
  {
    assert m[w := k].Keys == m.Keys;
    assert |m[w := k].Keys| == |m[w := k]| && |m.Keys| == |m|;
  }

  // ---- a change that concerns one descriptor ----

  /** Clients and places agree on every descriptor but fd. */
  ghost predicate Elsewhere(c: Clients, pl: Places, c': Clients, pl': Places, fd: int) {
    forall g :: g != fd ==>
      && (g in c <==> g in c') && (g in c ==> c[g] == c'[g])
      && (g in pl <==> g in pl') && (g in pl ==> pl[g] == pl'[g])
  }

  lemma ElsewhereUpdate(c: Clients, pl: Places, fd: int, e: Entry, at: Place)
    ensures Elsewhere(c, pl, c[fd := e], pl[fd := at], fd)
  {
  }

  predicate At(pl: Places, fd: int, at: Place) {
    fd in pl && pl[fd] == at
  }

  predicate Held(pl: Places, fd: int) {
    fd in pl && pl[fd].HeldBy?
  }

  lemma QueueFrame(c: Clients, pl: Places, c': Clients, pl': Places, fd: int, workload: seq<Work>)
    requires QueueOk(c, workload, pl) && Elsewhere(c, pl, c', pl', fd)
    requires !At(pl, fd, Queued) && !At(pl', fd, Queued)
    ensures QueueOk(c', workload, pl')
  {
  }

  lemma InterestFrame(c: Clients, pl: Places, c': Clients, pl': Places, fd: int, interest: map<int, bool>, phase: Phase)
    requires InterestOk(interest, pl, phase) && Elsewhere(c, pl, c', pl', fd)
    requires !At(pl, fd, Registered) && !At(pl', fd, Registered)
    ensures InterestOk(interest, pl', phase)
  {
  }

  lemma InterestAdd(interest: map<int, bool>, pl: Places, fd: int, phase: Phase)
    requires InterestOk(interest, pl, phase) && !phase.SweepErased?
    ensures InterestOk(interest[fd := true], pl[fd := Registered], phase)
  {
  }

  lemma InterestRemove(interest: map<int, bool>, pl: Places, fd: int, phase: Phase)
    requires InterestOk(interest, pl, phase) && !phase.SweepErased?
    ensures InterestOk(interest - {fd}, pl[fd := Queued], phase)
  {
  }

  lemma HandFrame(c: Clients, pl: Places, c': Clients, pl': Places, fd: int, phase: Phase)
    requires HandOk(phase, pl) && Elsewhere(c, pl, c', pl', fd)
    requires !At(pl, fd, InHand) && !At(pl', fd, InHand)
    ensures HandOk(phase, pl')
  {
  }

  lemma QueuePop(c: Clients, workload: seq<Work>, pl: Places, w: nat)
    requires QueueOk(c, workload, pl) && workload != []
    ensures QueueOk(c, workload[1..], pl[workload[0].fd := HeldBy(w)])
  {
    var pl' := pl[workload[0].fd := HeldBy(w)];
    forall fd | fd in pl' && pl'[fd] == Queued
      ensures exists i :: 0 <= i < |workload[1..]| && workload[1..][i].fd == fd
    {
      var i :| 0 <= i < |workload| && workload[i].fd == fd;
      assert workload[1..][i - 1].fd == fd;
    }
  }

  lemma QueuePush(c: Clients, pl: Places, c': Clients, work: Work, workload: seq<Work>)
    requires QueueOk(c, workload, pl) && !At(pl, work.fd, Queued)
    requires Elsewhere(c, pl, c', pl[work.fd := Queued], work.fd) && NodeAlive(c', work)
    ensures QueueOk(c', workload + [work], pl[work.fd := Queued])
  {
    var wl, pl' := workload + [work], pl[work.fd := Queued];
    forall fd | fd in pl' && pl'[fd] == Queued ensures exists i :: 0 <= i < |wl| && wl[i].fd == fd {
      if fd == work.fd {
        assert wl[|workload|].fd == fd;
      } else {
        var i :| 0 <= i < |workload| && workload[i].fd == fd;
        assert wl[i].fd == fd;
      }
    }
  }

  lemma HeldFrame(c: Clients, pl: Places, c': Clients, pl': Places, fd: int, m: Workers)
    requires HeldOk(c, m, pl) && Elsewhere(c, pl, c', pl', fd)
    requires !Held(pl, fd) && !Held(pl', fd)
    ensures HeldOk(c', m, pl')
  {
  }

  /** A worker that holds nothing changes to another state in which it holds nothing. */
  lemma HeldIdle(c: Clients, m: Workers, pl: Places, w: nat, k: Worker)
    requires HeldOk(c, m, pl) && (w in m ==> !Holds(m[w])) && !Holds(k)
    ensures HeldOk(c, m[w := k], pl)
  {
  }

  lemma HeldTake(c: Clients, m: Workers, pl: Places, w: nat, k: Worker)
    requires HeldOk(c, m, pl) && (w in m ==> !Holds(m[w])) && Holds(k)
    requires NodeAlive(c, k.work) && !Held(pl, k.work.fd)
    ensures HeldOk(c, m[w := k], pl[k.work.fd := HeldBy(w)])
  {
  }

  /** A worker goes on with the item it holds. */
  lemma HeldOn(c: Clients, m: Workers, pl: Places, w: nat, k: Worker)
    requires HeldOk(c, m, pl) && w in m && Holds(m[w]) && Holds(k) && k.work == m[w].work
    ensures HeldOk(c, m[w := k], pl)
  {
  }

  /** A worker gives up the item it holds, and the client moves on. */
  lemma HeldGive(c: Clients, pl: Places, c': Clients, pl': Places, m: Workers, w: nat, k: Worker)
    requires HeldOk(c, m, pl) && w in m && Holds(m[w]) && !Holds(k)
    requires Elsewhere(c, pl, c', pl', m[w].work.fd) && !Held(pl', m[w].work.fd)
    ensures HeldOk(c', m[w := k], pl')
  {
  }

  // ---- callbacks ----

  /** Distinct clients have distinct connections. */
  lemma DistinctConns(kernel: Kernel, conns: seq<Conn>, c: Clients, fd: int, g: int)
    requires ConnsOk(kernel, conns) && ClientsOk(kernel, c) && fd in c && g in c && fd != g
    ensures c[fd].socket.conn != c[g].socket.conn
  {
  }

  /** A change to one client, to its connection's history and to one worker that holds no other client. */
  lemma CallsFrame(c: Clients, pl: Places, c': Clients, pl': Places, fd: int,
                   conns: seq<Conn>, conns': seq<Conn>, m: Workers, m': Workers)
    requires CallsOk(c, conns, m, pl) && Elsewhere(c, pl, c', pl', fd)
    requires forall g :: g in c && g != fd ==>
               c[g].socket.Socket? && c[g].socket.conn < |conns| &&
               c[g].socket.conn < |conns'| && conns'[c[g].socket.conn] == conns[c[g].socket.conn]
    requires forall g :: g in c && g != fd && g in pl && pl[g].HeldBy? ==>
               pl[g].w in m && pl[g].w in m' && m'[pl[g].w] == m[pl[g].w]
    requires fd in c' ==> fd in pl' && CallOk(c'[fd], pl'[fd], conns', m')
    ensures CallsOk(c', conns', m', pl')
  {
  }

  // ---- client entries ----

  /** The state word of a client changes. */
  lemma StateWord(kernel: Kernel, c: Clients, phase: Phase, lock: Lock, fd: int, st: SockState)
    requires ClientsOk(kernel, c) && KernelOk(kernel, c, phase, lock) && TransitOk(kernel, c, phase, lock) && fd in c
    ensures var c' := c[fd := c[fd].(state := st)];
            ClientsOk(kernel, c') && KernelOk(kernel, c', phase, lock) && TransitOk(kernel, c', phase, lock)
            && c'.Keys == c.Keys && |c'| == |c|
  {
    var c' := c[fd := c[fd].(state := st)];
    assert c'.Keys == c.Keys;
    assert |c'| == |c'.Keys| && |c| == |c.Keys|;
  }

  /** Events survive a change to a client that is registered neither before nor after, and to its registration. */
  lemma BatchFrame(c: Clients, c': Clients, interest: map<int, bool>, interest': map<int, bool>, fd: int,
                   phase: Phase, batch: seq<Event>)
    requires BatchOk(c, interest, phase, batch)
    requires forall i :: 0 <= i < |batch| && batch[i].Ready? ==> batch[i].fd != fd
    requires forall g :: g != fd && g in c ==> g in c' && c'[g] == c[g]
    requires forall g :: g != fd && g in interest ==> g in interest' && interest'[g] == interest[g]
    ensures BatchOk(c', interest', phase, batch)
  {
  }

  lemma SmallerMap(c: Clients, fd: int)
    requires fd in c
    ensures |c - {fd}| == |c| - 1
  {
    assert (c - {fd}).Keys == c.Keys - {fd};
    assert |(c - {fd}).Keys| == |c - {fd}| && |c.Keys| == |c|;
  }

  lemma LargerMap(c: Clients, fd: int, e: Entry)
    requires fd !in c
    ensures |c[fd := e]| == |c| + 1
  {
    assert c[fd := e].Keys == c.Keys + {fd};
    assert |c[fd := e].Keys| == |c[fd := e]| && |c.Keys| == |c|;
  }

  // ---- closing a descriptor that is no longer listed ----

  function Closed(c: Conn): Conn {
    c.(closes := c.closes + 1)
  }

  lemma CloseConnsOk(kernel: Kernel, conns: seq<Conn>, work: Work)
    requires ConnsOk(kernel, conns) && work.fd in kernel && kernel[work.fd] == work.conn
    ensures work.conn < |conns| && ConnsOk(kernel - {work.fd}, conns[work.conn := Closed(conns[work.conn])])
  {
  }

  lemma CloseHistories(conns: seq<Conn>, c: nat)
    requires HistoriesOk(conns) && c < |conns|
    ensures HistoriesOk(conns[c := Closed(conns[c])])
  {
  }

  lemma CloseClientsOk(kernel: Kernel, c: Clients, fd: int)
    requires ClientsOk(kernel, c) && fd !in c
    ensures ClientsOk(kernel - {fd}, c)
  {
  }

  /** The descriptor in transit through the mutex is closed and the mutex released. */
  lemma CloseTransit(kernel: Kernel, c: Clients, phase: Phase, phase': Phase, lock: Lock)
    requires KernelOk(kernel, c, phase, lock) && TransitOk(kernel, c, phase, lock) && lock.Closing?
    requires phase' == phase || (phase.SweepErased? && phase'.Sweeping?)
    ensures KernelOk(kernel - {lock.work.fd}, c, phase', Free) && TransitOk(kernel - {lock.work.fd}, c, phase', Free)
  {
  }

  lemma CloseCalls(kernel: Kernel, c: Clients, conns: seq<Conn>, m: Workers, m': Workers, pl: Places, work: Work)
    requires ConnsOk(kernel, conns) && ClientsOk(kernel, c) && CallsOk(c, conns, m, pl)
    requires Unlisted(kernel, c, work)
    requires forall w :: w in m && Holds(m[w]) ==> w in m' && m'[w] == m[w]
    ensures work.conn < |conns| && CallsOk(c, conns[work.conn := Closed(conns[work.conn])], m', pl)
  {
    var conns' := conns[work.conn := Closed(conns[work.conn])];
    forall g | g in c ensures g in pl && CallOk(c[g], pl[g], conns', m') {
      assert CallOk(c[g], pl[g], conns, m);
      assert c[g].socket.conn == kernel[g] && kernel[g] != work.conn;
    }
  }

  // ---- erasing a client entry ----

  /** The entry of a client goes away and a thread is left holding the mutex and the open descriptor. */
  lemma EraseClientsOk(kernel: Kernel, c: Clients, phase: Phase, phase': Phase, work: Work, owner: Option<nat>)
    requires ClientsOk(kernel, c) && KernelOk(kernel, c, phase, Free) && TransitOk(kernel, c, phase, Free)
    requires NodeAlive(c, work) && !(phase.Listed? && phase.sock.fd == work.fd)
    requires phase' == phase || (phase.Sweeping? && phase'.SweepErased?)
    ensures var c' := c - {work.fd};
            && ClientsOk(kernel, c') && KernelOk(kernel, c', phase', Closing(work, owner))
            && TransitOk(kernel, c', phase', Closing(work, owner))
  {
  }

  lemma EraseCalls(c: Clients, conns: seq<Conn>, m: Workers, m': Workers, pl: Places, fd: int)
    requires CallsOk(c, conns, m, pl)
    requires forall g :: g in c && g != fd && g in pl && pl[g].HeldBy? && pl[g].w in m ==>
               pl[g].w in m' && m'[pl[g].w] == m[pl[g].w]
    ensures CallsOk(c - {fd}, conns, m', pl - {fd})
  {
    forall g | g in c - {fd} ensures g in pl - {fd} && CallOk((c - {fd})[g], (pl - {fd})[g], conns, m') {
      assert g in c && CallOk(c[g], pl[g], conns, m);
    }
  }
}
