/** Every run of a cache: the recency list, the counters, and where the values that get returns come from. */
module CacheRuns {
  import opened Wrappers
  import opened CacheModel
  import opened CacheRecency

  datatype Action<K, V> =
    GetKey(key: K, call: Call<V>) | EraseKey(key: K) | ClearAll | SetMaxSize(n: nat) | SetLife(l: int)

  /** A load that succeeded: the value and when it was stamped. */
  datatype Loaded<V> = Loaded(value: V, time: nat)

  /** The cache, and beside it what an observer of the calls writes down: the time, a recency list, the last successful
      load of each key, and how many gets, calls of load, and failed reloads there were. */
  datatype World<!K, V> = World(
    state: State<K, V>, now: nat, recent: seq<K>, loaded: map<K, Loaded<V>>,
    gets: nat, loads: nat, failed: nat)

  function Start<K, V>(maxSize: nat, life: int): World<K, V> {
    World(State(map[], [], maxSize, life, 0, 0, 0), 0, [], map[], 0, 0, 0)
  }

  /** get calls load: the key is not cached, or its entry is too old. */
  predicate Loads<K, V>(s: State<K, V>, key: K, c: Call<V>) {
    key !in s.cache || Expired(s.life, s.cache[key], c.check)
  }

  function Step<K, V>(w: World<K, V>, a: Action<K, V>): World<K, V> {
    match a
    case GetKey(key, c) =>
      var (s, v) := Get(w.state, key, c);
      var load := Loads(w.state, key, c);
      w.(state := s, now := c.hit, gets := w.gets + 1,
         recent := Recent(w.recent, key, v.Some?, w.state.maxSize),
         loads := if load then w.loads + 1 else w.loads,
         failed := if load && key in w.state.cache && !c.ok then w.failed + 1 else w.failed,
         loaded := if load && c.ok then w.loaded[key := Loaded(c.value, c.load)] else w.loaded)
    case EraseKey(key) => w.(state := Erase(w.state, key), recent := Without(w.recent, key))
    case ClearAll => w.(state := Clear(w.state), recent := [])
    case SetMaxSize(n) => w.(state := w.state.(maxSize := n))
    case SetLife(l) => w.(state := w.state.(life := l))
  }

  function Run<K, V>(w: World<K, V>, run: seq<Action<K, V>>): World<K, V> {
    if run == [] then w else Step(Run(w, run[..|run| - 1]), run[|run| - 1])
  }

  /** The clock does not go back. */
  predicate Follows<K, V>(w: World<K, V>, a: Action<K, V>) { a.GetKey? ==> Timely(a.call, w.now) }

  ghost predicate Monotone<K, V>(w: World<K, V>, run: seq<Action<K, V>>) {
    run != [] ==> var n := |run| - 1; Monotone(w, run[..n]) && Follows(Run(w, run[..n]), run[n])
  }

  // --- Structure and counters

  ghost predicate Sound<K, V>(w: World<K, V>) {
    && Inv(w.state, w.now)
    && w.recent == Keys(w.state.lru)
    && w.state.hits + w.state.misses == w.gets
    && w.loads == w.state.misses + w.state.expired + w.failed
  }

  lemma StepSound<K, V>(w: World<K, V>, a: Action<K, V>)
    requires Sound(w) && Follows(w, a)
    ensures Sound(Step(w, a))
  {
    match a
    case GetKey(key, c) => GetRefinesRecent(w.state, key, c, w.now);
    case EraseKey(key) => EraseRefinesWithout(w.state, key, w.now);
    case _ =>
  }

  /** In every run under a monotone clock: one pair of hit time and key per cached key; the multimap is in the order of
      the recency list; hits and misses add up to the gets; and load was called once for every miss, every expiry and
      every reload that failed. */
  lemma {:induction false} RunSound<K, V>(maxSize: nat, life: int, run: seq<Action<K, V>>)
    requires Monotone(Start(maxSize, life), run)
    ensures Sound(Run(Start(maxSize, life), run))
  {
    if run != [] {
      var n := |run| - 1;
      RunSound(maxSize, life, run[..n]);
      StepSound(Run(Start(maxSize, life), run[..n]), run[n]);
    }
  }

  /** The number of loads is misses plus expiries, as documented, exactly when no reload failed. */
  lemma DocumentedLoads<K, V>(maxSize: nat, life: int, run: seq<Action<K, V>>)
    requires Monotone(Start(maxSize, life), run)
    ensures var w := Run(Start(maxSize, life), run); w.loads == w.state.misses + w.state.expired <==> w.failed == 0
  {
    RunSound(maxSize, life, run);
  }

  // --- Where values come from

  /** A life_time change that does not make an entry younger: only from no aging at all, or to a shorter life. */
  predicate Tightens(before: int, after: int) { before <= 0 || 0 < after <= before }

  ghost predicate Tight<K, V>(w: World<K, V>, run: seq<Action<K, V>>) {
    run != [] ==> var n := |run| - 1;
      Tight(w, run[..n]) && (run[n].SetLife? ==> Tightens(Run(w, run[..n]).state.life, run[n].l))
  }

  /** Each entry is stamped with the last successful load of its key, and holds its value unless it is too old. */
  ghost predicate Genuine<K, V>(w: World<K, V>) {
    forall k :: k in w.state.cache ==>
      var e := w.state.cache[k];
      && k in w.loaded && e.load == w.loaded[k].time
      && (e.value == w.loaded[k].value || Expired(w.state.life, e, w.now))
  }

  lemma StaysExpired<V>(life: int, e: Entry<V>, now: nat, later: nat)
    requires now <= later && Expired(life, e, now)
    ensures Expired(life, e, later)
  {}

  lemma StepGenuine<K, V>(w: World<K, V>, a: Action<K, V>)
    requires Sound(w) && Genuine(w) && Follows(w, a)
    requires a.SetLife? ==> Tightens(w.state.life, a.l)
    ensures Genuine(Step(w, a))
  {
    var w' := Step(w, a);
    forall k | k in w'.state.cache
      ensures var e := w'.state.cache[k];
        && k in w'.loaded && e.load == w'.loaded[k].time
        && (e.value == w'.loaded[k].value || Expired(w'.state.life, e, w'.now))
    {
      if k in w.state.cache && Expired(w.state.life, w.state.cache[k], w.now) {
        StaysExpired(w.state.life, w.state.cache[k], w.now, w'.now);
      }
      if a.GetKey? && a.key in w.state.cache && Expired(w.state.life, w.state.cache[a.key], a.call.check) {
        StaysExpired(w.state.life, w.state.cache[a.key], a.call.check, w'.now);
      }
    }
  }

  lemma {:induction false} RunGenuine<K, V>(maxSize: nat, life: int, run: seq<Action<K, V>>)
    requires Monotone(Start(maxSize, life), run) && Tight(Start(maxSize, life), run)
    ensures Genuine(Run(Start(maxSize, life), run))
  {
    if run != [] {
      var n := |run| - 1;
      RunGenuine(maxSize, life, run[..n]);
      RunSound(maxSize, life, run[..n]);
      StepGenuine(Run(Start(maxSize, life), run[..n]), run[n]);
    }
  }

  /** After every run in which life_time is fixed, or only tightened, a value that get returns is the one of the last
      successful load of its key, never one that a failed reload wrote into the entry; and with a positive life_time
      it was stamped less than life_time + 1 seconds before the check. */
  lemma GetReturnsLastLoad<K, V>(maxSize: nat, life: int, run: seq<Action<K, V>>, key: K, c: Call<V>)
    requires Monotone(Start(maxSize, life), run) && Tight(Start(maxSize, life), run)
    requires Timely(c, Run(Start(maxSize, life), run).now)
    ensures
      var w: World<K, V> := Run(Start(maxSize, life), run);
      var v, w' := Get(w.state, key, c).1, Step(w, GetKey(key, c));
      && (v.Some? ==> key in w'.loaded && v.value == w'.loaded[key].value)
      && (v.Some? && !Loads(w.state, key, c) && w.state.life > 0 ==>
          c.check - w'.loaded[key].time < (w.state.life + 1) * 1_000_000_000)
  {
    RunGenuine(maxSize, life, run);
    RunSound(maxSize, life, run);
    var w: World<K, V> := Run(Start(maxSize, life), run);
    if key in w.state.cache && Expired(w.state.life, w.state.cache[key], w.now) {
      StaysExpired(w.state.life, w.state.cache[key], w.now, c.check);
    }
  }

  // --- When load is called

  /** Each entry is stamped with the time of the last successful load of its key. */
  ghost predicate Stamped<K, V>(w: World<K, V>) {
    forall k :: k in w.state.cache ==> k in w.loaded && w.state.cache[k].load == w.loaded[k].time
  }

  lemma StepStamped<K, V>(w: World<K, V>, a: Action<K, V>)
    requires Stamped(w)
    ensures Stamped(Step(w, a))
  {}

  lemma {:induction false} RunStamped<K, V>(maxSize: nat, life: int, run: seq<Action<K, V>>)
    ensures Stamped(Run(Start(maxSize, life), run))
  {
    if run != [] {
      var n := |run| - 1;
      RunStamped(maxSize, life, run[..n]);
      StepStamped(Run(Start(maxSize, life), run[..n]), run[n]);
    }
  }

  /** An entry loaded at `loaded` may answer at time t, in nanoseconds: entries do not age, or it is less than
      life_time + 1 seconds old. */
  predicate Lives(life: int, loaded: nat, t: nat) {
    life <= 0 || t - loaded < (life + 1) * 1_000_000_000
  }

  lemma LivesUnlessExpired<V>(life: int, e: Entry<V>, t: nat)
    requires e.load <= t
    ensures Lives(life, e.load, t) <==> !Expired(life, e, t)
  {}

  /** After every run, get calls load exactly when the key is not cached or its last successful load is life_time + 1
      seconds old or more. Without a load the answer is what is cached, whatever load would have done; with one it is
      what load delivers. */
  lemma LoadsExactly<K, V>(maxSize: nat, life: int, run: seq<Action<K, V>>, key: K, c: Call<V>)
    requires Monotone(Start(maxSize, life), run) && Timely(c, Run(Start(maxSize, life), run).now)
    ensures
      var w: World<K, V> := Run(Start(maxSize, life), run);
      var v, w' := Get(w.state, key, c).1, Step(w, GetKey(key, c));
      && (key in w.state.cache ==> key in w.loaded)
      && (w'.loads == w.loads <==> key in w.state.cache && Lives(w.state.life, w.loaded[key].time, c.check))
      && (w'.loads == w.loads ==> v == Some(w.state.cache[key].value) && w'.loaded == w.loaded)
      && (w'.loads != w.loads ==>
          && w'.loads == w.loads + 1
          && if c.ok then v == Some(c.value) && w'.loaded == w.loaded[key := Loaded(c.value, c.load)]
             else v == None && w'.loaded == w.loaded)
  {
    RunStamped(maxSize, life, run);
    RunSound(maxSize, life, run);
    var w: World<K, V> := Run(Start(maxSize, life), run);
    if key in w.state.cache {
      LivesUnlessExpired(w.state.life, w.state.cache[key], c.check);
    }
  }

  lemma RunThen<K, V>(w: World<K, V>, run: seq<Action<K, V>>, a: Action<K, V>)
    ensures Run(w, run + [a]) == Step(Run(w, run), a)
    ensures Monotone(w, run + [a]) <==> Monotone(w, run) && Follows(Run(w, run), a)
  {
    assert (run + [a])[..|run|] == run;
  }

  /** The world with one entry, stamped at 0, that now holds the value v. */
  function OneEntry<K, V>(life: int, key: K, loaded: V, v: V, now: nat, failed: nat): World<K, V> {
    World(State(map[key := Entry(0, 0, v)], [Stamp(0, key)], 1, life, failed, 1, 0), now, [key],
          map[key := Loaded(loaded, 0)], 1 + failed, 1 + failed, failed)
  }

  lemma FirstLoad<K, V>(life: int, key: K, v: V)
    ensures Step(Start(1, life), GetKey(key, Call(0, 0, 0, true, v))) == OneEntry(life, key, v, v, 0, 0)
  {
    var s: State<K, V> := Start(1, life).state;
    assert Insert(s.lru, Stamp(0, key)) == [Stamp(0, key)];
    assert |s.cache[key := Entry(0, 0, v)]| == 1;
  }

  lemma FailedReload<K, V>(life: int, key: K, loaded: V, junk: V, t: nat)
    requires life > 0 && t / 1_000_000_000 > life
    ensures Step(OneEntry(life, key, loaded, loaded, 0, 0), GetKey(key, Call(t, t, t, false, junk))) ==
            OneEntry(life, key, loaded, junk, t, 1)
  {}

  /** Any other change of life_time can bring out the value of a failed reload. */
  lemma LooseningExposes<K, V>(before: int, after: int, key: K, loaded: V, junk: V)
    returns (run: seq<Action<K, V>>, c: Call<V>)
    requires !Tightens(before, after)
    ensures Monotone(Start(1, before), run) && Timely(c, Run(Start(1, before), run).now)
    ensures Get(Run(Start(1, before), run).state, key, c).1 == Some(junk)
    ensures Run(Start(1, before), run).loaded == map[key := Loaded(loaded, 0)]
  {
    var t := (before + 1) * 1_000_000_000;
    c := Call(t, t, t, false, junk);
    var first, failing, change := GetKey(key, Call(0, 0, 0, true, loaded)), GetKey(key, c), SetLife(after);
    var w: World<K, V> := Start(1, before);
    FirstLoad(before, key, loaded);
    FailedReload(before, key, loaded, junk, t);
    RunThen(w, [], first);
    RunThen(w, [] + [first], failing);
    RunThen(w, [] + [first] + [failing], change);
    run := [] + [first] + [failing] + [change];
    assert Run(w, run) == OneEntry(after, key, loaded, junk, t, 1);
  }

  // --- Transparency

  /** Every call of load in the action answers as the function does; what a failing load writes is free. */
  predicate Answers<K, V(==)>(a: Action<K, V>, load: K -> Option<V>) {
    a.GetKey? ==> if a.call.ok then load(a.key) == Some(a.call.value) else load(a.key) == None
  }

  ghost predicate Faithful<K, V>(s: State<K, V>, load: K -> Option<V>) {
    forall k :: k in s.cache ==> load(k) == Some(s.cache[k].value)
  }

  lemma StepFaithful<K, V>(w: World<K, V>, a: Action<K, V>, load: K -> Option<V>)
    requires Faithful(w.state, load) && Answers(a, load)
    ensures Faithful(Step(w, a).state, load)
  {}

  lemma {:induction false} RunFaithful<K, V>(maxSize: nat, life: int, run: seq<Action<K, V>>, load: K -> Option<V>)
    requires forall i :: 0 <= i < |run| ==> Answers(run[i], load)
    ensures Faithful(Run(Start(maxSize, life), run).state, load)
  {
    if run != [] {
      var n := |run| - 1;
      RunFaithful(maxSize, life, run[..n], load);
      StepFaithful(Run(Start(maxSize, life), run[..n]), run[n], load);
    }
  }

  /** If load is a function of the key, every get of every run answers what a direct load would. */
  lemma Transparent<K, V>(maxSize: nat, life: int, run: seq<Action<K, V>>, load: K -> Option<V>, key: K, c: Call<V>)
    requires forall i :: 0 <= i < |run| ==> Answers(run[i], load)
    requires Answers(GetKey(key, c), load)
    ensures Get(Run(Start(maxSize, life), run).state, key, c).1 == load(key)
  {
    RunFaithful(maxSize, life, run, load);
  }
}
