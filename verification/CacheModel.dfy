/** common::Cache: a map of entries and a multimap from hit times to keys. Times are in nanoseconds. */
module CacheModel {
  import opened Wrappers

  datatype Entry<V> = Entry(load: nat, hit: nat, value: V)

  /** A pair of the multimap lrumap_. */
  datatype Stamp<K> = Stamp(time: nat, key: K)

  datatype State<!K, V> = State(
    cache: map<K, Entry<V>>, lru: seq<Stamp<K>>, maxSize: nat, life: int,
    hits: nat, misses: nat, expired: nat)

  /** The clock readings of one get, in order, and what load does if it is called: succeed or not, and the value it
      writes. */
  datatype Call<V> = Call(check: nat, load: nat, hit: nat, ok: bool, value: V)

  // --- The multimap: sorted by time, an insertion goes after its equals

  function LowerBound<K>(lru: seq<Stamp<K>>, t: nat, i: nat): (n: nat)
    requires i <= |lru|
    ensures i <= n <= |lru| && (n < |lru| ==> lru[n].time >= t)
    ensures forall j :: i <= j < n ==> lru[j].time < t
    decreases |lru| - i
  {
    if i < |lru| && lru[i].time < t then LowerBound(lru, t, i + 1) else i
  }

  function UpperBound<K>(lru: seq<Stamp<K>>, t: nat, i: nat): (n: nat)
    requires i <= |lru|
    ensures i <= n <= |lru| && (n < |lru| ==> lru[n].time > t)
    ensures forall j :: i <= j < n ==> lru[j].time <= t
    decreases |lru| - i
  {
    if i < |lru| && lru[i].time <= t then UpperBound(lru, t, i + 1) else i
  }

  /** The first pair with the key in [i, n), or n. */
  function Find<K(==)>(lru: seq<Stamp<K>>, i: nat, n: nat, key: K): (j: nat)
    requires i <= n <= |lru|
    ensures i <= j <= n && (j < n ==> lru[j].key == key)
    ensures forall m :: i <= m < j ==> lru[m].key != key
    decreases n - i
  {
    if i < n && lru[i].key != key then Find(lru, i + 1, n, key) else i
  }

  /** The position of a pair, found in the equal range of its time; the length if there is none. */
  function Position<K(==)>(lru: seq<Stamp<K>>, t: nat, key: K): (j: nat)
    ensures j <= |lru| && (j < |lru| ==> lru[j].key == key && lru[j].time <= t)
  {
    var hi := UpperBound(lru, t, 0);
    var lo := LowerBound(lru, t, 0);
    var j := if lo <= hi then Find(lru, lo, hi, key) else hi;
    if j < hi then j else |lru|
  }

  function Insert<K>(lru: seq<Stamp<K>>, s: Stamp<K>): seq<Stamp<K>> {
    var n := UpperBound(lru, s.time, 0);
    lru[..n] + [s] + lru[n..]
  }

  function Remove<K(==)>(lru: seq<Stamp<K>>, t: nat, key: K): seq<Stamp<K>> {
    var j := Position(lru, t, key);
    if j < |lru| then lru[..j] + lru[j + 1..] else lru
  }

  /** updateLRU */
  function Move<K(==)>(lru: seq<Stamp<K>>, t: nat, s: Stamp<K>): seq<Stamp<K>> {
    if Position(lru, t, s.key) < |lru| then Insert(Remove(lru, t, s.key), s) else lru
  }

  // --- The operations

  predicate Expired<V>(life: int, e: Entry<V>, now: nat) {
    life > 0 && (now - e.load) / 1_000_000_000 > life
  }

  /** The load of an entry that is too old writes into the entry; only a success stamps it. */
  function Reloaded<K, V>(s: State<K, V>, key: K, c: Call<V>): State<K, V>
    requires key in s.cache
  {
    var e := s.cache[key].(value := c.value);
    if c.ok then s.(expired := s.expired + 1, cache := s.cache[key := e.(load := c.load)])
    else s.(cache := s.cache[key := e])
  }

  /** The new hit time of a cached key, and its new place in the multimap. */
  function Touched<K, V>(s: State<K, V>, key: K, t: nat): State<K, V>
    requires key in s.cache
  {
    s.(cache := s.cache[key := s.cache[key].(hit := t)], lru := Move(s.lru, s.cache[key].hit, Stamp(t, key)))
  }

  /** get on a cached key. */
  function Hit<K, V>(s: State<K, V>, key: K, c: Call<V>): (r: (State<K, V>, Option<V>))
    requires key in s.cache
  {
    var stale := Expired(s.life, s.cache[key], c.check);
    var counted := s.(hits := s.hits + 1);
    var s' := if stale then Reloaded(counted, key, c) else counted;
    if stale && !c.ok then (s', None) else (Touched(s', key, c.hit), Some(s'.cache[key].value))
  }

  /** removeLRU */
  function Evict<K, V>(s: State<K, V>): State<K, V> {
    if s.lru == [] then s else s.(cache := s.cache - {s.lru[0].key}, lru := s.lru[1..])
  }

  /** get on any other key. */
  function Miss<K, V>(s: State<K, V>, key: K, c: Call<V>): (r: (State<K, V>, Option<V>)) {
    if !c.ok then (s.(misses := s.misses + 1), None)
    else
      var s' := s.(misses := s.misses + 1, cache := s.cache[key := Entry(c.load, c.hit, c.value)],
                   lru := Insert(s.lru, Stamp(c.hit, key)));
      (if |s'.cache| > s'.maxSize then Evict(s') else s', Some(c.value))
  }

  function Get<K, V>(s: State<K, V>, key: K, c: Call<V>): (r: (State<K, V>, Option<V>)) {
    if key in s.cache then Hit(s, key, c) else Miss(s, key, c)
  }

  function Erase<K, V>(s: State<K, V>, key: K): State<K, V> {
    if key in s.cache then s.(lru := Remove(s.lru, s.cache[key].hit, key), cache := s.cache - {key}) else s
  }

  function Clear<K, V>(s: State<K, V>): State<K, V> { s.(cache := map[], lru := []) }

  // --- The invariant

  function Keys<K>(lru: seq<Stamp<K>>): (r: seq<K>)
    ensures |r| == |lru|
  {
    seq(|lru|, i requires 0 <= i < |lru| => lru[i].key)
  }

  predicate Sorted<K>(lru: seq<Stamp<K>>) { forall i, j :: 0 <= i <= j < |lru| ==> lru[i].time <= lru[j].time }

  predicate Distinct<K(==)>(lru: seq<Stamp<K>>) { forall i, j :: 0 <= i < j < |lru| ==> lru[i].key != lru[j].key }

  /** Every pair of the multimap is the hit time of a cached key. */
  predicate Listed<K, V>(cache: map<K, Entry<V>>, lru: seq<Stamp<K>>) {
    forall i :: 0 <= i < |lru| ==> lru[i].key in cache && lru[i].time == cache[lru[i].key].hit
  }

  /** Every cached key has a pair. */
  ghost predicate Covered<K, V>(cache: map<K, Entry<V>>, lru: seq<Stamp<K>>) {
    forall k :: k in cache ==> exists i :: 0 <= i < |lru| && lru[i].key == k
  }

  ghost predicate Before<K, V>(cache: map<K, Entry<V>>, now: nat) {
    forall k :: k in cache ==> cache[k].hit <= now && cache[k].load <= now
  }

  /** The multimap holds exactly one pair per cached key, under its hit time, and nothing is later than now. */
  ghost predicate Good<K, V>(cache: map<K, Entry<V>>, lru: seq<Stamp<K>>, now: nat) {
    Sorted(lru) && Distinct(lru) && Listed(cache, lru) && Covered(cache, lru) && Before(cache, now)
  }

  ghost predicate Inv<K, V>(s: State<K, V>, now: nat) { Good(s.cache, s.lru, now) }
}
