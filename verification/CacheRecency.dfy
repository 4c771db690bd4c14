/** The multimap refines a plain recency list of keys. */
module CacheRecency {
  import opened Wrappers
  import opened CacheModel

  // --- The recency list

  function Without<K(==)>(r: seq<K>, key: K): seq<K> {
    if r == [] then [] else (if r[0] == key then [] else [r[0]]) + Without(r[1..], key)
  }

  /** A successful get moves the key to the back; a new key that does not fit pushes out the front. */
  function Recent<K(==)>(r: seq<K>, key: K, succeeds: bool, maxSize: nat): seq<K> {
    if !succeeds then r
    else if key in r then Without(r, key) + [key]
    else if |r| + 1 > maxSize then (r + [key])[1..]
    else r + [key]
  }

  lemma {:induction false} WithoutAbsent<K>(r: seq<K>, key: K)
    requires key !in r
    ensures Without(r, key) == r
  {
    if r != [] { WithoutAbsent(r[1..], key); }
  }

  lemma {:induction false} WithoutAt<K>(r: seq<K>, j: nat)
    requires j < |r| && forall i :: 0 <= i < |r| && i != j ==> r[i] != r[j]
    ensures Without(r, r[j]) == r[..j] + r[j + 1..]
    decreases j
  {
    if j == 0 {
      assert r[0] !in r[1..];
      WithoutAbsent(r[1..], r[0]);
    } else {
      WithoutAt(r[1..], j - 1);
      assert [r[0]] + (r[1..][..j - 1] + r[1..][j - 1 + 1..]) == r[..j] + r[j + 1..];
    }
  }

  // --- The multimap against the list

  lemma InsertAtBack<K>(lru: seq<Stamp<K>>, s: Stamp<K>)
    requires forall i :: 0 <= i < |lru| ==> lru[i].time <= s.time
    ensures Insert(lru, s) == lru + [s] && Keys(Insert(lru, s)) == Keys(lru) + [s.key]
  {}

  /** The pair of a cached key is found in the equal range of its hit time. */
  lemma PositionFound<K>(lru: seq<Stamp<K>>, j: nat)
    requires Sorted(lru) && Distinct(lru) && j < |lru|
    ensures Position(lru, lru[j].time, lru[j].key) == j
  {
    var t, key := lru[j].time, lru[j].key;
    var lo, hi := LowerBound(lru, t, 0), UpperBound(lru, t, 0);
    assert lo <= j < hi;
  }

  function Drop<K>(lru: seq<Stamp<K>>, j: nat): seq<Stamp<K>>
    requires j < |lru|
  {
    lru[..j] + lru[j + 1..]
  }

  lemma KeysDrop<K>(lru: seq<Stamp<K>>, j: nat)
    requires Distinct(lru) && j < |lru|
    ensures Keys(Drop(lru, j)) == Without(Keys(lru), lru[j].key)
  {
    WithoutAt(Keys(lru), j);
    assert Keys(Drop(lru, j)) == Keys(lru)[..j] + Keys(lru)[j + 1..];
  }

  lemma {:induction false} DistinctSize<K>(lru: seq<Stamp<K>>)
    requires Distinct(lru)
    ensures |set i | 0 <= i < |lru| :: lru[i].key| == |lru|
  {
    if lru != [] {
      var n := |lru| - 1;
      DistinctSize(lru[..n]);
      assert (set i | 0 <= i < |lru| :: lru[i].key) == (set i | 0 <= i < n :: lru[..n][i].key) + {lru[n].key};
    }
  }

  /** One pair per cached key. */
  lemma SizesAgree<K, V>(cache: map<K, Entry<V>>, lru: seq<Stamp<K>>)
    requires Distinct(lru) && Listed(cache, lru) && Covered(cache, lru)
    ensures |cache| == |lru|
  {
    DistinctSize(lru);
    assert (set i | 0 <= i < |lru| :: lru[i].key) == cache.Keys;
  }

  // --- What each operation does to the invariant and to the recency list

  lemma KeyListed<K>(lru: seq<Stamp<K>>, key: K)
    ensures key in Keys(lru) <==> exists i :: 0 <= i < |lru| && lru[i].key == key
  {
    if i :| 0 <= i < |lru| && lru[i].key == key {
      assert Keys(lru)[i] == key;
    }
  }

  /** Taking out one pair with its key. */
  lemma DropKeeps<K, V>(s: State<K, V>, j: nat, now: nat)
    requires Inv(s, now) && j < |s.lru|
    ensures Good(s.cache - {s.lru[j].key}, Drop(s.lru, j), now)
  {
    var lru := Drop(s.lru, j);
    DropSorts(s.lru, j);
    DropCovers(s.cache, s.lru, j);
    assert forall i :: 0 <= i < |lru| ==> lru[i] == s.lru[if i < j then i else i + 1];
  }

  lemma DropSorts<K>(lru: seq<Stamp<K>>, j: nat)
    requires Sorted(lru) && Distinct(lru) && j < |lru|
    ensures Sorted(Drop(lru, j)) && Distinct(Drop(lru, j))
  {
    assert forall i :: 0 <= i < |lru| - 1 ==> Drop(lru, j)[i] == lru[if i < j then i else i + 1];
  }

  lemma DropCovers<K, V>(cache: map<K, Entry<V>>, lru: seq<Stamp<K>>, j: nat)
    requires Covered(cache, lru) && j < |lru|
    ensures Covered(cache - {lru[j].key}, Drop(lru, j))
  {
    forall k | k in cache - {lru[j].key}
      ensures exists i :: 0 <= i < |Drop(lru, j)| && Drop(lru, j)[i].key == k
    {
      var m :| 0 <= m < |lru| && lru[m].key == k;
      assert Drop(lru, j)[if m < j then m else m - 1].key == k;
    }
  }

  lemma RemoveKeeps<K, V>(s: State<K, V>, key: K, now: nat)
    requires Inv(s, now) && key in s.cache
    ensures var lru := Remove(s.lru, s.cache[key].hit, key);
      && Good(s.cache - {key}, lru, now)
      && Keys(lru) == Without(Keys(s.lru), key)
      && Position(s.lru, s.cache[key].hit, key) < |s.lru|
  {
    var j :| 0 <= j < |s.lru| && s.lru[j].key == key;
    PositionFound(s.lru, j);
    assert Remove(s.lru, s.cache[key].hit, key) == Drop(s.lru, j);
    KeysDrop(s.lru, j);
    DropKeeps(s, j, now);
  }

  lemma AppendSorts<K>(lru: seq<Stamp<K>>, s: Stamp<K>)
    requires Sorted(lru) && Distinct(lru)
    requires forall i :: 0 <= i < |lru| ==> lru[i].time <= s.time && lru[i].key != s.key
    ensures Sorted(lru + [s]) && Distinct(lru + [s])
  {
  }

  lemma AppendCovers<K, V>(cache: map<K, Entry<V>>, lru: seq<Stamp<K>>, s: Stamp<K>, e: Entry<V>)
    requires Covered(cache, lru)
    ensures Covered(cache[s.key := e], lru + [s])
  {
    var more := cache[s.key := e];
    assert (lru + [s])[|lru|].key == s.key;
    forall k | k in more
      ensures exists i :: 0 <= i < |lru + [s]| && (lru + [s])[i].key == k
    {
      if k != s.key {
        var m :| 0 <= m < |lru| && lru[m].key == k;
        assert (lru + [s])[m].key == k;
      }
    }
  }

  /** Putting in a key hit now, after all others. */
  lemma InsertKeeps<K, V>(s: State<K, V>, key: K, e: Entry<V>, now: nat)
    requires Inv(s, now) && key !in s.cache && now <= e.hit && e.load <= e.hit
    ensures var lru := Insert(s.lru, Stamp(e.hit, key));
      && Good(s.cache[key := e], lru, e.hit)
      && lru == s.lru + [Stamp(e.hit, key)] && Keys(lru) == Keys(s.lru) + [key]
  {
    var stamp := Stamp(e.hit, key);
    InsertAtBack(s.lru, stamp);
    AppendSorts(s.lru, stamp);
    AppendCovers(s.cache, s.lru, stamp, e);
  }

  predicate Timely<V>(c: Call<V>, now: nat) { now <= c.check <= c.load <= c.hit }

  lemma FailedHitKeeps<K, V>(s: State<K, V>, key: K, c: Call<V>, now: nat)
    requires Inv(s, now) && key in s.cache && Timely(c, now) && Hit(s, key, c).1 == None
    ensures Inv(Hit(s, key, c).0, c.hit)
  {}

  /** updateLRU after a hit. */
  lemma MoveKeeps<K, V>(s: State<K, V>, key: K, e: Entry<V>, now: nat)
    requires Inv(s, now) && key in s.cache && now <= e.hit && e.load <= e.hit
    ensures var lru := Move(s.lru, s.cache[key].hit, Stamp(e.hit, key));
      Good(s.cache[key := e], lru, e.hit) && Keys(lru) == Without(Keys(s.lru), key) + [key]
  {
    RemoveKeeps(s, key, now);
    var rest := s.(cache := s.cache - {key}, lru := Remove(s.lru, s.cache[key].hit, key));
    assert s.cache[key := e] == rest.cache[key := e];
    InsertKeeps(rest, key, e, now);
  }

  lemma HitKeeps<K, V>(s: State<K, V>, key: K, c: Call<V>, now: nat)
    requires Inv(s, now) && key in s.cache && Timely(c, now)
    ensures var (s', v) := Hit(s, key, c);
      Inv(s', c.hit) && Keys(s'.lru) == Recent(Keys(s.lru), key, v.Some?, s.maxSize)
  {
    var (s', v) := Hit(s, key, c);
    KeyListed(s.lru, key);
    if v.Some? {
      assert s'.cache == s.cache[key := s'.cache[key]];
      MoveKeeps(s, key, s'.cache[key], now);
    } else {
      FailedHitKeeps(s, key, c, now);
    }
  }

  lemma EvictKeeps<K, V>(s: State<K, V>, now: nat)
    requires Inv(s, now) && s.lru != []
    ensures Inv(Evict(s), now) && Keys(Evict(s).lru) == Keys(s.lru)[1..]
  {
    assert Drop(s.lru, 0) == s.lru[1..];
    DropKeeps(s, 0, now);
    KeysTail(s.lru);
  }

  lemma KeysTail<K>(lru: seq<Stamp<K>>)
    requires lru != []
    ensures Keys(lru[1..]) == Keys(lru)[1..]
  {
  }

  lemma MissKeeps<K, V>(s: State<K, V>, key: K, c: Call<V>, now: nat)
    requires Inv(s, now) && key !in s.cache && Timely(c, now)
    ensures var (s', v) := Miss(s, key, c);
      Inv(s', c.hit) && Keys(s'.lru) == Recent(Keys(s.lru), key, v.Some?, s.maxSize)
  {
    if c.ok {
      var e := Entry(c.load, c.hit, c.value);
      InsertKeeps(s, key, e, now);
      var grown := s.(misses := s.misses + 1, cache := s.cache[key := e], lru := Insert(s.lru, Stamp(c.hit, key)));
      SizesAgree(grown.cache, grown.lru);
      EvictKeeps(grown, c.hit);
      KeyListed(s.lru, key);
    }
  }

  /** get: one pair per cached key stays true, and the multimap's order follows the recency list. */
  lemma GetRefinesRecent<K, V>(s: State<K, V>, key: K, c: Call<V>, now: nat)
    requires Inv(s, now) && Timely(c, now)
    ensures var (s', v) := Get(s, key, c);
      Inv(s', c.hit) && Keys(s'.lru) == Recent(Keys(s.lru), key, v.Some?, s.maxSize)
  {
    if key in s.cache { HitKeeps(s, key, c, now); } else { MissKeeps(s, key, c, now); }
  }

  lemma EraseRefinesWithout<K, V>(s: State<K, V>, key: K, now: nat)
    requires Inv(s, now)
    ensures Inv(Erase(s, key), now) && Keys(Erase(s, key).lru) == Without(Keys(s.lru), key)
    ensures key !in Erase(s, key).cache
  {
    if key in s.cache {
      RemoveKeeps(s, key, now);
    } else {
      KeyListed(s.lru, key);
      WithoutAbsent(Keys(s.lru), key);
    }
  }

  lemma HitKeepsKeys<K, V>(s: State<K, V>, key: K, c: Call<V>)
    requires key in s.cache
    ensures Hit(s, key, c).0.cache.Keys == s.cache.Keys
  {
  }

  lemma MissKeepsItsKey<K, V>(s: State<K, V>, key: K, c: Call<V>, now: nat)
    requires Inv(s, now) && Timely(c, now) && key !in s.cache && c.ok
    ensures var s' := Miss(s, key, c).0;
      && (s.maxSize >= 1 ==> key in s'.cache)
      && (forall k :: k in s.cache && k !in s'.cache ==> k == s.lru[0].key)
  {
    InsertKeeps(s, key, Entry(c.load, c.hit, c.value), now);
    SizesAgree(s.cache, s.lru);
  }

  lemma MissKeepsSize<K, V>(s: State<K, V>, key: K, c: Call<V>, now: nat)
    requires Inv(s, now) && Timely(c, now) && key !in s.cache
    ensures |Miss(s, key, c).0.cache| <= if |s.cache| > s.maxSize then |s.cache| else s.maxSize
  {
    if c.ok {
      var s' := Miss(s, key, c).0;
      MissKeeps(s, key, c, now);
      SizesAgree(s.cache, s.lru);
      SizesAgree(s'.cache, s'.lru);
      KeyListed(s.lru, key);
    } else {
      SizesAgree(s.cache, s.lru);
    }
  }

  /** A successful get leaves its key in the cache unless the cache may hold nothing, evicts at most the front of the
      recency list, and does not let the cache outgrow the larger of its size and max_size. */
  lemma GetKeepsItsKey<K, V>(s: State<K, V>, key: K, c: Call<V>, now: nat)
    requires Inv(s, now) && Timely(c, now)
    ensures var (s', v) := Get(s, key, c);
      && (v.Some? && s.maxSize >= 1 ==> key in s'.cache)
      && (forall k :: k in s.cache && k !in s'.cache ==> key !in s.cache && k == s.lru[0].key)
      && |s'.cache| <= if |s.cache| > s.maxSize then |s.cache| else s.maxSize
  {
    if key in s.cache {
      HitKeepsKeys(s, key, c);
      assert |Hit(s, key, c).0.cache.Keys| == |s.cache.Keys|;
    } else {
      MissKeepsSize(s, key, c, now);
      if c.ok { MissKeepsItsKey(s, key, c, now); }
    }
  }
}
