/** The Cache object, whose methods compute the model's operations. Every call runs under the object's mutex. */
module CacheObject {
  import opened Wrappers
  import opened CacheModel

  class Cache<K(==), V> {
    var cache: map<K, Entry<V>>
    var lru: seq<Stamp<K>>
    var maxSize: nat
    var life: int
    var hits: nat
    var misses: nat
    var expired: nat

    function View(): State<K, V>
      reads this
    {
      State(cache, lru, maxSize, life, hits, misses, expired)
    }

    constructor (max_size: nat, life_time: int)
      ensures View() == State(map[], [], max_size, life_time, 0, 0, 0)
    {
      cache, lru, maxSize, life := map[], [], max_size, life_time;
      hits, misses, expired := 0, 0, 0;
    }

    /** The loop over equal_range in updateLRU and erase: the position of the pair, or the length if there is none. */
    method FindLRU(t: nat, key: K) returns (j: nat)
      ensures j == Position(lru, t, key)
    {
      var lo, hi := LowerBound(lru, t, 0), UpperBound(lru, t, 0);
      j := lo;
      while j < hi
        invariant lo <= j && (lo <= hi ==> j <= hi && Find(lru, lo, hi, key) == Find(lru, j, hi, key))
      {
        if lru[j].key == key {
          return;
        }
        j := j + 1;
      }
      j := |lru|;
    }

    method AddLRU(key: K)
      requires key in cache
      modifies `lru
      ensures lru == Insert(old(lru), Stamp(cache[key].hit, key))
    {
      var n := UpperBound(lru, cache[key].hit, 0);
      lru := lru[..n] + [Stamp(cache[key].hit, key)] + lru[n..];
    }

    method UpdateLRU(key: K, previous: nat)
      requires key in cache
      modifies `lru
      ensures lru == Move(old(lru), previous, Stamp(cache[key].hit, key))
    {
      var j := FindLRU(previous, key);
      if j < |lru| {
        lru := lru[..j] + lru[j + 1..];
        AddLRU(key);
      }
    }

    method RemoveLRU()
      requires lru != []
      modifies `cache, `lru
      ensures View() == Evict(old(View()))
    {
      cache := cache - {lru[0].key};
      lru := lru[1..];
    }

    /** The end of a hit. */
    method Touch(key: K, t: nat)
      requires key in cache
      modifies `cache, `lru
      ensures View() == Touched(old(View()), key, t)
    {
      var previous := cache[key].hit;
      cache := cache[key := cache[key].(hit := t)];
      UpdateLRU(key, previous);
    }

    /** A hit on an entry that is too old; load writes into the entry itself. */
    method Reload(key: K, c: Call<V>)
      requires key in cache
      modifies `cache, `expired
      ensures View() == Reloaded(old(View()), key, c)
    {
      var e := cache[key].(value := c.value);
      if c.ok {
        expired := expired + 1;
        e := e.(load := c.load);
      }
      cache := cache[key := e];
    }

    /** get of a cached key. */
    method GetCached(key: K, c: Call<V>) returns (value: Option<V>)
      requires key in cache
      modifies this
      ensures (View(), value) == Hit(old(View()), key, c)
    {
      hits := hits + 1;
      if life > 0 && (c.check - cache[key].load) / 1_000_000_000 > life {
        Reload(key, c);
        if !c.ok {
          return None;
        }
      }
      value := Some(cache[key].value);
      Touch(key, c.hit);
    }

    /** get of a key that is not cached. */
    method GetLoaded(key: K, c: Call<V>) returns (value: Option<V>)
      requires key !in cache
      modifies this
      ensures (View(), value) == Miss(old(View()), key, c)
    {
      misses := misses + 1;
      if !c.ok {
        return None;
      }
      cache := cache[key := Entry(c.load, c.hit, c.value)];
      AddLRU(key);
      if |cache| > maxSize {
        RemoveLRU();
      }
      value := Some(c.value);
    }

    /** get; None stands for false. The clock readings and what load would do are given by c. */
    method Get(key: K, c: Call<V>) returns (value: Option<V>)
      modifies this
      ensures (View(), value) == CacheModel.Get(old(View()), key, c)
    {
      if key in cache {
        value := GetCached(key, c);
      } else {
        value := GetLoaded(key, c);
      }
    }

    method Erase(key: K)
      modifies `cache, `lru
      ensures View() == CacheModel.Erase(old(View()), key)
    {
      if key in cache {
        var j := FindLRU(cache[key].hit, key);
        if j < |lru| {
          lru := lru[..j] + lru[j + 1..];
        }
        cache := cache - {key};
      }
    }

    method Clear()
      modifies `cache, `lru
      ensures View() == CacheModel.Clear(old(View()))
    {
      cache, lru := map[], [];
    }

    method SetMaxSize(n: nat)
      modifies `maxSize
      ensures View() == old(View()).(maxSize := n)
    {
      maxSize := n;
    }

    method SetMaxLifeTime(seconds: int)
      modifies `life
      ensures View() == old(View()).(life := seconds)
    {
      life := seconds;
    }
  }
}
