/** src/util/LRUCache.ts: a cache that evicts by a sliding window of touch indices. */
module LruCaches {
  import opened GraphQLAst

  datatype Entry<V> = Entry(value: V, index: nat)

  /** The two fields of the class. */
  datatype CacheState<K(==), V> = CacheState(cache: map<K, Entry<V>>, index: nat)

  function AfterGet<K, V>(s: CacheState<K, V>, key: K): CacheState<K, V> {
    if key in s.cache then CacheState(s.cache[key := Entry(s.cache[key].value, s.index)], s.index + 1) else s
  }

  function AfterSet<K, V>(s: CacheState<K, V>, maxSize: nat, key: K, value: V): CacheState<K, V> {
    var cache := s.cache[key := Entry(value, s.index)];
    CacheState(if |cache| > maxSize then Window(cache, s.index + 1 - maxSize) else cache, s.index + 1)
  }

  function Window<K, V>(cache: map<K, Entry<V>>, minIndex: int): map<K, Entry<V>> {
    map k | k in cache && cache[k].index >= minIndex :: cache[k]
  }

  class LRUCache<K(==), V> {
    const maxSize: nat
    var cache: map<K, Entry<V>>
    var index: nat

    ghost function Abstract(): CacheState<K, V>
      reads this
    {
      CacheState(cache, index)
    }

    constructor (maxSize: nat)
      ensures this.maxSize == maxSize && Abstract() == CacheState(map[], 0)
    {
      this.maxSize, this.cache, this.index := maxSize, map[], 0;
    }

    method Get(key: K) returns (r: Option<V>)
      modifies this
      ensures Abstract() == AfterGet(old(Abstract()), key)
      ensures r == if key in old(cache) then Some(old(cache)[key].value) else None
    {
      if key in cache {
        var entry := cache[key];
        cache := cache[key := Entry(entry.value, index)];
        index := index + 1;
        r := Some(entry.value);
      } else {
        r := None;
      }
    }

    method Set(key: K, value: V)
      modifies this
      ensures Abstract() == AfterSet(old(Abstract()), maxSize, key, value)
    {
      cache := cache[key := Entry(value, index)];
      index := index + 1;
      if |cache| > maxSize {
        var minIndex := index - maxSize;
        ghost var before := cache;
        var todo := cache.Keys;
        while todo != {}
          invariant todo <= cache.Keys <= before.Keys && index == old(index) + 1
          invariant forall k | k in cache :: cache[k] == before[k]
          invariant forall k | k in before && k !in todo :: k in cache <==> before[k].index >= minIndex
          decreases |todo|
        {
          var k :| k in todo;
          if cache[k].index < minIndex {
            cache := cache - {k};
          }
          todo := todo - {k};
        }
        assert cache == Window(before, minIndex);
      }
    }

    method Size() returns (size: nat)
      ensures size == |cache|
    {
      size := |cache|;
    }
  }

  // ----- all histories of calls -----

  datatype Call<K, V> = Get(key: K) | Set(key: K, value: V)

  function Step<K, V>(s: CacheState<K, V>, maxSize: nat, call: Call<K, V>): CacheState<K, V> {
    match call
    case Get(key) => AfterGet(s, key)
    case Set(key, value) => AfterSet(s, maxSize, key, value)
  }

  function Run<K, V>(maxSize: nat, calls: seq<Call<K, V>>): CacheState<K, V> {
    if calls == [] then CacheState(map[], 0)
    else Step(Run(maxSize, calls[..|calls| - 1]), maxSize, calls[|calls| - 1])
  }

  /** The keys touched, oldest first: by every `set` and by every `get` that hits. */
  function Touches<K(==), V>(maxSize: nat, calls: seq<Call<K, V>>): seq<K> {
    if calls == [] then []
    else
      var before, last := calls[..|calls| - 1], calls[|calls| - 1];
      Touches(maxSize, before) + if last.Get? && last.key !in Run(maxSize, before).cache then [] else [last.key]
  }

  /** Position of the last touch of a key, -1 if there is none. */
  function LastTouch<K(==)>(touches: seq<K>, key: K): int {
    if touches == [] then -1
    else if touches[|touches| - 1] == key then |touches| - 1
    else LastTouch(touches[..|touches| - 1], key)
  }

  function LastSet<K(==), V>(calls: seq<Call<K, V>>, key: K): Option<V> {
    if calls == [] then None
    else
      var last := calls[|calls| - 1];
      if last.Set? && last.key == key then Some(last.value) else LastSet(calls[..|calls| - 1], key)
  }

  /** The lower end of the window of the last eviction, 0 before the first. */
  function Threshold<K(==), V>(maxSize: nat, calls: seq<Call<K, V>>): int {
    if calls == [] then 0
    else
      var before, last := calls[..|calls| - 1], calls[|calls| - 1];
      var s := Run(maxSize, before);
      if last.Set? && |s.cache.Keys + {last.key}| > maxSize then s.index + 1 - maxSize else Threshold(maxSize, before)
  }

  lemma LastTouchBound<K>(touches: seq<K>, key: K)
    ensures -1 <= LastTouch(touches, key) < |touches|
    ensures LastTouch(touches, key) >= 0 ==> touches[LastTouch(touches, key)] == key
    ensures forall i | LastTouch(touches, key) < i < |touches| :: touches[i] != key
  {
  }

  lemma ElementsBound<K>(s: seq<K>)
    ensures |set x | x in s| <= |s|
  {
    if s != [] {
      ElementsBound(s[1..]);
      assert (set x | x in s) == {s[0]} + set x | x in s[1..];
    }
  }

  /** Everything the state is, in terms of the calls alone. */
  ghost predicate Describes<K(!new), V>(s: CacheState<K, V>, maxSize: nat, calls: seq<Call<K, V>>) {
    && s.index == |Touches(maxSize, calls)|
    && Present(s, Touches(maxSize, calls), Threshold(maxSize, calls))
    && 0 <= Threshold(maxSize, calls) <= (if s.index < maxSize then 0 else s.index - maxSize)
    && (forall k | k in s.cache :: Some(s.cache[k].value) == LastSet(calls, k))
    && |s.cache| <= maxSize
  }

  /** Exactly the keys last touched at or after `threshold` are there, under their last touch. */
  ghost predicate Present<K(!new), V>(s: CacheState<K, V>, touches: seq<K>, threshold: int) {
    && (forall k :: k in s.cache <==> LastTouch(touches, k) >= 0 && LastTouch(touches, k) >= threshold)
    && forall k | k in s.cache :: s.cache[k].index == LastTouch(touches, k)
  }

  lemma TouchOneMore<K>(touches: seq<K>, key: K, k: K)
    ensures LastTouch(touches + [key], k) == if k == key then |touches| else LastTouch(touches, k)
  {
    assert (touches + [key])[..|touches|] == touches;
  }

  /** Distinct present keys were last touched at distinct positions of the window. */
  lemma PresentBound<K(!new), V>(s: CacheState<K, V>, touches: seq<K>, threshold: nat)
    requires Present(s, touches, threshold) && threshold <= |touches|
    ensures |s.cache| <= |touches| - threshold
  {
    var window := touches[threshold..];
    forall k | k in s.cache ensures k in window {
      LastTouchBound(touches, k);
      assert window[LastTouch(touches, k) - threshold] == k;
    }
    ElementsBound(window);
    SubsetSize(s.cache.Keys, set k | k in window);
  }

  lemma PresentAfterTouch<K(!new), V>(s: CacheState<K, V>, touches: seq<K>, threshold: int, key: K, value: V)
    requires Present(s, touches, threshold) && s.index == |touches| && threshold <= |touches|
    ensures Present(CacheState(s.cache[key := Entry(value, s.index)], s.index + 1), touches + [key], threshold)
  {
    forall k ensures LastTouch(touches + [key], k) == if k == key then |touches| else LastTouch(touches, k) {
      TouchOneMore(touches, key, k);
    }
  }

  lemma PresentAfterEviction<K(!new), V>(s: CacheState<K, V>, touches: seq<K>, threshold: int, minIndex: int)
    requires Present(s, touches, threshold) && threshold <= minIndex
    ensures Present(s.(cache := Window(s.cache, minIndex)), touches, minIndex)
  {
  }

  lemma {:induction false} RunDescribed<K(!new), V>(maxSize: nat, calls: seq<Call<K, V>>)
    ensures Describes(Run(maxSize, calls), maxSize, calls)
  {
    if calls != [] {
      var before, last := calls[..|calls| - 1], calls[|calls| - 1];
      RunDescribed(maxSize, before);
      assert calls == before + [last];
      match last
      case Get(key) => GetDescribed(maxSize, before, key);
      case Set(key, value) => SetDescribed(maxSize, before, key, value);
    }
  }

  /** The histories of one more call, without their recursion. */
  lemma OneMore<K(!new), V>(maxSize: nat, before: seq<Call<K, V>>, call: Call<K, V>)
    ensures var calls, s := before + [call], Run(maxSize, before);
            && Run(maxSize, calls) == Step(s, maxSize, call)
            && Touches(maxSize, calls) == Touches(maxSize, before) + (if call.Get? && call.key !in s.cache then [] else [call.key])
            && Threshold(maxSize, calls) == (if call.Set? && |s.cache.Keys + {call.key}| > maxSize then s.index + 1 - maxSize
                                             else Threshold(maxSize, before))
            && forall k :: LastSet(calls, k) == if call.Set? && call.key == k then Some(call.value) else LastSet(before, k)
  {
    assert (before + [call])[..|before|] == before;
  }

  lemma GetDescribed<K(!new), V>(maxSize: nat, before: seq<Call<K, V>>, key: K)
    requires Describes(Run(maxSize, before), maxSize, before)
    ensures Describes(Run(maxSize, before + [Get(key)]), maxSize, before + [Get(key)])
  {
    var s, touches, threshold := Run(maxSize, before), Touches(maxSize, before), Threshold(maxSize, before);
    OneMore(maxSize, before, Call<K, V>.Get(key));
    if key in s.cache {
      PresentAfterTouch(s, touches, threshold, key, s.cache[key].value);
      assert s.cache.Keys + {key} == s.cache.Keys;
    } else {
      assert touches + [] == touches;
    }
  }

  lemma SetDescribed<K(!new), V>(maxSize: nat, before: seq<Call<K, V>>, key: K, value: V)
    requires Describes(Run(maxSize, before), maxSize, before)
    ensures Describes(Run(maxSize, before + [Set(key, value)]), maxSize, before + [Set(key, value)])
  {
    var s, touches, threshold := Run(maxSize, before), Touches(maxSize, before), Threshold(maxSize, before);
    var mid := CacheState(s.cache[key := Entry(value, s.index)], s.index + 1);
    OneMore(maxSize, before, Set(key, value));
    assert mid.cache.Keys == s.cache.Keys + {key};
    PresentAfterTouch(s, touches, threshold, key, value);
    if |mid.cache| > maxSize {
      PresentBound(mid, touches + [key], threshold);
      PresentAfterEviction(mid, touches + [key], threshold, mid.index - maxSize);
      PresentBound(Run(maxSize, before + [Set(key, value)]), touches + [key], mid.index - maxSize);
    }
  }

  /** The present keys are a prefix of the keys ever touched, most recently touched first. */
  lemma MostRecentStay<K(!new), V>(maxSize: nat, calls: seq<Call<K, V>>, older: K, newer: K)
    requires older in Run(maxSize, calls).cache
    requires LastTouch(Touches(maxSize, calls), older) <= LastTouch(Touches(maxSize, calls), newer)
    ensures newer in Run(maxSize, calls).cache
  {
    RunDescribed(maxSize, calls);
  }

  /** A key touched within the last `maxSize` touches is present, with the value it was last set to. */
  lemma RecentlyTouchedIsPresent<K(!new), V>(maxSize: nat, calls: seq<Call<K, V>>, i: nat)
    requires i < |Touches(maxSize, calls)| && |Touches(maxSize, calls)| <= i + maxSize
    ensures var s, key := Run(maxSize, calls), Touches(maxSize, calls)[i];
            key in s.cache && LastSet(calls, key) == Some(s.cache[key].value)
  {
    RunDescribed(maxSize, calls);
    LastTouchBound(Touches(maxSize, calls), Touches(maxSize, calls)[i]);
  }

  lemma SizeBounded<K(!new), V>(maxSize: nat, calls: seq<Call<K, V>>)
    ensures |Run(maxSize, calls).cache| <= maxSize
  {
    RunDescribed(maxSize, calls);
  }

  lemma IndicesDistinct<K(!new), V>(maxSize: nat, calls: seq<Call<K, V>>, a: K, b: K)
    requires a in Run(maxSize, calls).cache && b in Run(maxSize, calls).cache && a != b
    ensures Run(maxSize, calls).cache[a].index != Run(maxSize, calls).cache[b].index
    ensures Run(maxSize, calls).cache[a].index < Run(maxSize, calls).index
  {
    RunDescribed(maxSize, calls);
    LastTouchBound(Touches(maxSize, calls), a);
    LastTouchBound(Touches(maxSize, calls), b);
  }

  lemma SetIsPresent<K, V>(s: CacheState<K, V>, maxSize: nat, key: K, value: V)
    ensures key in AfterSet(s, maxSize, key, value).cache ==> AfterSet(s, maxSize, key, value).cache[key].value == value
    ensures maxSize >= 1 ==> key in AfterSet(s, maxSize, key, value).cache
  {
  }

  /** An overflowing `set` leaves exactly the keys of the last `maxSize` touches, so hits can cost several entries. */
  lemma EvictionLeavesWindow<K(!new), V>(maxSize: nat, before: seq<Call<K, V>>, key: K, value: V, k: K)
    requires |Run(maxSize, before).cache.Keys + {key}| > maxSize
    ensures var calls := before + [Set(key, value)];
            var touches := Touches(maxSize, calls);
            k in Run(maxSize, calls).cache <==> |touches| >= maxSize && k in touches[|touches| - maxSize..]
  {
    var calls := before + [Set(key, value)];
    RunDescribed(maxSize, before);
    RunDescribed(maxSize, calls);
    OneMore(maxSize, before, Set(key, value));
    var touches := Touches(maxSize, calls);
    LastTouchInWindow(touches, |touches| - maxSize, k);
  }

  lemma LastTouchInWindow<K>(touches: seq<K>, start: nat, k: K)
    requires start <= |touches|
    ensures k in touches[start..] <==> LastTouch(touches, k) >= start
  {
    LastTouchBound(touches, k);
    if k in touches[start..] {
      var i :| 0 <= i < |touches| - start && touches[start..][i] == k;
      assert touches[start + i] == k;
    }
    if LastTouch(touches, k) >= start {
      assert touches[start..][LastTouch(touches, k) - start] == k;
    }
  }
}
