/** The ordered dictionary behind `AsyncKeyedCache` (sdk/asynccache.py): entries from the least to the most recently
    touched, and what bounding it keeps. */
module LruStore {
  import opened Basics

  datatype Entry<K, V> = Entry(key: K, value: V)

  /** An `OrderedDict`, first entry first. */
  type Store<K, V> = seq<Entry<K, V>>

  ghost predicate DistinctKeys<K(!new), V(!new)>(s: Store<K, V>) {
    forall i, j :: 0 <= i < j < |s| ==> s[i].key != s[j].key
  }

  predicate HasKey<K(==), V>(s: Store<K, V>, k: K) {
    exists i :: 0 <= i < |s| && s[i].key == k
  }

  function Get<K(==), V>(s: Store<K, V>, k: K): Option<V> {
    if s == [] then None else if s[0].key == k then Some(s[0].value) else Get(s[1..], k)
  }

  function Without<K(==), V>(s: Store<K, V>, k: K): Store<K, V> {
    if s == [] then [] else (if s[0].key == k then [] else [s[0]]) + Without(s[1..], k)
  }

  /** `store[key] = value` and `move_to_end(key)`. */
  function Touch<K(==), V>(s: Store<K, V>, k: K, v: V): Store<K, V> {
    Without(s, k) + [Entry(k, v)]
  }

  function TouchAll<K(==), V>(s: Store<K, V>, items: seq<Entry<K, V>>): Store<K, V> {
    if items == [] then s
    else var last := items[|items| - 1]; Touch(TouchAll(s, items[..|items| - 1]), last.key, last.value)
  }

  /** What `_evict` leaves: at most `maxsize` entries, the last ones. */
  function Truncate<K, V>(s: Store<K, V>, maxsize: Option<nat>): (r: Store<K, V>)
    ensures maxsize.Some? ==> |r| <= maxsize.value
  {
    if maxsize.Some? && |s| > maxsize.value then s[|s| - maxsize.value..] else s
  }

  // ------------------------------------------------------------------------------------------------------
  // Removing and touching a key
  // ------------------------------------------------------------------------------------------------------

  lemma {:induction false} WithoutAppends<K(!new), V(!new)>(a: Store<K, V>, b: Store<K, V>, k: K)
    ensures Without(a + b, k) == Without(a, k) + Without(b, k)
  {
    if a == [] {
      assert a + b == b;
    } else {
      assert (a + b)[1..] == a[1..] + b;
      WithoutAppends(a[1..], b, k);
    }
  }

  lemma {:induction false} WithoutMissing<K(!new), V(!new)>(s: Store<K, V>, k: K)
    requires !HasKey(s, k)
    ensures Without(s, k) == s
  {
    if s != [] {
      assert s[0].key != k;
      assert forall i :: 0 <= i < |s[1..]| ==> s[1..][i] == s[i + 1];
      WithoutMissing(s[1..], k);
    }
  }

  lemma FirstTwoDiffer<K(!new), V(!new)>(s: Store<K, V>)
    requires |s| > 1 && DistinctKeys(s)
    ensures s[0].key != s[1].key
  {
  }

  lemma OnlyOne<K(!new), V(!new)>(s: Store<K, V>, k: K, i: nat)
    requires DistinctKeys(s) && i < |s| && s[i].key == k
    ensures !HasKey(s[..i], k) && !HasKey(s[i + 1..], k)
  {
  }

  lemma WithoutPresent<K(!new), V(!new)>(s: Store<K, V>, k: K, i: nat)
    requires DistinctKeys(s) && i < |s| && s[i].key == k
    ensures Without(s, k) == s[..i] + s[i + 1..]
  {
    hide DistinctKeys;
    assert !HasKey(s[..i], k) && !HasKey(s[i + 1..], k) by { OnlyOne(s, k, i); }
    WithoutAppends(s[..i], s[i..], k);
    assert s[..i] + s[i..] == s;
    WithoutMissing(s[..i], k);
    assert s[i..][1..] == s[i + 1..];
    WithoutMissing(s[i + 1..], k);
  }

  lemma WithoutKeeps<K(!new), V(!new)>(s: Store<K, V>, k: K)
    requires DistinctKeys(s)
    ensures DistinctKeys(Without(s, k)) && !HasKey(Without(s, k), k)
    ensures forall e :: e in Without(s, k) <==> e in s && e.key != k
    ensures |Without(s, k)| == if HasKey(s, k) then |s| - 1 else |s|
  {
    if HasKey(s, k) {
      var i :| 0 <= i < |s| && s[i].key == k;
      WithoutPresent(s, k, i);
    } else {
      WithoutMissing(s, k);
    }
  }

  lemma TouchKeeps<K(!new), V(!new)>(s: Store<K, V>, k: K, v: V)
    requires DistinctKeys(s)
    ensures DistinctKeys(Touch(s, k, v))
    ensures forall e :: e in Touch(s, k, v) <==> e == Entry(k, v) || (e in s && e.key != k)
    ensures |Touch(s, k, v)| == if HasKey(s, k) then |s| else |s| + 1
  {
    WithoutKeeps(s, k);
    hide Without;
    assert forall i :: 0 <= i < |Without(s, k)| ==> Without(s, k)[i].key != k;
  }

  lemma {:induction false} TouchAllKeeps<K(!new), V(!new)>(s: Store<K, V>, items: seq<Entry<K, V>>)
    requires DistinctKeys(s)
    ensures DistinctKeys(TouchAll(s, items))
  {
    hide DistinctKeys, Touch;
    if items != [] {
      TouchAllKeeps(s, items[..|items| - 1]);
      var last := items[|items| - 1];
      TouchKeeps(TouchAll(s, items[..|items| - 1]), last.key, last.value);
    }
  }

  /** `Get` finds the one entry of a key. */
  lemma {:induction false} GetFinds<K(!new), V(!new)>(s: Store<K, V>, k: K)
    requires DistinctKeys(s)
    ensures Get(s, k).Some? <==> HasKey(s, k)
    ensures forall v :: Get(s, k) == Some(v) <==> Entry(k, v) in s
  {
    if s != [] {
      GetFinds(s[1..], k);
      assert s == [s[0]] + s[1..];
      if s[0].key == k {
        assert forall v :: Entry(k, v) in s ==> v == s[0].value;
      } else if HasKey(s, k) {
        var i :| 0 <= i < |s| && s[i].key == k;
        assert s[1..][i - 1].key == k;
      }
    }
  }

  // ------------------------------------------------------------------------------------------------------
  // Bounding commutes with touching
  // ------------------------------------------------------------------------------------------------------

  /** Entries that bounding would drop do not matter to a later touch: bounding at once and bounding at the end agree.
      */
  lemma TruncateTouch<K(!new), V(!new)>(s: Store<K, V>, k: K, v: V, m: Option<nat>)
    requires DistinctKeys(s)
    ensures Truncate(Touch(Truncate(s, m), k, v), m) == Truncate(Touch(s, k, v), m)
  {
    hide Without, DistinctKeys;
    if m.Some? && |s| > m.value {
      var cut := |s| - m.value;
      var dropped, kept := s[..cut], s[cut..];
      assert s == dropped + kept;
      WithoutAppends(dropped, kept, k);
      TruncateKeeps(s, m);
      WithoutKeeps(kept, k);
      TailOfAppend(Without(dropped, k), Touch(kept, k, v), m.value);
      assert Touch(s, k, v) == Without(dropped, k) + Touch(kept, k, v);
    }
  }

  lemma TailOfAppend<K(!new), V(!new)>(a: Store<K, V>, b: Store<K, V>, m: nat)
    requires |b| >= m
    ensures Truncate(a + b, Some(m)) == Truncate(b, Some(m))
  {
  }

  /** Truncation drops the first entry of a store over the bound. */
  lemma TruncateDropsHead<K(!new), V(!new)>(s: Store<K, V>, m: nat)
    requires |s| > m
    ensures Truncate(s[1..], Some(m)) == Truncate(s, Some(m))
  {
    if |s| > m + 1 { assert s[1..][|s| - 1 - m..] == s[|s| - m..]; }
  }

  lemma TruncateFits<K(!new), V(!new)>(s: Store<K, V>, m: Option<nat>)
    requires m.Some? ==> |s| <= m.value
    ensures Truncate(s, m) == s
  {
  }

  /** Any number of touches, each bounded, end like the touches bounded once. */
  lemma {:induction false} TruncateTouchAll<K(!new), V(!new)>(s: Store<K, V>, items: seq<Entry<K, V>>, m: Option<nat>)
    requires DistinctKeys(s)
    ensures Truncate(TouchAll(Truncate(s, m), items), m) == Truncate(TouchAll(s, items), m)
  {
    hide Touch, Truncate, DistinctKeys;
    if items == [] {
      TruncateTwice(s, m);
    } else {
      var n := |items| - 1;
      var last := items[n];
      TruncateTouchAll(s, items[..n], m);
      TruncateKeeps(s, m);
      TouchAllKeeps(s, items[..n]);
      TouchAllKeeps(Truncate(s, m), items[..n]);
      TruncateTouch(TouchAll(s, items[..n]), last.key, last.value, m);
      TruncateTouch(TouchAll(Truncate(s, m), items[..n]), last.key, last.value, m);
    }
  }

  lemma TruncateTwice<K(!new), V(!new)>(s: Store<K, V>, m: Option<nat>)
    ensures Truncate(Truncate(s, m), m) == Truncate(s, m)
  {
  }

  lemma TruncateKeeps<K(!new), V(!new)>(s: Store<K, V>, m: Option<nat>)
    requires DistinctKeys(s)
    ensures DistinctKeys(Truncate(s, m))
  {
  }

  lemma {:induction false} TouchAllAppends<K(!new), V(!new)>(s: Store<K, V>, a: seq<Entry<K, V>>, b: seq<Entry<K, V>>)
    ensures TouchAll(s, a + b) == TouchAll(TouchAll(s, a), b)
  {
    if b == [] {
      assert a + b == a;
    } else {
      assert (a + b)[..|a + b| - 1] == a + b[..|b| - 1];
      TouchAllAppends(s, a, b[..|b| - 1]);
    }
  }

  // ------------------------------------------------------------------------------------------------------
  // Recency
  // ------------------------------------------------------------------------------------------------------

  /** When `k` was last touched; -1 if never. */
  function LastTouch<K(==), V>(h: seq<Entry<K, V>>, k: K): (n: int)
    ensures -1 <= n < |h|
    ensures n >= 0 ==> h[n].key == k
    ensures forall m :: n < m < |h| ==> h[m].key != k
  {
    if h == [] then -1
    else if h[|h| - 1].key == k then |h| - 1
    else LastTouch(h[..|h| - 1], k)
  }

  /** Every entry of `s` is its key's last touch, and they come in the order of those touches. */
  ghost predicate ByLastTouch<K(!new), V(!new)>(h: seq<Entry<K, V>>, s: Store<K, V>) {
    && (forall i :: 0 <= i < |s| ==> LastTouch(h, s[i].key) >= 0 && h[LastTouch(h, s[i].key)] == s[i])
    && (forall i, j :: 0 <= i < j < |s| ==> LastTouch(h, s[i].key) < LastTouch(h, s[j].key))
  }

  /** `s` lists what `h` touched, each key once with the value last given it, in the order of the last touches. */
  ghost predicate InRecencyOrder<K(!new), V(!new)>(h: seq<Entry<K, V>>, s: Store<K, V>) {
    ByLastTouch(h, s) && forall n :: 0 <= n < |h| ==> HasKey(s, h[n].key)
  }

  /** What a store without a bound holds after the touches `h`. */
  lemma {:induction false} TouchesAreInRecencyOrder<K(!new), V(!new)>(h: seq<Entry<K, V>>)
    ensures InRecencyOrder(h, TouchAll([], h))
  {
    if h != [] {
      TouchesAreInRecencyOrder(h[..|h| - 1]);
      TouchOrder(h, TouchAll([], h[..|h| - 1]));
    }
  }

  lemma TouchOrder<K(!new), V(!new)>(h: seq<Entry<K, V>>, s: Store<K, V>)
    requires h != [] && InRecencyOrder(h[..|h| - 1], s)
    ensures InRecencyOrder(h, Touch(s, h[|h| - 1].key, h[|h| - 1].value))
  {
    hide Without, LastTouch;
    var n := |h| - 1;
    var (k, v) := (h[n].key, h[n].value);
    assert DistinctKeys(s);
    var rest := Without(s, k);
    RestInOrder(h[..n], s, k);
    forall i | 0 <= i < |rest| ensures LastTouch(h, rest[i].key) == LastTouch(h[..n], rest[i].key) {
      LastTouchBefore(h, rest[i].key);
    }
    LastTouchBefore(h, k);
    forall m | 0 <= m < |h| ensures HasKey(Touch(s, k, v), h[m].key) {
      if m < n { assert HasKey(s, h[..n][m].key); }
      StillThere(s, k, v, h[m].key);
    }
  }

  lemma LastTouchBefore<K(!new), V(!new)>(h: seq<Entry<K, V>>, k: K)
    requires h != []
    ensures LastTouch(h, k) == if h[|h| - 1].key == k then |h| - 1 else LastTouch(h[..|h| - 1], k)
  {
  }

  lemma RestInOrder<K(!new), V(!new)>(h: seq<Entry<K, V>>, s: Store<K, V>, k: K)
    requires ByLastTouch(h, s)
    ensures ByLastTouch(h, Without(s, k)) && DistinctKeys(s)
    ensures forall i :: 0 <= i < |Without(s, k)| ==> Without(s, k)[i].key != k
  {
    hide Without, LastTouch;
    assert DistinctKeys(s);
    if HasKey(s, k) {
      var n :| 0 <= n < |s| && s[n].key == k;
      WithoutPresent(s, k, n);
      OthersInOrder(h, s, n);
    } else {
      WithoutMissing(s, k);
    }
  }

  lemma OthersInOrder<K(!new), V(!new)>(h: seq<Entry<K, V>>, s: Store<K, V>, n: nat)
    requires ByLastTouch(h, s) && n < |s|
    ensures ByLastTouch(h, s[..n] + s[n + 1..])
  {
    hide LastTouch;
    var rest := s[..n] + s[n + 1..];
    forall i, j | 0 <= i < j < |rest| ensures LastTouch(h, rest[i].key) < LastTouch(h, rest[j].key) {
      assert rest[i] == s[if i < n then i else i + 1] && rest[j] == s[if j < n then j else j + 1];
    }
  }

  lemma StillThere<K(!new), V(!new)>(s: Store<K, V>, k: K, v: V, other: K)
    requires DistinctKeys(s) && (other == k || HasKey(s, other))
    ensures HasKey(Touch(s, k, v), other)
  {
    WithoutKeeps(s, k);
    var s' := Touch(s, k, v);
    if other == k {
      assert s'[|s'| - 1].key == k;
    } else {
      var i :| 0 <= i < |s| && s[i].key == other;
      assert s[i] in Without(s, k);
      assert s[i] in s';
    }
  }
}
