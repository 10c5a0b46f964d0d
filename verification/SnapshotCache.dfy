/** The bounded memory of snapshot hashes that keeps the worker from handling a snapshot twice. */
module SnapshotCache {
  import opened Common

  datatype Op = Offer(hash: string) | Clear

  /** The remembered hashes in insertion order, and all hashes accepted since the last clear. */
  datatype State = State(cache: seq<string>, accepted: seq<string>)

  function Evict(cache: seq<string>, maxCacheSize: nat): seq<string> {
    if |cache| > maxCacheSize then cache[Min(1000, |cache|)..] else cache
  }

  function Next(s: State, op: Op, maxCacheSize: nat): State {
    match op
    case Offer(h) =>
      if h in s.cache then s else State(Evict(s.cache + [h], maxCacheSize), s.accepted + [h])
    case Clear => State([], [])
  }

  function Run(ops: seq<Op>, maxCacheSize: nat): State {
    if ops == [] then State([], [])
    else Next(Run(ops[..|ops| - 1], maxCacheSize), ops[|ops| - 1], maxCacheSize)
  }

  /** The worker's part before its first await. */
  class Pipeline {
    const maxCacheSize: nat
    var processedSnapshots: seq<string>
    ghost var accepted: seq<string>

    ghost function View(): State
      reads this
    {
      State(processedSnapshots, accepted)
    }

    constructor (maxCacheSize: nat := 10000)
      ensures View() == State([], []) && this.maxCacheSize == maxCacheSize
    {
      this.maxCacheSize := maxCacheSize;
      processedSnapshots, accepted := [], [];
    }

    method Admit(hash: string) returns (isNew: bool)
      modifies this
      ensures View() == Next(old(View()), Offer(hash), maxCacheSize)
      ensures isNew == (hash !in old(processedSnapshots))
    {
      if hash in processedSnapshots { return false; }
      processedSnapshots := processedSnapshots + [hash];
      accepted := accepted + [hash];
      if |processedSnapshots| > maxCacheSize {
        ghost var entries := processedSnapshots;
        var i := 0;
        while i < 1000
          invariant 0 <= i <= 1000 && i <= |entries|
          invariant processedSnapshots == entries[i..] && accepted == old(accepted) + [hash]
        {
          if processedSnapshots == [] {
            assert i == |entries|;
            break;
          }
          processedSnapshots := processedSnapshots[1..];
          i := i + 1;
        }
        assert processedSnapshots == Evict(entries, maxCacheSize);
      }
      isNew := true;
    }

    method ClearCache()
      modifies this
      ensures View() == Next(old(View()), Clear, maxCacheSize)
    {
      processedSnapshots, accepted := [], [];
    }
  }

  /** The size that an eviction leaves: nothing where the limit is below 1000. */
  function Floor(maxCacheSize: nat): nat {
    Max(0, maxCacheSize - 999)
  }

  /** How many of n accepted hashes are still remembered. */
  function Kept(n: nat, maxCacheSize: nat): int {
    var floor := Floor(maxCacheSize);
    if n <= maxCacheSize then n else floor + (n - maxCacheSize - 1) % (maxCacheSize + 1 - floor)
  }

  lemma MultipleIsLarge(d: int, p: int)
    requires p > 0 && d != 0
    ensures d * p >= p || d * p <= -p
  {
    if d > 0 { assert (d - 1) * p >= 0; } else { assert (-1 - d) * p >= 0; }
  }

  lemma RemainderIs(m: int, p: int, q: int, r: int)
    requires 0 <= r < p && m == q * p + r
    ensures m % p == r
  {
    var d := m / p - q;
    assert d * p == (m / p) * p - q * p == r - m % p;
    if d != 0 { MultipleIsLarge(d, p); }
  }

  lemma NextMultiple(q: int, p: int)
    ensures (q + 1) * p == q * p + p
  {
  }

  lemma RemainderStep(m: int, p: int)
    requires p > 0
    ensures (m + 1) % p == if m % p == p - 1 then 0 else m % p + 1
  {
    NextMultiple(m / p, p);
    if m % p == p - 1 {
      RemainderIs(m + 1, p, m / p + 1, 0);
    } else {
      RemainderIs(m + 1, p, m / p, m % p + 1);
    }
  }

  lemma KeptStep(n: nat, maxCacheSize: nat)
    ensures 0 <= Kept(n, maxCacheSize) <= Min(n, maxCacheSize)
    ensures Kept(n, maxCacheSize) >= Min(n, Floor(maxCacheSize))
    ensures Kept(n + 1, maxCacheSize)
         == if Kept(n, maxCacheSize) == maxCacheSize then Floor(maxCacheSize) else Kept(n, maxCacheSize) + 1
  {
    if n > maxCacheSize { RemainderStep(n - maxCacheSize - 1, maxCacheSize + 1 - Floor(maxCacheSize)); }
  }

  /** The last `n` elements. */
  function Last(s: seq<string>, n: nat): seq<string>
    requires n <= |s|
  {
    s[|s| - n..]
  }

  lemma DropKeepsDistinct(s: seq<string>, n: nat)
    requires Distinct(s) && n <= |s|
    ensures Distinct(s[n..])
  {
    var t := s[n..];
    forall i, j | 0 <= i < j < |t| ensures t[i] != t[j] {
      assert t[i] == s[n + i] && t[j] == s[n + j];
    }
  }

  lemma EvictKeepsSuffix(cache: seq<string>, accepted: seq<string>, maxCacheSize: nat)
    requires |cache| <= |accepted| && cache == Last(accepted, |cache|) && Distinct(cache) && |cache| <= maxCacheSize + 1
    ensures var r := Evict(cache, maxCacheSize);
            |r| <= |accepted| && r == Last(accepted, |r|) && Distinct(r) && |r| <= maxCacheSize
  {
    DropKeepsDistinct(cache, Min(1000, |cache|));
  }

  lemma LastSnoc(s: seq<string>, x: string, n: nat)
    requires n <= |s|
    ensures Last(s + [x], n + 1) == Last(s, n) + [x]
  {
  }

  /** For every size: the cache is a duplicate-free suffix of the accepted hashes and not larger than its limit. */
  lemma {:induction false} CacheIsBoundedSuffix(ops: seq<Op>, maxCacheSize: nat)
    ensures var s := Run(ops, maxCacheSize);
            && |s.cache| <= |s.accepted| && s.cache == Last(s.accepted, |s.cache|)
            && Distinct(s.cache) && |s.cache| <= maxCacheSize
  {
    if ops != [] {
      var n := |ops| - 1;
      CacheIsBoundedSuffix(ops[..n], maxCacheSize);
      var s := Run(ops[..n], maxCacheSize);
      if ops[n].Offer? && ops[n].hash !in s.cache {
        LastSnoc(s.accepted, ops[n].hash, |s.cache|);
        EvictKeepsSuffix(s.cache + [ops[n].hash], s.accepted + [ops[n].hash], maxCacheSize);
      }
    }
  }

  /** For every limit the number of remembered hashes is known exactly. */
  lemma {:induction false} CacheSizeIsExact(ops: seq<Op>, maxCacheSize: nat)
    ensures var s := Run(ops, maxCacheSize); |s.cache| == Kept(|s.accepted|, maxCacheSize)
  {
    if ops != [] {
      var n := |ops| - 1;
      CacheSizeIsExact(ops[..n], maxCacheSize);
      CacheIsBoundedSuffix(ops[..n], maxCacheSize);
      KeptStep(|Run(ops[..n], maxCacheSize).accepted|, maxCacheSize);
    }
  }

  /** The number of hashes accepted after the last acceptance of `h`, or all of them when there was none. */
  function Newer(accepted: seq<string>, h: string): nat {
    if accepted == [] || accepted[|accepted| - 1] == h then 0 else Newer(accepted[..|accepted| - 1], h) + 1
  }

  lemma {:induction false} InLastIff(s: seq<string>, n: nat, h: string)
    requires n <= |s|
    ensures h in Last(s, n) <==> Newer(s, h) < n
    ensures Newer(s, h) <= |s|
    ensures h in s <==> Newer(s, h) < |s|
    decreases |s|
  {
    if s != [] {
      var m := |s| - 1;
      assert s == s[..m] + [s[m]];
      if n > 0 {
        InLastIff(s[..m], n - 1, h);
        LastSnoc(s[..m], s[m], n - 1);
      } else {
        InLastIff(s[..m], 0, h);
      }
    }
  }

  /**
   * An offered hash is skipped exactly when fewer newer hashes have been accepted than the cache keeps:
   * always when there are fewer than maxCacheSize - 999 of them, never when there are maxCacheSize or more,
   * and never when the hash has not been accepted since the last clear.
   */
  lemma {:induction false} SkippedIff(ops: seq<Op>, maxCacheSize: nat, h: string)
    ensures var s := Run(ops, maxCacheSize); var newer := Newer(s.accepted, h);
            && (h in s.cache <==> newer < Kept(|s.accepted|, maxCacheSize))
            && (h in s.accepted && newer < maxCacheSize - 999 ==> h in s.cache)
            && (newer >= maxCacheSize || h !in s.accepted ==> h !in s.cache)
  {
    var s := Run(ops, maxCacheSize);
    CacheIsBoundedSuffix(ops, maxCacheSize);
    CacheSizeIsExact(ops, maxCacheSize);
    KeptStep(|s.accepted|, maxCacheSize);
    InLastIff(s.accepted, |s.cache|, h);
  }
}
