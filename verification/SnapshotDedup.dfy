/** What the worker's memory of snapshot hashes means for updates: the fixture is not part of the key. */
module SnapshotDedup {
  import opened SnapshotText
  import opened SnapshotFeed
  import opened WorkerInput
  import opened SnapshotCache

  datatype Update = Update(fixtureId: string, markets: seq<Market>)

  /** The hash of an update's text. */
  type Hash = seq<Market> -> string

  /** Updates with proper and readable markets, as they are told apart by their texts. */
  ghost predicate TellsApart(hash: Hash, us: seq<Update>, u: Update) {
    forall i :: 0 <= i < |us| ==> (hash(us[i].markets) == hash(u.markets) <==> Reordered(us[i].markets, u.markets))
  }

  /** An update without a fixture or without markets is ignored before anything is hashed. */
  predicate Complete(u: Update) {
    u.fixtureId != "" && u.markets != []
  }

  /** The hashes that the updates offer to the cache. */
  function Offers(us: seq<Update>, hash: Hash): seq<Op> {
    if us == [] then []
    else
      var u := us[|us| - 1];
      Offers(us[..|us| - 1], hash) + if Complete(u) then [Offer(hash(u.markets))] else []
  }

  lemma {:induction false} OfferedIff(us: seq<Update>, hash: Hash, op: Op)
    ensures op in Offers(us, hash) <==> exists i :: 0 <= i < |us| && Complete(us[i]) && op == Offer(hash(us[i].markets))
    decreases |us|
  {
    if us != [] {
      var n := |us| - 1;
      OfferedIff(us[..n], hash, op);
      if i :| 0 <= i < n && Complete(us[i]) && op == Offer(hash(us[i].markets)) { assert us[..n][i] == us[i]; }
      if i :| 0 <= i < n && Complete(us[..n][i]) && op == Offer(hash(us[..n][i].markets)) {
        assert us[..n][i] == us[i];
      }
    }
  }

  /** An update that comes after the others is not handled. */
  predicate Dropped(us: seq<Update>, u: Update, hash: Hash, maxCacheSize: nat) {
    Complete(u) && hash(u.markets) in Run(Offers(us, hash), maxCacheSize).cache
  }

  lemma InSuffix(s: seq<string>, n: nat, h: string)
    requires n <= |s| && h in Last(s, n)
    ensures h in s
  {
  }

  lemma {:induction false} AcceptedIff(ops: seq<Op>, h: string, maxCacheSize: nat)
    requires forall i :: 0 <= i < |ops| ==> ops[i].Offer?
    ensures h in Run(ops, maxCacheSize).accepted <==> Offer(h) in ops
    decreases |ops|
  {
    if ops != [] {
      var n := |ops| - 1;
      AcceptedIff(ops[..n], h, maxCacheSize);
      CacheIsBoundedSuffix(ops[..n], maxCacheSize);
      assert ops == ops[..n] + [ops[n]];
      var s := Run(ops[..n], maxCacheSize);
      if ops[n] == Offer(h) && h in s.cache {
        InSuffix(s.accepted, |s.cache|, h);
      }
    }
  }

  /** The digest does not make the two texts the same. */
  predicate NoCollision(digest: string -> string, s: string, t: string) {
    digest(s) == digest(t) ==> s == t
  }

  /** The hash of the worker's text, where the digest does not make two of the texts at hand the same. */
  lemma {:induction false} TextsTellApart(
      us: seq<Update>, u: Update, text: seq<Market> -> string, digest: string -> string, byKind: Less, byName: Less,
      quote: string -> string, show: real -> string, nums: Numbers, d: Alphabet)
    requires forall s :: text(s) == WorkerText(byKind, byName, s, quote, show)
    requires Quotes(quote) && Prints(show, nums, d) && ',' !in d && '}' !in d
    requires ProperSnapshot(byKind, byName, u.markets) && Readable(u.markets, nums)
    requires forall i :: 0 <= i < |us| ==>
               && ProperSnapshot(byKind, byName, us[i].markets) && Readable(us[i].markets, nums)
               && Orders(byKind, Names(us[i].markets) + Names(u.markets))
               && NoCollision(digest, text(us[i].markets), text(u.markets))
    ensures TellsApart(s => digest(text(s)), us, u)
  {
    forall i | 0 <= i < |us|
      ensures digest(text(us[i].markets)) == digest(text(u.markets)) <==> Reordered(us[i].markets, u.markets)
    {
      WorkerTextIffReordered(byKind, byName, us[i].markets, u.markets, quote, show, nums, d);
    }
  }

  /**
   * A complete update is dropped if and only if some earlier one of any fixture had the same markets and odds, in
   * whatever order, and fewer other snapshots have been accepted since than the worker remembers.
   */
  lemma {:induction false} DroppedIff(us: seq<Update>, u: Update, hash: Hash, maxCacheSize: nat)
    requires TellsApart(hash, us, u)
    ensures var s := Run(Offers(us, hash), maxCacheSize);
            Dropped(us, u, hash, maxCacheSize) <==>
              && Complete(u) && (exists i :: 0 <= i < |us| && Complete(us[i]) && Reordered(us[i].markets, u.markets))
              && Newer(s.accepted, hash(u.markets)) < Kept(|s.accepted|, maxCacheSize)
  {
    var ops, h := Offers(us, hash), hash(u.markets);
    SkippedIff(ops, maxCacheSize, h);
    OfferedIff(us, hash, Offer(h));
    forall i | 0 <= i < |ops| ensures ops[i].Offer? { OfferedIff(us, hash, ops[i]); }
    AcceptedIff(ops, h, maxCacheSize);
  }

  lemma NewestIsKept(s: State, h: string, maxCacheSize: nat)
    requires maxCacheSize >= 1000 && |s.cache| <= maxCacheSize
    ensures h in Next(s, Offer(h), maxCacheSize).cache
  {
    if h !in s.cache {
      var c := s.cache + [h];
      assert c[|c| - 1] == h;
      assert Evict(c, maxCacheSize)[|Evict(c, maxCacheSize)| - 1] == h;
    }
  }

  /** So an update that follows one of another fixture with the same odds is dropped. */
  lemma {:induction false} OtherFixtureIsDropped(us: seq<Update>, v: Update, u: Update, hash: Hash, maxCacheSize: nat)
    requires maxCacheSize >= 1000 && v.fixtureId != u.fixtureId && Complete(v) && Complete(u)
    requires TellsApart(hash, [v], u) && Reordered(v.markets, u.markets)
    ensures Dropped(us + [v], u, hash, maxCacheSize)
  {
    var ops := Offers(us + [v], hash);
    assert [v][0] == v && hash(v.markets) == hash(u.markets);
    var before, n := Offers(us, hash), |Offers(us, hash)|;
    assert (us + [v])[..|us|] == us;
    assert ops == before + [Offer(hash(v.markets))] && ops[..n] == before && ops[n] == Offer(hash(v.markets));
    CacheIsBoundedSuffix(before, maxCacheSize);
    NewestIsKept(Run(before, maxCacheSize), hash(v.markets), maxCacheSize);
  }
}
