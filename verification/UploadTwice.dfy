/** The server answers an upload request twice, and the client starts its send loop for each
    answer that says SUCCESS, so every chunk is delivered twice.
 */
module UploadTwice {
  import opened Bytes
  import opened Chunks
  import opened Upload
  import opened UploadOutcome

  ghost predicate EachTwice(c: Config) {
    c.Valid() && multiset(c.deliveries) == multiset(Indices(Count(|c.source|))) + multiset(Indices(Count(|c.source|)))
  }

  // ---------- sums over sets of deliveries ----------

  lemma {:induction false} TakenAdd(c: Config, taken: set<nat>, t: nat, n: nat)
    requires c.Valid() && t < |c.deliveries| && n <= |c.deliveries| && t !in taken
    ensures TakenBytes(c, taken + {t}, n) == TakenBytes(c, taken, n) + if t < n then c.ChunkLen(t) else 0
  {
    if n > 0 { TakenAdd(c, taken, t, n - 1); }
  }

  lemma {:induction false} TakenAll(c: Config, taken: set<nat>, n: nat)
    requires c.Valid() && n <= |c.deliveries| && forall t :: 0 <= t < n ==> t in taken
    ensures TakenBytes(c, taken, n) == DeliveredBytes(c, n)
  {
    if n > 0 { TakenAll(c, taken, n - 1); }
  }

  lemma {:induction false} TakenNone(c: Config, n: nat)
    requires c.Valid() && n <= |c.deliveries|
    ensures TakenBytes(c, {}, n) == 0
  {
    if n > 0 { TakenNone(c, n - 1); }
  }

  /** Full chunks only: their bytes are a multiple of the chunk size. */
  lemma {:induction false} TakenMultiple(c: Config, taken: set<nat>, n: nat)
    requires c.Valid() && n <= |c.deliveries|
    requires forall t :: 0 <= t < n && t in taken ==> c.ChunkLen(t) == CHUNK_SIZE
    ensures TakenBytes(c, taken, n) % CHUNK_SIZE == 0
  {
    if n > 0 { TakenMultiple(c, taken, n - 1); }
  }

  /** A set that fits can be extended, among allowed deliveries, until none of those fits. */
  lemma {:induction false} Extend(c: Config, taken: set<nat>, allowed: set<nat>) returns (more: set<nat>)
    requires c.Valid() && taken <= allowed && forall t :: t in allowed ==> t < |c.deliveries|
    requires TakenBytes(c, taken, |c.deliveries|) <= |c.source|
    ensures taken <= more <= allowed && TakenBytes(c, more, |c.deliveries|) <= |c.source|
    ensures forall t :: t in allowed - more ==> TakenBytes(c, more, |c.deliveries|) + c.ChunkLen(t) > |c.source|
    decreases allowed - taken
  {
    if t :| t in allowed - taken && TakenBytes(c, taken, |c.deliveries|) + c.ChunkLen(t) <= |c.source| {
      TakenAdd(c, taken, t, |c.deliveries|);
      more := Extend(c, taken + {t}, allowed);
    } else {
      more := taken;
    }
  }

  // ---------- what twice means ----------

  lemma {:induction false} LenSumConcat(size: nat, a: seq<nat>, b: seq<nat>)
    requires ChunkIds(size, a) && ChunkIds(size, b)
    ensures ChunkIds(size, a + b) && LenSum(size, a + b) == LenSum(size, a) + LenSum(size, b)
    decreases |b|
  {
    if b == [] {
      assert a + b == a;
    } else {
      LenSumConcat(size, a, b[..|b| - 1]);
      assert (a + b)[..|a + b| - 1] == a + b[..|b| - 1];
    }
  }

  lemma TwiceBytes(c: Config)
    requires EachTwice(c)
    ensures DeliveredBytes(c, |c.deliveries|) == 2 * |c.source|
  {
    var size, all := |c.source|, Indices(Count(|c.source|));
    LenSumConcat(size, all, all);
    LenSumPermutation(size, c.deliveries, all + all);
    LenSumOfAll(size, Count(size));
    LengthsAddUp(size, Count(size));
    DeliveredIsLenSum(c, |c.deliveries|);
    assert c.deliveries[..|c.deliveries|] == c.deliveries;
  }

  lemma OneLess(d: seq<nat>, x: nat) returns (i: nat)
    requires multiset(d)[x] > 0
    ensures i < |d| && d[i] == x && multiset(Without(d, i))[x] == multiset(d)[x] - 1
  {
    assert x in multiset(d);
    i :| 0 <= i < |d| && d[i] == x;
    WithoutMultiset(d, i);
  }

  /** What is left without two places has everything that stands at others. */
  lemma StandsElsewhere(d: seq<nat>, i: nat, k: nat, t: nat)
    requires i < |d| && k < |d| - 1 && t < |d| && t != i && t != (if k < i then k else k + 1)
    ensures d[t] in multiset(Without(Without(d, i), k))
  {
    var e := Without(d, i);
    var u := if t < i then t else t - 1;
    var v := if u < k then u else u - 1;
    assert e[u] == d[t];
    assert Without(e, k)[v] == e[u];
  }

  lemma TwoPlaces(d: seq<nat>, x: nat) returns (i: nat, j: nat)
    requires multiset(d)[x] == 2
    ensures i < |d| && j < |d| && i != j
    ensures forall t :: 0 <= t < |d| ==> (d[t] == x <==> t == i || t == j)
  {
    i := OneLess(d, x);
    var k := OneLess(Without(d, i), x);
    j := if k < i then k else k + 1;
    forall t | 0 <= t < |d| && t != i && t != j ensures d[t] != x {
      StandsElsewhere(d, i, k, t);
    }
  }

  /** Each chunk comes with exactly two deliveries. */
  lemma TwoDeliveries(c: Config, x: nat) returns (i: nat, j: nat)
    requires EachTwice(c) && x < Count(|c.source|)
    ensures i < |c.deliveries| && j < |c.deliveries| && i != j
    ensures forall t :: 0 <= t < |c.deliveries| ==> (c.deliveries[t] == x <==> t == i || t == j)
  {
    IndexOccursOnce(Count(|c.source|), x);
    i, j := TwoPlaces(c.deliveries, x);
  }

  // ---------- the condition ----------

  /** One chunk, or nothing but zeros in full chunks. */
  ghost predicate Robust(source: seq<byte>) {
    Count(|source|) == 1 || (|source| % CHUNK_SIZE == 0 && AllZero(source))
  }

  ghost predicate AllZero(source: seq<byte>) {
    forall k: nat :: k < |source| ==> source[k] == 0
  }

  lemma OneChunkComplete(c: Config, taken: set<nat>)
    requires EachTwice(c) && Count(|c.source|) == 1 && Maximal(c, taken)
    ensures Complete(c, taken)
  {
    var n := |c.deliveries|;
    var i, j := TwoDeliveries(c, 0);
    if !(exists t :: t in taken) {
      assert taken == {};
      TakenNone(c, n);
    }
    var t :| t in taken;
    TakenAdd(c, taken - {t}, t, n);
    assert taken - {t} + {t} == taken;
    forall k | 0 <= k < |c.source| ensures Covered(c, taken, k) {
      assert c.deliveries[t] == k / CHUNK_SIZE;
    }
  }

  lemma FullChunks(c: Config)
    requires c.Valid() && |c.source| % CHUNK_SIZE == 0
    ensures forall t :: 0 <= t < |c.deliveries| ==> c.ChunkLen(t) == CHUNK_SIZE
  {
  }

  /** Of full chunks, sent twice, a maximal set fills the file. */
  lemma FullChunksFill(c: Config, taken: set<nat>)
    requires EachTwice(c) && |c.source| % CHUNK_SIZE == 0 && Maximal(c, taken)
    ensures TakenBytes(c, taken, |c.deliveries|) == |c.source|
  {
    var n := |c.deliveries|;
    FullChunks(c);
    TakenMultiple(c, taken, n);
    if forall t :: 0 <= t < n ==> t in taken {
      TakenAll(c, taken, n);
      TwiceBytes(c);
    }
  }

  lemma ShortNeverFill(c: Config, taken: set<nat>, i: nat, j: nat)
    requires c.Valid() && |c.source| % CHUNK_SIZE != 0 && i in taken && j in taken && i != j
    requires i < |c.deliveries| && j < |c.deliveries|
    requires forall t :: 0 <= t < |c.deliveries| ==> (c.deliveries[t] == Count(|c.source|) - 1 <==> t == i || t == j)
    ensures TakenBytes(c, taken, |c.deliveries|) != |c.source|
  {
    var n, full := |c.deliveries|, taken - {i} - {j};
    TakenMultiple(c, full, n);
    TakenAdd(c, full, i, n);
    TakenAdd(c, full + {i}, j, n);
    assert full + {i} + {j} == taken;
    assert c.ChunkLen(i) == c.ChunkLen(j) == |c.source| % CHUNK_SIZE;
  }

  /** The two short last chunks, extended as far as possible, never fill the file. */
  lemma ShortLastChunk(c: Config) returns (taken: set<nat>)
    requires EachTwice(c) && Count(|c.source|) > 1 && |c.source| % CHUNK_SIZE != 0
    ensures Maximal(c, taken) && TakenBytes(c, taken, |c.deliveries|) != |c.source|
  {
    var n, last := |c.deliveries|, Count(|c.source|) - 1;
    var i, j := TwoDeliveries(c, last);
    TakenNone(c, n);
    TakenAdd(c, {}, i, n);
    TakenAdd(c, {} + {i}, j, n);
    taken := Extend(c, {} + {i} + {j}, IdsBelow(n));
    ShortNeverFill(c, taken, i, j);
  }

  /** Full chunks without the two deliveries of one chunk fill the file. */
  lemma WithoutOneChunk(c: Config, x: nat) returns (taken: set<nat>)
    requires EachTwice(c) && Count(|c.source|) > 1 && |c.source| % CHUNK_SIZE == 0 && x < Count(|c.source|)
    ensures Maximal(c, taken) && forall t :: t in taken && t < |c.deliveries| ==> c.deliveries[t] != x
  {
    var n := |c.deliveries|;
    var i, j := TwoDeliveries(c, x);
    var all := IdsBelow(n);
    var allowed := all - {i} - {j};
    TakenNone(c, n);
    taken := Extend(c, {}, allowed);
    FullChunks(c);
    TakenMultiple(c, taken, n);
    if forall t :: t in allowed ==> t in taken {
      assert taken == allowed;
      TakenAdd(c, allowed, i, n);
      TakenAdd(c, allowed + {i}, j, n);
      assert allowed + {i} + {j} == all;
      TakenAll(c, all, n);
      TwiceBytes(c);
      assert TakenBytes(c, taken, n) + 2 * CHUNK_SIZE == 2 * |c.source|;
    } else {
      var t :| t in allowed && t !in taken;
      assert t in allowed - taken;
    }
    assert TakenBytes(c, taken, n) == |c.source|;
  }

  /** So the ordinary path of an upload stores the source in every run exactly if the file has
      a single chunk, or full chunks of zeros only. Any other file can end up finished with a
      chunk missing, or never finish.
   */
  lemma TwiceStoresIff(c: Config)
    requires EachTwice(c)
    ensures AlwaysStores(c) <==> Robust(c.source)
  {
    StoresSourceIff(c);
    if Robust(c.source) {
      forall taken: set<nat> | Maximal(c, taken) ensures Complete(c, taken) {
        if Count(|c.source|) == 1 { OneChunkComplete(c, taken); } else { FullChunksFill(c, taken); }
      }
    } else if |c.source| % CHUNK_SIZE != 0 {
      var taken := ShortLastChunk(c);
    } else {
      var k: nat :| k < |c.source| && c.source[k] != 0;
      var taken := WithoutOneChunk(c, k / CHUNK_SIZE);
      assert !Covered(c, taken, k);
    }
  }
}
